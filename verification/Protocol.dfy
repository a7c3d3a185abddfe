/** The document store under concurrency. Requests interleave at every D1 and R2
    call: a row read, one blob stored, a batch, one delete. D1 batches commit whole
    or change nothing; any request may stop for good between two calls.

    Decisions that rest on other reads (the storage total, the slug claim) may be
    stale by then, so a step takes them as given, whatever they are. The cores that
    touch neither version rows nor pointers (slug, tags, status, redirects) are one
    step that writes those columns freely. */
module Protocol {
  import opened Records
  import opened D1
  import opened Writes
  import Edits

  /** Which core asked for a write, and what it was asked for. */
  datatype Origin =
    | Publication(pub: PublishReq)
    | UpdateOf(req: WriteReq)
    | EditOf(edit: EditReq, base: nat)
    | RestoreOf(from: nat, author: Author)

  datatype EditReq = EditReq(
    doc: string, edits: seq<Edits.EditSpec>, replaceAll: bool, expected: Option<nat>, author: Author, opts: Opts)

  datatype Stage = StoreH | StoreS | Commit | Rollback

  /** A request between two of its calls, with what it has read so far. */
  datatype Op =
    | Updating(req: WriteReq, origin: Origin)
    | Editing(edit: EditReq)
    | EditLoaded(edit: EditReq, ver: nat, sKey: Key, format: Format)
    | Restoring(doc: string, from: nat, author: Author)
    | RestoreLoaded(doc: string, from: nat, author: Author, sKey: Key, format: Format, opts: Opts)
    | Writing(plan: Plan, stage: Stage, origin: Origin)
    | Promoting(doc: string, ver: nat)
    | Revoking(doc: string)
    | RevokeRead(doc: string, already: bool, slug: Option<string>)
    | RevokeKeys(doc: string, already: bool, slug: Option<string>, keys: set<Key>)
    | Purging(doc: string, keys: set<Key>)

  /** A version some write committed, and who asked for it. */
  datatype Event = Event(doc: string, ver: nat, origin: Origin)

  datatype Sys = Sys(db: Db, r2: map<Key, string>, ops: map<nat, Op>, nonces: set<string>, log: seq<Event>)

  const START := Sys(EMPTY, map[], map[], {}, [])

  /** R2 takes at most this many keys in one delete. */
  const R2_DELETE_BATCH := 1000

  datatype Action =
    | Publish(op: nat, pub: PublishReq, used: nat, claim: SlugResult, names: Names, now: string)
    | BeginUpdate(op: nat, req: WriteReq)
    | BeginEdit(op: nat, edit: EditReq)
    | BeginRestore(op: nat, doc: string, from: nat, author: Author)
    | BeginRevoke(op: nat, doc: string)
    | LookUpVersion(op: nat, doc: string, ver: nat)
    | ReadRow(op: nat, used: nat, claim: SlugResult, nonce: string, now: string)
    | ReadVersion(op: nat)
    | FetchSource(op: nat)
    | PutBlob(op: nat)
    | RunBatch(op: nat, up: bool)
    | DeleteBlobs(op: nat, up: bool)
    | SetPublished(op: nat)
    | ReadRevoke(op: nat)
    | ReadKeys(op: nat)
    | KillBatch(op: nat, now: string, up: bool)
    | PurgeChunk(op: nat, chunk: set<Key>)
    | Stop(op: nat)
    | SetVisibility(doc: string, visibility: Visibility)
    | Reclassify(doc: string, slug: Option<string>, tags: seq<string>, status: Status, supersededBy: Option<string>)
    | RewriteTombs(tombs: map<string, Tomb>)

  // ---- one step --------------------------------------------------------------

  function Become(s: Sys, op: nat, next: Op): Sys {
    s.(ops := s.ops[op := next])
  }

  function Finish(s: Sys, op: nat): Sys {
    s.(ops := s.ops - {op})
  }

  /** The keys of every stored version of a document. */
  ghost function KeysOf(db: Db, doc: string): set<Key> {
    set v, k | v in db.vers && v.doc == doc && k in db.vers[v].Keys() :: k
  }

  /** restoreMetaFrom: a stored value is passed on, a missing one re-derives. */
  function RestoreOpts(row: Version): Opts {
    Opts(Some(row.title.GetOr("")), Some(row.description.GetOr("")), None, None)
  }

  ghost function StepPublish(env: Env, s: Sys, a: Action): Sys
    requires a.Publish?
  {
    if a.op in s.ops || a.names.nonce in s.nonces then s
    else
      match DecidePublish(env, a.pub, a.used, a.claim, a.names, a.now)
      case Write(plan, _) =>
        Become(s, a.op, Writing(plan, StoreH, Publication(a.pub))).(nonces := s.nonces + {a.names.nonce})
      case _ => s
  }

  ghost function StepReadRow(env: Env, s: Sys, a: Action): Sys
    requires a.ReadRow?
  {
    if a.op !in s.ops || !s.ops[a.op].Updating? || a.nonce in s.nonces then s
    else
      var op := s.ops[a.op];
      match LoadView(s.db, op.req.doc)
      case None => Finish(s, a.op)
      case Some(view) =>
        match DecideUpdate(env, view, op.req, a.used, a.claim, a.nonce, a.now)
        case Write(plan, _) =>
          Become(s, a.op, Writing(plan, StoreH, op.origin)).(nonces := s.nonces + {a.nonce})
        case _ => Finish(s, a.op)
  }

  /** readDocumentSourceCore's row read; a version without a source ends it. */
  function StepReadVersion(s: Sys, op: nat): Sys {
    if op !in s.ops || !(s.ops[op].Editing? || s.ops[op].Restoring?) then s
    else
      var o := s.ops[op];
      var doc := if o.Editing? then o.edit.doc else o.doc;
      if doc !in s.db.docs || !s.db.docs[doc].Live() then Finish(s, op)
      else
        var ver := if o.Restoring? then Some(o.from) else s.db.docs[doc].current;
        if ver.None? || VerId(doc, ver.value) !in s.db.vers then Finish(s, op)
        else
          var row := s.db.vers[VerId(doc, ver.value)];
          if row.sKey.None? then Finish(s, op)
          else if o.Editing? then Become(s, op, EditLoaded(o.edit, ver.value, row.sKey.value, row.format))
          else Become(s, op, RestoreLoaded(doc, o.from, o.author, row.sKey.value, row.format, RestoreOpts(row)))
  }

  /** The blob read, then the hand-over to the update. An edit without an expected
      version is guarded by the version it read. */
  function StepFetchSource(s: Sys, op: nat): Sys {
    if op !in s.ops || !(s.ops[op].EditLoaded? || s.ops[op].RestoreLoaded?) then s
    else
      var o := s.ops[op];
      if o.sKey !in s.r2 then Finish(s, op)
      else if o.RestoreLoaded? then
        Become(s, op, Updating(WriteReq(o.doc, s.r2[o.sKey], None, o.author, o.format, o.opts, false), RestoreOf(o.from, o.author)))
      else
        var e := o.edit;
        if e.expected.Some? && e.expected.value != o.ver then Finish(s, op)
        else
          match Edits.Apply(s.r2[o.sKey], e.edits, e.replaceAll)
          case Edited(text, _) =>
            Become(s, op, Updating(WriteReq(e.doc, text, Some(e.expected.GetOr(o.ver)), e.author, o.format, e.opts, false),
                                   EditOf(e, o.ver)))
          case _ => Finish(s, op)
  }

  function StepPutBlob(s: Sys, op: nat): Sys {
    if op !in s.ops || !s.ops[op].Writing? then s
    else
      var o := s.ops[op];
      if o.stage.StoreH? then
        Become(s, op, o.(stage := StoreS)).(r2 := s.r2[o.plan.row.hKey := o.plan.html])
      else if o.stage.StoreS? && o.plan.row.sKey.Some? && o.plan.row.sha.Some? then
        Become(s, op, o.(stage := Commit)).(r2 := s.r2[o.plan.row.sKey.value := o.plan.row.sha.value.of])
      else s
  }

  /** The batch; on failure the writer goes on to delete its two blobs. */
  function StepRunBatch(s: Sys, op: nat, up: bool): Sys {
    if op !in s.ops || !s.ops[op].Writing? || !s.ops[op].stage.Commit? then s
    else
      var o := s.ops[op];
      match (if up then Batch(s.db, Statements(o.plan)) else None)
      case None => Become(s, op, o.(stage := Rollback))
      case Some(db') => Finish(s, op).(db := db', log := s.log + [Event(o.plan.docId, o.plan.ver, o.origin)])
  }

  function StepDeleteBlobs(s: Sys, op: nat, up: bool): Sys {
    if op !in s.ops || !s.ops[op].Writing? || !s.ops[op].stage.Rollback? then s
    else if up then Finish(s, op).(r2 := s.r2 - s.ops[op].plan.row.Keys())
    else Finish(s, op)
  }

  function StepSetPublished(s: Sys, op: nat): Sys {
    if op !in s.ops || !s.ops[op].Promoting? then s
    else
      var o := s.ops[op];
      if o.doc in s.db.docs && s.db.docs[o.doc].Live() then
        Finish(s, op).(db := UpdateDoc(s.db, o.doc, s.db.docs[o.doc].(published := Some(o.ver))))
      else Finish(s, op)
  }

  function StepLookUpVersion(s: Sys, op: nat, doc: string, ver: nat): Sys {
    if op !in s.ops && doc in s.db.docs && s.db.docs[doc].Live() && VerId(doc, ver) in s.db.vers
    then Become(s, op, Promoting(doc, ver)) else s
  }

  function StepReadRevoke(s: Sys, op: nat): Sys {
    if op !in s.ops || !s.ops[op].Revoking? then s
    else
      var doc := s.ops[op].doc;
      if doc !in s.db.docs then Finish(s, op)
      else Become(s, op, RevokeRead(doc, !s.db.docs[doc].Live(), s.db.docs[doc].slug))
  }

  ghost function StepReadKeys(s: Sys, op: nat): Sys {
    if op !in s.ops || !s.ops[op].RevokeRead? then s
    else
      var o := s.ops[op];
      Become(s, op, RevokeKeys(o.doc, o.already, o.slug, KeysOf(s.db, o.doc)))
  }

  function KillStatements(doc: string, slug: Option<string>, now: string): seq<Stmt> {
    [Kill(doc, now)] + (if slug.Some? then [RetireSlug(slug.value, Tomb(Some(doc), now, Revoked, None))] else [])
  }

  /** A document already revoked skips the batch and goes straight to the purge. */
  function StepKillBatch(s: Sys, op: nat, now: string, up: bool): Sys {
    if op !in s.ops || !s.ops[op].RevokeKeys? then s
    else
      var o := s.ops[op];
      if o.already then Become(s, op, Purging(o.doc, o.keys))
      else
        match (if up then Batch(s.db, KillStatements(o.doc, o.slug, now)) else None)
        case None => Finish(s, op)
        case Some(db') => Become(s, op, Purging(o.doc, o.keys)).(db := db')
  }

  function StepPurgeChunk(s: Sys, op: nat, chunk: set<Key>): Sys {
    if op !in s.ops || !s.ops[op].Purging? || !(chunk <= s.ops[op].keys) || |chunk| > R2_DELETE_BATCH then s
    else
      var o := s.ops[op];
      var left := o.keys - chunk;
      (if left == {} then Finish(s, op) else Become(s, op, Purging(o.doc, left))).(r2 := s.r2 - chunk)
  }

  /** Going public publishes what is current unless a version is already chosen. */
  function StepSetVisibility(s: Sys, doc: string, v: Visibility): Sys {
    if doc !in s.db.docs || !s.db.docs[doc].Live() then s
    else
      var d := s.db.docs[doc];
      var published := if v.Public? && d.published.None? then d.current else d.published;
      s.(db := UpdateDoc(s.db, doc, d.(visibility := v, published := published)))
  }

  ghost function Step(env: Env, s: Sys, a: Action): Sys {
    match a
    case Publish(_, _, _, _, _, _) => StepPublish(env, s, a)
    case BeginUpdate(op, req) => if op in s.ops then s else Become(s, op, Updating(req, UpdateOf(req)))
    case BeginEdit(op, edit) => if op in s.ops then s else Become(s, op, Editing(edit))
    case BeginRestore(op, doc, from, author) => if op in s.ops then s else Become(s, op, Restoring(doc, from, author))
    case BeginRevoke(op, doc) => if op in s.ops then s else Become(s, op, Revoking(doc))
    case LookUpVersion(op, doc, ver) => StepLookUpVersion(s, op, doc, ver)
    case ReadRow(_, _, _, _, _) => StepReadRow(env, s, a)
    case ReadVersion(op) => StepReadVersion(s, op)
    case FetchSource(op) => StepFetchSource(s, op)
    case PutBlob(op) => StepPutBlob(s, op)
    case RunBatch(op, up) => StepRunBatch(s, op, up)
    case DeleteBlobs(op, up) => StepDeleteBlobs(s, op, up)
    case SetPublished(op) => StepSetPublished(s, op)
    case ReadRevoke(op) => StepReadRevoke(s, op)
    case ReadKeys(op) => StepReadKeys(s, op)
    case KillBatch(op, now, up) => StepKillBatch(s, op, now, up)
    case PurgeChunk(op, chunk) => StepPurgeChunk(s, op, chunk)
    case Stop(op) => Finish(s, op)
    case SetVisibility(doc, v) => StepSetVisibility(s, doc, v)
    case Reclassify(doc, slug, tags, status, supersededBy) =>
      if doc !in s.db.docs then s
      else s.(db := UpdateDoc(s.db, doc,
                s.db.docs[doc].(slug := slug, tags := tags, status := status, supersededBy := supersededBy)))
    case RewriteTombs(tombs) => s.(db := s.db.(tombs := tombs))
  }

  ghost predicate Next(env: Env, s: Sys, s': Sys) {
    exists a :: s' == Step(env, s, a)
  }

  /** A run: any interleaving of any requests, from the empty store. */
  ghost predicate IsRun(env: Env, states: seq<Sys>) {
    && states != [] && states[0] == START
    && forall i, j {:trigger Next(env, states[i], states[j])} | 0 <= i < |states| && j == i + 1 < |states| :: Next(env, states[i], states[j])
  }

  ghost predicate Ends(env: Env, states: seq<Sys>, s: Sys) {
    IsRun(env, states) && states[|states| - 1] == s
  }

  ghost predicate Reachable(env: Env, s: Sys) {
    exists states :: Ends(env, states, s)
  }
}
