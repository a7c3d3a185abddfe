/** The document store one call at a time: what each core answers and what it
    leaves in D1 and R2, as functions of the state it finds. The methods of
    DocumentStore are proved to compute these; the runs of calls are the subject
    of the modules below them. */
module Serial {
  import opened Records
  import opened D1
  import opened Writes
  import Edits
  import Protocol

  /** `nonces` are the blob nonces minted so far. */
  datatype Store = Store(db: Db, r2: map<Key, string>, nonces: set<string>)

  const NEW_STORE := Store(EMPTY, map[], {})

  datatype Outcome =
    | Written(ok: WriteOk, replacements: nat)
    | Failed(err: WriteErr)
    | SlugSet(slug: Option<string>, retired: Option<string>, redirected: bool)
    | Purged(versions: nat)
    | Done
    | InvalidStatus
    | BadTarget(target: string)
    | TombstoneNotFound

  datatype Reply = Reply(store: Store, out: Outcome)

  // ---- the storage total -----------------------------------------------------

  function RowBytes(row: Version): nat { row.size + row.sourceSize.GetOr(0) }

  /** The rows the storage total counts: those of live documents. */
  function Counted(db: Db): set<VerId> {
    set v | v in db.vers && v.doc in db.docs && db.docs[v.doc].Live()
  }

  ghost function SumOf(vers: map<VerId, Version>, vs: set<VerId>): nat
    requires vs <= vers.Keys
  {
    if vs == {} then 0
    else
      var v :| v in vs;
      RowBytes(vers[v]) + SumOf(vers, vs - {v})
  }

  ghost function UsedBytes(db: Db): nat { SumOf(db.vers, Counted(db)) }

  ghost predicate WithinCap(env: Env, db: Db) { UsedBytes(db) <= env.storageCap }

  // ---- writes ----------------------------------------------------------------

  /** R2 once both of a plan's blobs are stored. */
  function WithBlobs(r2: map<Key, string>, p: Plan): map<Key, string> {
    var h := r2[p.row.hKey := p.html];
    if p.row.sKey.Some? && p.row.sha.Some? then h[p.row.sKey.value := p.row.sha.value.of] else h
  }

  /** Both blobs, then the batch; if it does not go through, both blobs are deleted. */
  function Land(s: Store, p: Plan, ok: WriteOk, up: bool): Reply {
    var r2 := WithBlobs(s.r2, p);
    var nonces := s.nonces + {p.row.hKey.nonce};
    if up && Accepts(s.db, p) then Reply(Store(Committed(s.db, p), r2, nonces), Written(ok, 0))
    else Reply(Store(s.db, r2 - p.row.Keys(), nonces), Failed(Thrown))
  }

  function Conclude(s: Store, d: Decision, up: bool): Reply {
    match d
    case Refuse(err) => Reply(s, Failed(err))
    case Collapse(ok) => Reply(s, Written(ok, 0))
    case Write(plan, ok) => Land(s, plan, ok, up)
  }

  ghost function Publish(env: Env, s: Store, req: PublishReq, names: Names, now: string, up: bool): Reply {
    var slug := ResolveSlug(env, s.db, req.opts.slug, None, None, req.allowReserved);
    Conclude(s, DecidePublish(env, req, UsedBytes(s.db), slug, names, now), up)
  }

  ghost function SlugFor(env: Env, db: Db, view: View, req: WriteReq): SlugResult {
    ResolveSlug(env, db, req.opts.slug, view.slug, Some(view.id), req.allowReserved)
  }

  ghost function Update(env: Env, s: Store, req: WriteReq, nonce: string, now: string, up: bool): Reply {
    if |req.body| == 0 then Reply(s, Failed(EmptyBody))
    else
      match LoadView(s.db, req.doc)
      case None => Reply(s, Failed(NotFound))
      case Some(view) =>
        Conclude(s, DecideUpdate(env, view, req, UsedBytes(s.db), SlugFor(env, s.db, view, req), nonce, now), up)
  }

  datatype SourceRead = Source(text: string, ver: nat, row: Version) | NoSource(err: WriteErr)

  /** The retained source of one version, or of the current one. */
  function ReadSource(db: Db, r2: map<Key, string>, doc: string, ver: Option<nat>): SourceRead {
    if doc !in db.docs || !db.docs[doc].Live() then NoSource(NotFound)
    else
      var no := if ver.Some? then ver else db.docs[doc].current;
      if no.None? || VerId(doc, no.value) !in db.vers then
        NoSource(if ver.Some? then VersionNotFound else NotFound)
      else
        var row := db.vers[VerId(doc, no.value)];
        if row.sKey.None? || row.sKey.value !in r2 then NoSource(SourceUnavailable)
        else Source(r2[row.sKey.value], no.value, row)
  }

  /** An edit writes forward from the version it read, and is guarded by it. */
  function EditWrite(e: Protocol.EditReq, src: SourceRead, text: string): WriteReq
    requires src.Source?
  {
    WriteReq(e.doc, text, Some(e.expected.GetOr(src.ver)), e.author, src.row.format, e.opts, false)
  }

  ghost function Edit(env: Env, s: Store, e: Protocol.EditReq, nonce: string, now: string, up: bool): Reply {
    if e.edits == [] then Reply(s, Failed(EditFailed(Edits.NoEdits)))
    else
      var src := ReadSource(s.db, s.r2, e.doc, None);
      if src.NoSource? then Reply(s, Failed(src.err))
      else if e.expected.Some? && e.expected.value != src.ver then
        Reply(s, Failed(VersionConflict(src.ver, e.expected.value)))
      else
        match Edits.Apply(src.text, e.edits, e.replaceAll)
        case Edited(text, n) =>
          var r := Update(env, s, EditWrite(e, src, text), nonce, now, up);
          if r.out.Written? then r.(out := Written(r.out.ok, n)) else r
        case why => Reply(s, Failed(EditFailed(why)))
  }

  function RestoreWrite(doc: string, author: Author, src: SourceRead): WriteReq
    requires src.Source?
  {
    WriteReq(doc, src.text, None, author, src.row.format, Protocol.RestoreOpts(src.row), false)
  }

  ghost function Restore(env: Env, s: Store, doc: string, from: nat, author: Author, nonce: string, now: string, up: bool): Reply {
    var src := ReadSource(s.db, s.r2, doc, Some(from));
    if src.NoSource? then Reply(s, Failed(src.err))
    else Update(env, s, RestoreWrite(doc, author, src), nonce, now, up)
  }

  // ---- slugs and classification ----------------------------------------------

  predicate IsLive(db: Db, doc: string) { doc in db.docs && db.docs[doc].Live() }

  function WithDoc(s: Store, doc: string, row: Doc): Store {
    s.(db := UpdateDoc(s.db, doc, row))
  }

  function ChangeSlug(env: Env, s: Store, doc: string, input: string, now: string, up: bool): Reply {
    if !IsLive(s.db, doc) then Reply(s, Failed(NotFound))
    else
      var d := s.db.docs[doc];
      match ResolveSlug(env, s.db, Some(input), d.slug, Some(doc), false)
      case SlugErr(err) => Reply(s, Failed(err))
      case SlugOk(action) =>
        if action.Keep? then Reply(s, SlugSet(action.slug, None, false))
        else if !up then Reply(s, Failed(Thrown))
        else
          Reply(s.(db := Db(s.db.docs[doc := d.(slug := action.After())], s.db.vers,
                            TombsAfter(s.db.tombs, doc, d.publicId, action, now))),
                SlugSet(action.After(), d.slug, action.Claim? && d.slug.Some?))
  }

  /** Going public publishes what is current unless a version is already chosen. */
  function SetVisibility(s: Store, doc: string, v: Visibility): Reply {
    if !IsLive(s.db, doc) then Reply(s, Failed(NotFound))
    else
      var d := s.db.docs[doc];
      var published := if v.Public? && d.published.None? then d.current else d.published;
      Reply(WithDoc(s, doc, d.(visibility := v, published := published)), Done)
  }

  function Promote(s: Store, doc: string, ver: int): Reply {
    if ver < 1 then Reply(s, Failed(VersionNotFound))
    else if !IsLive(s.db, doc) then Reply(s, Failed(NotFound))
    else if VerId(doc, ver) !in s.db.vers then Reply(s, Failed(VersionNotFound))
    else Reply(WithDoc(s, doc, s.db.docs[doc].(published := Some(ver))), Done)
  }

  /** A live document has this public id. */
  predicate LivePublicId(db: Db, publicId: string) {
    exists d :: d in db.docs && db.docs[d].Live() && db.docs[d].publicId == publicId
  }

  /** Only `active` and `deprecated` can be set; a successor counts only when
      deprecating, and must be another live document. */
  function SetStatus(s: Store, doc: string, status: Status, successor: Option<string>): Reply {
    if status.Archived? then Reply(s, InvalidStatus)
    else
      var target := if status.Deprecated? && successor.Some? && successor.value != "" then successor else None;
      if target.Some? && ((doc in s.db.docs && s.db.docs[doc].publicId == target.value) || !LivePublicId(s.db, target.value))
      then Reply(s, BadTarget(target.value))
      else if !IsLive(s.db, doc) then Reply(s, Failed(NotFound))
      else Reply(WithDoc(s, doc, s.db.docs[doc].(status := status, supersededBy := target)), Done)
  }

  function ChangeTags(env: Env, s: Store, doc: string, tags: seq<string>): Reply {
    if !IsLive(s.db, doc) then Reply(s, Failed(NotFound))
    else Reply(WithDoc(s, doc, s.db.docs[doc].(tags := env.cleanTags(tags))), Done)
  }

  function WithTombs(s: Store, tombs: map<string, Tomb>): Store { s.(db := s.db.(tombs := tombs)) }

  function SetRedirect(s: Store, name: string, target: string): Reply {
    if name !in s.db.tombs then Reply(s, TombstoneNotFound)
    else if !LivePublicId(s.db, target) then Reply(s, BadTarget(target))
    else Reply(WithTombs(s, s.db.tombs[name := s.db.tombs[name].(redirect := Some(target))]), Done)
  }

  function ClearRedirect(s: Store, name: string): Reply {
    if name !in s.db.tombs then Reply(s, TombstoneNotFound)
    else Reply(WithTombs(s, s.db.tombs[name := s.db.tombs[name].(redirect := None)]), Done)
  }

  /** The one call that gives a retired name back. */
  function ReleaseTombstone(s: Store, name: string): Reply {
    if name !in s.db.tombs then Reply(s, TombstoneNotFound)
    else Reply(WithTombs(s, s.db.tombs - {name}), Done)
  }

  // ---- revoke ----------------------------------------------------------------

  function Killed(db: Db, doc: string, now: string): Db
    requires doc in db.docs
  {
    var d := db.docs[doc];
    Db(db.docs[doc := d.(revokedAt := Some(now), current := None, published := None, slug := None)], db.vers,
       if d.slug.Some? then RetireIn(db.tombs, d.slug.value, Tomb(Some(doc), now, Revoked, None)) else db.tombs)
  }

  ghost function RowsOf(db: Db, doc: string): set<VerId> { set v | v in db.vers && v.doc == doc }

  /** `gone` are the keys the purge got to before R2 failed, all of them if it
      did not. A document already revoked keeps its row and only purges. */
  ghost function Revoke(s: Store, doc: string, now: string, up: bool, gone: set<Key>, finished: bool): Reply {
    if doc !in s.db.docs then Reply(s, Failed(NotFound))
    else if s.db.docs[doc].Live() && !up then Reply(s, Failed(Thrown))
    else
      var db := if s.db.docs[doc].Live() then Killed(s.db, doc, now) else s.db;
      Reply(s.(db := db, r2 := s.r2 - gone), if finished then Purged(|RowsOf(s.db, doc)|) else Failed(Thrown))
  }

  // ---- runs ------------------------------------------------------------------

  datatype Call =
    | PublishCall(pub: PublishReq, names: Names, now: string, up: bool)
    | UpdateCall(req: WriteReq, nonce: string, now: string, up: bool)
    | EditCall(edit: Protocol.EditReq, nonce: string, now: string, up: bool)
    | RestoreCall(doc: string, from: nat, author: Author, nonce: string, now: string, up: bool)
    | SlugCall(doc: string, input: string, now: string, up: bool)
    | VisibilityCall(doc: string, visibility: Visibility)
    | PromoteCall(doc: string, ver: int)
    | StatusCall(doc: string, status: Status, successor: Option<string>)
    | TagsCall(doc: string, tags: seq<string>)
    | RedirectCall(name: string, target: string)
    | ClearRedirectCall(name: string)
    | ReleaseCall(name: string)
    | RevokeCall(doc: string, now: string, up: bool, gone: set<Key>, finished: bool)

  ghost function Serve(env: Env, s: Store, c: Call): Reply {
    match c
    case PublishCall(pub, names, now, up) => Publish(env, s, pub, names, now, up)
    case UpdateCall(req, nonce, now, up) => Update(env, s, req, nonce, now, up)
    case EditCall(edit, nonce, now, up) => Edit(env, s, edit, nonce, now, up)
    case RestoreCall(doc, from, author, nonce, now, up) => Restore(env, s, doc, from, author, nonce, now, up)
    case SlugCall(doc, input, now, up) => ChangeSlug(env, s, doc, input, now, up)
    case VisibilityCall(doc, v) => SetVisibility(s, doc, v)
    case PromoteCall(doc, ver) => Promote(s, doc, ver)
    case StatusCall(doc, status, successor) => SetStatus(s, doc, status, successor)
    case TagsCall(doc, tags) => ChangeTags(env, s, doc, tags)
    case RedirectCall(name, target) => SetRedirect(s, name, target)
    case ClearRedirectCall(name) => ClearRedirect(s, name)
    case ReleaseCall(name) => ReleaseTombstone(s, name)
    case RevokeCall(doc, now, up, gone, finished) => Revoke(s, doc, now, up, gone, finished)
  }

  /** What the fresh-name supply and R2 promise: names never repeat, and a purge
      that did not fail deleted every key it was given. */
  ghost predicate Supplied(s: Store, c: Call) {
    match c
    case PublishCall(_, names, _, _) =>
      names.nonce !in s.nonces && names.docId !in s.db.docs && !PublicIdHeld(s.db.docs, names.publicId)
    case UpdateCall(_, nonce, _, _) => nonce !in s.nonces
    case EditCall(_, nonce, _, _) => nonce !in s.nonces
    case RestoreCall(_, _, _, nonce, _, _) => nonce !in s.nonces
    case RevokeCall(doc, _, _, gone, finished) =>
      gone <= Protocol.KeysOf(s.db, doc) && (finished ==> gone == Protocol.KeysOf(s.db, doc))
    case _ => true
  }

  ghost predicate Next(env: Env, s: Store, s': Store, c: Call) {
    Supplied(s, c) && s' == Serve(env, s, c).store
  }

  /** A serial run: `calls[i]` takes `states[i]` to `states[i + 1]`. */
  ghost predicate IsRun(env: Env, states: seq<Store>, calls: seq<Call>) {
    && |states| == |calls| + 1
    && forall i | 0 <= i < |calls| :: Next(env, states[i], states[i + 1], calls[i])
  }
}
