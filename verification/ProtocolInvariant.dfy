/** What every interleaving keeps (see Protocol), proved step by step. */
module ProtocolInvariant {
  import opened Records
  import opened D1
  import opened Writes
  import opened Protocol
  import opened MetadataRules
  import Edits

  // ---- the invariant ---------------------------------------------------------

  /** Version rows have no gaps below them and belong to a document. */
  ghost predicate RowsOk(db: Db) {
    && (forall v | v in db.vers :: v.no >= 1 && v.doc in db.docs)
    && (forall v, n: nat | v in db.vers && 1 <= n < v.no :: VerId(v.doc, n) in db.vers)
    && (forall d | d in db.docs :: VerId(d, 1) in db.vers)
  }

  /** A live document's pointers: `current` is the newest row, and a published
      version exists, which a public document must have. */
  ghost predicate PointersOk(db: Db, d: string)
    requires d in db.docs
  {
    var doc := db.docs[d];
    doc.Live() ==>
      && doc.current.Some?
      && VerId(d, doc.current.value) in db.vers
      && VerId(d, doc.current.value + 1) !in db.vers
      && (doc.published.Some? ==> VerId(d, doc.published.value) in db.vers)
      && (doc.visibility.Public? ==> doc.published.Some?)
  }

  ghost predicate DbOk(db: Db) {
    RowsOk(db) && forall d | d in db.docs :: PointersOk(db, d)
  }

  /** A row's own two keys and its digest. */
  predicate RowShaped(v: VerId, row: Version) {
    && row.hKey == Key(v.doc, v.no, row.hKey.nonce, false)
    && row.sKey == Some(Key(v.doc, v.no, row.hKey.nonce, true))
    && row.sha.Some?
  }

  /** The source and render a row stands for. */
  function SourceOf(row: Version): string
    requires row.sha.Some?
  {
    row.sha.value.of
  }

  function HtmlOf(env: Env, row: Version): string
    requires row.sha.Some?
  {
    env.RenderOf(SourceOf(row), row.format)
  }

  /** Whatever object stands under a key is the row's own bytes. */
  ghost predicate NoWrongBlob(env: Env, row: Version, r2: map<Key, string>)
    requires row.sKey.Some? && row.sha.Some?
  {
    && (row.hKey in r2 ==> r2[row.hKey] == HtmlOf(env, row))
    && (row.sKey.value in r2 ==> r2[row.sKey.value] == SourceOf(row))
  }

  ghost predicate BlobsOk(env: Env, s: Sys) {
    forall v | v in s.db.vers ::
      var row := s.db.vers[v];
      && RowShaped(v, row) && row.hKey.nonce in s.nonces
      && NoWrongBlob(env, row, s.r2)
      && (v.doc in s.db.docs && s.db.docs[v.doc].Live() ==> row.Keys() <= s.r2.Keys)
  }

  /** What a row committed for `origin` must hold: what was asked for, and what it
      takes over from the rows that are there. */
  ghost predicate OriginKept(env: Env, db: Db, doc: string, ver: nat, row: Version, origin: Origin)
    requires row.sha.Some?
  {
    match origin
    case Publication(pub) =>
      && ver == 1 && HoldsBody(row, pub.body, pub.format, pub.author)
      && Described(env, HtmlOf(env, row), pub.opts, None, row)
    case UpdateOf(req) =>
      && req.doc == doc && ver >= 1 && VerId(doc, ver - 1) in db.vers && (req.expected.Some? ==> req.expected.value + 1 == ver)
      && HoldsBody(row, req.body, req.format, req.author)
      && Described(env, HtmlOf(env, row), req.opts, Some(db.vers[VerId(doc, ver - 1)]), row)
    case EditOf(e, base) =>
      && e.doc == doc && ver == base + 1 && VerId(doc, base) in db.vers && (e.expected.Some? ==> e.expected.value == base)
      && var before := db.vers[VerId(doc, base)];
      && EditedFrom(before, e, SourceOf(row)) && row.format == before.format && WrittenBy(e.author, row)
      && Described(env, HtmlOf(env, row), e.opts, Some(before), row)
    case RestoreOf(from, author) =>
      && VerId(doc, from) in db.vers
      && var was := db.vers[VerId(doc, from)];
      && was.sha.Some? && HoldsBody(row, SourceOf(was), was.format, author)
      && DescribedAs(env, HtmlOf(env, row), was, row)
  }

  /** The text is the row's source with the edits applied. */
  ghost predicate EditedFrom(before: Version, e: EditReq, text: string) {
    && before.sha.Some?
    && var r := Edits.Apply(SourceOf(before), e.edits, e.replaceAll);
    r.Edited? && r.text == text
  }

  /** What an update handed over by an edit or a restore asks for. */
  ghost predicate ReqKept(db: Db, req: WriteReq, origin: Origin) {
    match origin
    case Publication(_) => false
    case UpdateOf(asked) => req == asked
    case EditOf(e, base) =>
      && req.doc == e.doc && req.expected == Some(base) && (e.expected.Some? ==> e.expected.value == base)
      && VerId(e.doc, base) in db.vers
      && var before := db.vers[VerId(e.doc, base)];
      EditedFrom(before, e, req.body) && req.format == before.format && req.author == e.author && req.opts == e.opts
    case RestoreOf(from, author) =>
      && VerId(req.doc, from) in db.vers
      && var was := db.vers[VerId(req.doc, from)];
      && was.sha.Some? && req.body == SourceOf(was) && req.format == was.format && req.author == author && AsksFor(req.opts, was)
  }

  /** Both texts of a version, a missing one asked for as empty. */
  ghost predicate AsksFor(opts: Opts, was: Version) {
    && opts.title == Some(if was.title.Some? then was.title.value else "")
    && opts.description == Some(if was.description.Some? then was.description.value else "")
  }

  ghost predicate LogOk(env: Env, s: Sys) {
    forall i | 0 <= i < |s.log| ::
      var e := s.log[i];
      && VerId(e.doc, e.ver) in s.db.vers
      && s.db.vers[VerId(e.doc, e.ver)].sha.Some?
      && OriginKept(env, s.db, e.doc, e.ver, s.db.vers[VerId(e.doc, e.ver)], e.origin)
  }

  /** A source key read off a version row. */
  ghost predicate ReadFrom(db: Db, doc: string, ver: nat, sKey: Key, format: Format) {
    VerId(doc, ver) in db.vers && db.vers[VerId(doc, ver)].sKey == Some(sKey) && db.vers[VerId(doc, ver)].format == format
  }

  ghost predicate PlanOk(env: Env, s: Sys, p: Plan, origin: Origin) {
    && Shaped(p)
    && RowShaped(p.Vid(), p.row) && p.row.hKey.nonce in s.nonces
    && p.html == HtmlOf(env, p.row)
    && (forall v | v in s.db.vers :: s.db.vers[v].hKey.nonce != p.row.hKey.nonce)
    && (if p.insert.Some? then
          && p.ver == 1 && origin.Publication? && p.insert.value.Live()
          && (p.insert.value.published.Some? ==> p.insert.value.published == Some(1))
          && (p.insert.value.visibility.Public? ==> p.insert.value.published.Some?)
        else p.ver >= 2 && VerId(p.docId, p.ver - 1) in s.db.vers)
    && OriginKept(env, s.db, p.docId, p.ver, p.row, origin)
  }

  /** The blobs a writer has stored so far are there and right. */
  ghost predicate StoredSoFar(p: Plan, stage: Stage, r2: map<Key, string>)
    requires p.row.sKey.Some? && p.row.sha.Some?
  {
    && (stage.StoreS? || stage.Commit? ==> p.row.hKey in r2 && r2[p.row.hKey] == p.html)
    && (stage.Commit? ==> p.row.sKey.value in r2 && r2[p.row.sKey.value] == SourceOf(p.row))
  }

  ghost predicate Dead(db: Db, doc: string) {
    doc in db.docs && !db.docs[doc].Live()
  }

  ghost predicate RowKeys(db: Db, doc: string, keys: set<Key>) {
    forall k | k in keys :: k.doc == doc && VerId(doc, k.ver) in db.vers && k in db.vers[VerId(doc, k.ver)].Keys()
  }

  ghost predicate OpOk(env: Env, s: Sys, op: Op) {
    match op
    case Updating(req, origin) => ReqKept(s.db, req, origin)
    case Editing(_) => true
    case EditLoaded(e, ver, sKey, format) => ReadFrom(s.db, e.doc, ver, sKey, format)
    case Restoring(_, _, _) => true
    case RestoreLoaded(doc, from, _, sKey, format, opts) =>
      ReadFrom(s.db, doc, from, sKey, format) && AsksFor(opts, s.db.vers[VerId(doc, from)])
    case Writing(p, stage, origin) => PlanOk(env, s, p, origin) && StoredSoFar(p, stage, s.r2)
    case Promoting(doc, ver) => VerId(doc, ver) in s.db.vers
    case Revoking(_) => true
    case RevokeRead(doc, already, _) => doc in s.db.docs && (already ==> Dead(s.db, doc))
    case RevokeKeys(doc, already, _, keys) => doc in s.db.docs && (already ==> Dead(s.db, doc)) && RowKeys(s.db, doc, keys)
    case Purging(doc, keys) => Dead(s.db, doc) && RowKeys(s.db, doc, keys)
  }

  ghost predicate NoncesApart(ops: map<nat, Op>) {
    forall a, b | a in ops && b in ops && a != b && ops[a].Writing? && ops[b].Writing? ::
      ops[a].plan.row.hKey.nonce != ops[b].plan.row.hKey.nonce
  }

  ghost predicate OpsOk(env: Env, s: Sys) {
    NoncesApart(s.ops) && forall o | o in s.ops :: OpOk(env, s, s.ops[o])
  }

  ghost predicate Inv(env: Env, s: Sys) {
    DbOk(s.db) && BlobsOk(env, s) && LogOk(env, s) && OpsOk(env, s)
  }

  // ---- framing ---------------------------------------------------------------

  /** What no step ever undoes: rows, documents and revocations stay. */
  ghost predicate Extends(db: Db, db': Db) {
    && (forall v | v in db.vers :: v in db'.vers && db'.vers[v] == db.vers[v])
    && (forall d | d in db.docs :: d in db'.docs && (!db.docs[d].Live() ==> !db'.docs[d].Live()))
  }

  lemma OriginKeptOn(env: Env, db: Db, db': Db, doc: string, ver: nat, row: Version, origin: Origin)
    requires Extends(db, db') && row.sha.Some? && OriginKept(env, db, doc, ver, row, origin)
    ensures OriginKept(env, db', doc, ver, row, origin)
  {
    hide EditedFrom, Described, DescribedAs, HoldsBody, WrittenBy, HtmlOf;
  }

  lemma ReqKeptOn(db: Db, db': Db, req: WriteReq, origin: Origin)
    requires Extends(db, db') && ReqKept(db, req, origin)
    ensures ReqKept(db', req, origin)
  {
    hide EditedFrom, AsksFor;
  }

  /** An idle request's facts survive any step that keeps rows, leaves its blobs
      alone and commits no row under its nonce. */
  lemma OpFrame(env: Env, s: Sys, s': Sys, op: Op)
    requires OpOk(env, s, op) && Extends(s.db, s'.db) && s.nonces <= s'.nonces
    requires op.Writing? ==>
      && (forall v | v in s'.db.vers :: s'.db.vers[v].hKey.nonce != op.plan.row.hKey.nonce)
      && (forall k | k in op.plan.row.Keys() && k in s.r2 :: k in s'.r2 && s'.r2[k] == s.r2[k])
    ensures OpOk(env, s', op)
  {
    hide EditedFrom, HtmlOf, OriginKept, ReqKept, AsksFor;
    match op
    case Updating(req, origin) => ReqKeptOn(s.db, s'.db, req, origin);
    case Writing(p, stage, origin) => OriginKeptOn(env, s.db, s'.db, p.docId, p.ver, p.row, origin);
    case _ =>
  }

  lemma LogFrame(env: Env, s: Sys, s': Sys)
    requires LogOk(env, s) && Extends(s.db, s'.db) && s'.log == s.log
    ensures LogOk(env, s')
  {
    hide OriginKept;
    forall i | 0 <= i < |s'.log|
      ensures
        var e := s'.log[i];
        && VerId(e.doc, e.ver) in s'.db.vers
        && s'.db.vers[VerId(e.doc, e.ver)].sha.Some?
        && OriginKept(env, s'.db, e.doc, e.ver, s'.db.vers[VerId(e.doc, e.ver)], e.origin)
    {
      var e := s.log[i];
      var row := s.db.vers[VerId(e.doc, e.ver)];
      OriginKeptOn(env, s.db, s'.db, e.doc, e.ver, row, e.origin);
    }
  }

  /** A step on requests alone: `next` replaces request `op`, or `op` ends. */
  lemma OpsOnly(env: Env, s: Sys, s': Sys, op: nat)
    requires Inv(env, s)
    requires s'.db == s.db && s'.r2 == s.r2 && s'.log == s.log && s.nonces <= s'.nonces
    requires s'.ops.Keys <= s.ops.Keys + {op}
    requires forall o | o in s'.ops && o != op :: s'.ops[o] == s.ops[o]
    requires op in s'.ops ==> OpOk(env, s', s'.ops[op])
    requires op in s'.ops && s'.ops[op].Writing? ==>
      (forall o | o in s.ops && o != op && s.ops[o].Writing? ::
        s.ops[o].plan.row.hKey.nonce != s'.ops[op].plan.row.hKey.nonce)
    ensures Inv(env, s')
  {
    hide DbOk, OpOk;
    LogFrame(env, s, s');
    BlobsSame(env, s, s');
    forall o | o in s'.ops
      ensures OpOk(env, s', s'.ops[o])
    {
      if o != op {
        var x := s.ops[o];
        assert OpOk(env, s, x);
        WritersNonce(env, s, x);
        OpFrame(env, s, s', x);
      }
    }
  }

  lemma WritersNonce(env: Env, s: Sys, op: Op)
    requires OpOk(env, s, op)
    ensures op.Writing? ==> op.plan.row.sKey.Some? && op.plan.row.sha.Some? && op.plan.row.hKey.nonce in s.nonces
    ensures op.Writing? ==> forall v | v in s.db.vers :: s.db.vers[v].hKey.nonce != op.plan.row.hKey.nonce
  {
  }

  lemma BlobsSame(env: Env, s: Sys, s': Sys)
    requires BlobsOk(env, s) && s'.db == s.db && s'.r2 == s.r2 && s.nonces <= s'.nonces
    ensures BlobsOk(env, s')
  {
  }
}
