/** Each step of the protocol keeps the invariant. */
module ProtocolSteps {
  import opened Records
  import opened D1
  import opened Writes
  import opened Protocol
  import opened ProtocolInvariant
  import opened MetadataRules
  import Edits

  lemma StartOk(env: Env)
    ensures Inv(env, START)
  {
  }

  // ---- decisions -------------------------------------------------------------

  lemma PublishPlan(env: Env, req: PublishReq, used: nat, claim: SlugResult, names: Names, now: string)
    requires DecidePublish(env, req, used, claim, names, now).Write?
    ensures
      var p := DecidePublish(env, req, used, claim, names, now).plan;
      && p.insert.Some? && p.ver == 1 && p.docId == names.docId && p.publicId == names.publicId && Shaped(p)
      && RowShaped(p.Vid(), p.row) && p.row.hKey.nonce == names.nonce
      && p.html == HtmlOf(env, p.row) && SourceOf(p.row) == req.body && p.row.format == req.format
      && p.insert.value.Live()
      && p.insert.value.published == (if p.insert.value.visibility.Public? then Some(1) else None)
      && HoldsBody(p.row, req.body, req.format, req.author) && Described(env, p.html, req.opts, None, p.row)
  {
    hide ResolveMetadata, Described, HoldsBody, Utf8Size;
    var s := ScreenAndPrepare(env, req.body, req.format);
    PassedIs(env, req.body, req.format);
    NewRowIsDescribed(env, s.prep, names.docId, 1, names.nonce, req.opts, None, req.author, now);
    hide ScreenAndPrepare;
  }

  lemma UpdatePlan(env: Env, view: View, req: WriteReq, used: nat, claim: SlugResult, nonce: string, now: string)
    requires DecideUpdate(env, view, req, used, claim, nonce, now).Write?
    ensures
      var p := DecideUpdate(env, view, req, used, claim, nonce, now).plan;
      && p.insert.None? && p.docId == view.id && p.ver == view.current + 1
      && (req.expected.Some? ==> req.expected.value == view.current)
      && RowShaped(p.Vid(), p.row) && p.row.hKey.nonce == nonce
      && p.html == HtmlOf(env, p.row) && SourceOf(p.row) == req.body && p.row.format == req.format
      && HoldsBody(p.row, req.body, req.format, req.author)
      && (view.prior.Some? ==> Described(env, p.html, req.opts, view.prior, p.row))
  {
    hide ResolveMetadata, SameContent, Described, HoldsBody, Utf8Size;
    var s := ScreenAndPrepare(env, req.body, req.format);
    PassedIs(env, req.body, req.format);
    if view.prior.Some? {
      NewRowIsDescribed(env, s.prep, view.id, view.current + 1, nonce, req.opts, view.prior, req.author, now);
    } else {
      PlainRow(env, s.prep, view.id, view.current + 1, nonce, ResolveMetadata(env, s.prep.html, req.opts, Some(Meta(None, None))), req.author, now);
    }
    hide ScreenAndPrepare;
  }

  lemma PlainRow(env: Env, prep: Prep, docId: string, ver: nat, nonce: string, meta: Meta, author: Author, now: string)
    ensures HoldsBody(NewRow(env, prep, docId, ver, nonce, meta, author, now), prep.source, prep.format, author)
  {
    hide Utf8Size;
  }

  // ---- steps that touch requests only ----------------------------------------

  lemma PublishKeeps(env: Env, s: Sys, a: Action)
    requires Inv(env, s) && a.Publish?
    ensures Inv(env, StepPublish(env, s, a))
  {
    hide Inv, DecidePublish;
    var s' := StepPublish(env, s, a);
    if a.op !in s.ops && a.names.nonce !in s.nonces {
      var d := DecidePublish(env, a.pub, a.used, a.claim, a.names, a.now);
      if d.Write? {
        PublishPlan(env, a.pub, a.used, a.claim, a.names, a.now);
        NewWriter(env, s, s', a.op, d.plan, Publication(a.pub), a.names.nonce);
      }
    }
  }

  lemma NewWriter(env: Env, s: Sys, s': Sys, op: nat, p: Plan, origin: Origin, nonce: string)
    requires Inv(env, s) && nonce !in s.nonces
    requires s' == Become(s, op, Writing(p, StoreH, origin)).(nonces := s.nonces + {nonce})
    requires Shaped(p) && RowShaped(p.Vid(), p.row) && p.row.hKey.nonce == nonce && p.html == HtmlOf(env, p.row)
    requires if p.insert.Some? then
               && p.ver == 1 && origin.Publication? && p.insert.value.Live()
               && p.insert.value.published == (if p.insert.value.visibility.Public? then Some(1) else None)
             else p.ver >= 2 && VerId(p.docId, p.ver - 1) in s.db.vers
    requires OriginKept(env, s.db, p.docId, p.ver, p.row, origin)
    ensures Inv(env, s')
  {
    hide OriginKept, HtmlOf, DbOk, LogOk;
    forall o | o in s.ops && s.ops[o].Writing?
      ensures s.ops[o].plan.row.hKey.nonce != nonce
    {
      assert OpOk(env, s, s.ops[o]);
    }
    assert OpOk(env, s', s'.ops[op]);
    OpsOnly(env, s, s', op);
  }

  lemma ReadRowKeeps(env: Env, s: Sys, a: Action)
    requires Inv(env, s) && a.ReadRow?
    ensures Inv(env, StepReadRow(env, s, a))
  {
    hide Inv, DecideUpdate, LoadView, OriginKept;
    var s' := StepReadRow(env, s, a);
    if a.op in s.ops && s.ops[a.op].Updating? && a.nonce !in s.nonces {
      var o := s.ops[a.op];
      FinishKeeps(env, s, a.op);
      var view := LoadView(s.db, o.req.doc);
      if view.Some? {
        LiveView(env, s, o.req.doc);
        var d := DecideUpdate(env, view.value, o.req, a.used, a.claim, a.nonce, a.now);
        if d.Write? {
          UpdatePlan(env, view.value, o.req, a.used, a.claim, a.nonce, a.now);
          UpdaterOrigin(env, s, a.op, view.value.current, d.plan.row);
          NewWriter(env, s, s', a.op, d.plan, o.origin, a.nonce);
        }
      }
    }
  }

  lemma LiveView(env: Env, s: Sys, doc: string)
    requires Inv(env, s) && LoadView(s.db, doc).Some?
    ensures
      var view := LoadView(s.db, doc).value;
      view.id == doc && view.current >= 1 && VerId(doc, view.current) in s.db.vers
      && doc in s.db.docs && s.db.docs[doc].Live() && s.db.docs[doc].current == Some(view.current)
      && view.prior == Some(s.db.vers[VerId(doc, view.current)])
  {
    hide BlobsOk, LogOk, OpsOk;
    assert PointersOk(s.db, doc);
  }

  lemma UpdaterOrigin(env: Env, s: Sys, op: nat, current: nat, row: Version)
    requires Inv(env, s) && op in s.ops && s.ops[op].Updating?
    requires s.ops[op].req.expected.Some? ==> s.ops[op].req.expected.value == current
    requires VerId(s.ops[op].req.doc, current) in s.db.vers && row.sha.Some?
    requires
      var req := s.ops[op].req;
      && HoldsBody(row, req.body, req.format, req.author)
      && Described(env, HtmlOf(env, row), req.opts, Some(s.db.vers[VerId(req.doc, current)]), row)
    ensures OriginKept(env, s.db, s.ops[op].req.doc, current + 1, row, s.ops[op].origin)
  {
    hide Described, DescribedAs, HtmlOf, Inv, EditedFrom;
    OpAt(env, s, op);
    var req, origin := s.ops[op].req, s.ops[op].origin;
    if origin.RestoreOf? {
      AskedToRestore(env, HtmlOf(env, row), req.opts, Some(s.db.vers[VerId(req.doc, current)]), s.db.vers[VerId(req.doc, origin.from)], row);
    }
  }

  lemma FinishKeeps(env: Env, s: Sys, op: nat)
    requires Inv(env, s)
    ensures Inv(env, Finish(s, op))
  {
    OpsOnly(env, s, Finish(s, op), op);
  }

  /** A request that holds no plan may always be entered. */
  lemma BecomeKeeps(env: Env, s: Sys, op: nat, next: Op)
    requires Inv(env, s) && !next.Writing? && OpOk(env, Become(s, op, next), next)
    ensures Inv(env, Become(s, op, next))
  {
    hide Inv, OpOk;
    OpsOnly(env, s, Become(s, op, next), op);
  }

  lemma ReadVersionKeeps(env: Env, s: Sys, op: nat)
    requires Inv(env, s)
    ensures Inv(env, StepReadVersion(s, op))
  {
    hide Inv;
    var s' := StepReadVersion(s, op);
    FinishKeeps(env, s, op);
    if op in s'.ops && s' != s {
      BecomeKeeps(env, s, op, s'.ops[op]);
    }
  }

  /** A source blob read for a version is that version's source. */
  lemma FetchedIsSource(env: Env, s: Sys, doc: string, ver: nat, sKey: Key, format: Format)
    requires Inv(env, s) && ReadFrom(s.db, doc, ver, sKey, format) && sKey in s.r2
    ensures s.db.vers[VerId(doc, ver)].sha.Some? && s.r2[sKey] == SourceOf(s.db.vers[VerId(doc, ver)])
  {
    hide DbOk, LogOk, OpsOk;
  }

  lemma FetchSourceKeeps(env: Env, s: Sys, op: nat)
    requires Inv(env, s)
    ensures Inv(env, StepFetchSource(s, op))
  {
    hide Inv, Edits.Apply;
    var s' := StepFetchSource(s, op);
    FinishKeeps(env, s, op);
    if op in s.ops && (s.ops[op].EditLoaded? || s.ops[op].RestoreLoaded?) && s.ops[op].sKey in s.r2 {
      var o := s.ops[op];
      OpAt(env, s, op);
      var doc, ver := if o.EditLoaded? then o.edit.doc else o.doc, if o.EditLoaded? then o.ver else o.from;
      FetchedIsSource(env, s, doc, ver, o.sKey, o.format);
      if op in s'.ops {
        BecomeKeeps(env, s, op, s'.ops[op]);
      }
    }
  }

  lemma OpAt(env: Env, s: Sys, op: nat)
    requires Inv(env, s) && op in s.ops
    ensures OpOk(env, s, s.ops[op])
  {
  }

  lemma ReadRevokeKeeps(env: Env, s: Sys, op: nat)
    requires Inv(env, s)
    ensures Inv(env, StepReadRevoke(s, op))
  {
    hide Inv;
    var s' := StepReadRevoke(s, op);
    FinishKeeps(env, s, op);
    if op in s'.ops && s' != s {
      BecomeKeeps(env, s, op, s'.ops[op]);
    }
  }

  lemma KeysOfAreRowKeys(db: Db, doc: string)
    requires forall v | v in db.vers :: RowShaped(v, db.vers[v])
    ensures RowKeys(db, doc, KeysOf(db, doc))
  {
    forall k | k in KeysOf(db, doc)
      ensures k.doc == doc && VerId(doc, k.ver) in db.vers && k in db.vers[VerId(doc, k.ver)].Keys()
    {
      var v :| v in db.vers && v.doc == doc && k in db.vers[v].Keys();
      assert RowShaped(v, db.vers[v]);
      assert VerId(doc, k.ver) == v;
    }
  }

  lemma RowsShaped(env: Env, s: Sys)
    requires Inv(env, s)
    ensures forall v | v in s.db.vers :: RowShaped(v, s.db.vers[v])
  {
    hide DbOk, LogOk, OpsOk, NoWrongBlob, RowShaped;
  }

  lemma ReadKeysKeeps(env: Env, s: Sys, op: nat)
    requires Inv(env, s)
    ensures Inv(env, StepReadKeys(s, op))
  {
    hide Inv, KeysOf, RowKeys, RowShaped;
    if op in s.ops && s.ops[op].RevokeRead? {
      OpAt(env, s, op);
      RowsShaped(env, s);
      KeysOfAreRowKeys(s.db, s.ops[op].doc);
      BecomeKeeps(env, s, op, StepReadKeys(s, op).ops[op]);
    }
  }

  // ---- steps on blobs --------------------------------------------------------

  /** The objects under every other nonce are as they were. */
  ghost predicate SameElsewhere(s: Sys, s': Sys, nonce: string) {
    forall k: Key | k.nonce != nonce :: (k in s.r2 <==> k in s'.r2) && (k in s.r2 ==> s'.r2[k] == s.r2[k])
  }

  /** Objects under one writer's nonce may come and go: no row and no other
      writer uses it. */
  lemma BlobsUnderNonce(env: Env, s: Sys, s': Sys, op: nat, nonce: string)
    requires Inv(env, s) && op in s.ops && s.ops[op].Writing? && s.ops[op].plan.row.hKey.nonce == nonce
    requires s'.db == s.db && s'.log == s.log && s'.nonces == s.nonces
    requires SameElsewhere(s, s', nonce)
    requires s'.ops.Keys <= s.ops.Keys
    requires forall o | o in s'.ops && o != op :: s'.ops[o] == s.ops[o]
    requires op in s'.ops ==> OpOk(env, s', s'.ops[op]) && s'.ops[op].Writing? && s'.ops[op].plan == s.ops[op].plan
    ensures Inv(env, s')
  {
    hide Inv, DbOk, LogOk, BlobsOk, OpsOk, OpOk, SameElsewhere;
    InvParts(env, s);
    OpAt(env, s, op);
    LogFrame(env, s, s');
    RowsElsewhere(env, s, s', op, nonce);
    OpsElsewhere(env, s, s', op, nonce);
    PartsInv(env, s');
  }

  lemma RowsElsewhere(env: Env, s: Sys, s': Sys, op: nat, nonce: string)
    requires BlobsOk(env, s) && op in s.ops && s.ops[op].Writing? && s.ops[op].plan.row.hKey.nonce == nonce
    requires OpOk(env, s, s.ops[op]) && s'.db == s.db && s'.nonces == s.nonces && SameElsewhere(s, s', nonce)
    ensures BlobsOk(env, s')
  {
    hide HtmlOf, OriginKept, StoredSoFar;
  }

  lemma OpsElsewhere(env: Env, s: Sys, s': Sys, op: nat, nonce: string)
    requires OpsOk(env, s) && op in s.ops && s.ops[op].Writing? && s.ops[op].plan.row.hKey.nonce == nonce
    requires s'.db == s.db && s'.nonces == s.nonces && SameElsewhere(s, s', nonce)
    requires s'.ops.Keys <= s.ops.Keys
    requires forall o | o in s'.ops && o != op :: s'.ops[o] == s.ops[o]
    requires op in s'.ops ==> OpOk(env, s', s'.ops[op]) && s'.ops[op].Writing? && s'.ops[op].plan == s.ops[op].plan
    ensures OpsOk(env, s')
  {
    hide OpOk;
    forall o | o in s'.ops
      ensures OpOk(env, s', s'.ops[o])
    {
      if o != op {
        OpElsewhere(env, s, s', s.ops[o], nonce);
      }
    }
  }

  lemma OpElsewhere(env: Env, s: Sys, s': Sys, op: Op, nonce: string)
    requires OpOk(env, s, op) && s'.db == s.db && s'.nonces == s.nonces && SameElsewhere(s, s', nonce)
    requires op.Writing? ==> op.plan.row.hKey.nonce != nonce
    ensures OpOk(env, s', op)
  {
    hide HtmlOf, OriginKept, StoredSoFar;
    OpFrame(env, s, s', op);
  }

  lemma PutBlobKeeps(env: Env, s: Sys, op: nat)
    requires Inv(env, s)
    ensures Inv(env, StepPutBlob(s, op))
  {
    hide Inv, HtmlOf, PlanOk;
    var s' := StepPutBlob(s, op);
    if s' != s {
      OpAt(env, s, op);
      var p := s.ops[op].plan;
      assert PlanOk(env, s, p, s.ops[op].origin);
      assert RowShaped(p.Vid(), p.row) by { PlanRow(env, s, p, s.ops[op].origin); }
      assert PlanOk(env, s', p, s.ops[op].origin) by { PlanSame(env, s, s', p, s.ops[op].origin); }
      BlobsUnderNonce(env, s, s', op, p.row.hKey.nonce);
    }
  }

  lemma PlanRow(env: Env, s: Sys, p: Plan, origin: Origin)
    requires PlanOk(env, s, p, origin)
    ensures RowShaped(p.Vid(), p.row)
  {
  }

  lemma PlanSame(env: Env, s: Sys, s': Sys, p: Plan, origin: Origin)
    requires PlanOk(env, s, p, origin) && s'.db == s.db && s'.nonces == s.nonces
    ensures PlanOk(env, s', p, origin)
  {
    hide OriginKept, HtmlOf;
  }

  lemma DeleteBlobsKeeps(env: Env, s: Sys, op: nat, up: bool)
    requires Inv(env, s)
    ensures Inv(env, StepDeleteBlobs(s, op, up))
  {
    hide Inv, HtmlOf, PlanOk;
    var s' := StepDeleteBlobs(s, op, up);
    FinishKeeps(env, s, op);
    if op in s.ops && s.ops[op].Writing? && s.ops[op].stage.Rollback? && up {
      OpAt(env, s, op);
      var p := s.ops[op].plan;
      PlanRow(env, s, p, s.ops[op].origin);
      BlobsUnderNonce(env, s, s', op, p.row.hKey.nonce);
    }
  }

  lemma PurgeChunkKeeps(env: Env, s: Sys, op: nat, chunk: set<Key>)
    requires Inv(env, s)
    ensures Inv(env, StepPurgeChunk(s, op, chunk))
  {
    hide Inv;
    var s' := StepPurgeChunk(s, op, chunk);
    if s' != s {
      OpAt(env, s, op);
      PurgedBlobs(env, s, s', s.ops[op].doc, chunk);
      PurgedOps(env, s, s', op, s.ops[op].doc, chunk);
      InvParts(env, s);
      LogFrame(env, s, s');
      PartsInv(env, s');
    }
  }

  lemma InvParts(env: Env, s: Sys)
    requires Inv(env, s)
    ensures DbOk(s.db) && BlobsOk(env, s) && LogOk(env, s) && OpsOk(env, s)
  {
  }

  lemma PartsInv(env: Env, s: Sys)
    requires DbOk(s.db) && BlobsOk(env, s) && LogOk(env, s) && OpsOk(env, s)
    ensures Inv(env, s)
  {
  }

  lemma PurgedBlobs(env: Env, s: Sys, s': Sys, doc: string, chunk: set<Key>)
    requires Inv(env, s) && Dead(s.db, doc) && RowKeys(s.db, doc, chunk)
    requires s'.db == s.db && s'.nonces == s.nonces && s'.r2 == s.r2 - chunk
    ensures BlobsOk(env, s')
  {
    hide DbOk, LogOk, OpsOk, HtmlOf;
  }

  lemma PurgedOps(env: Env, s: Sys, s': Sys, op: nat, doc: string, chunk: set<Key>)
    requires Inv(env, s) && op in s.ops && s.ops[op].Purging? && s.ops[op].doc == doc
    requires RowKeys(s.db, doc, chunk) && chunk <= s.ops[op].keys
    requires s'.db == s.db && s'.nonces == s.nonces && s'.r2 == s.r2 - chunk
    requires s'.ops.Keys <= s.ops.Keys && forall o | o in s'.ops && o != op :: s'.ops[o] == s.ops[o]
    requires op in s'.ops ==> s'.ops[op] == Purging(doc, s.ops[op].keys - chunk)
    ensures OpsOk(env, s')
  {
    hide DbOk, LogOk, HtmlOf;
    forall o | o in s'.ops
      ensures OpOk(env, s', s'.ops[o])
    {
      assert OpOk(env, s, s.ops[o]);
      if o != op {
        if s.ops[o].Writing? {
          NotAmongRowKeys(env, s, s.ops[o], doc, chunk);
        }
        OpFrame(env, s, s', s.ops[o]);
      }
    }
  }

  /** A purge deletes keys of stored rows; a writer's keys are not among them. */
  lemma NotAmongRowKeys(env: Env, s: Sys, op: Op, doc: string, chunk: set<Key>)
    requires BlobsOk(env, s) && op.Writing? && OpOk(env, s, op) && RowKeys(s.db, doc, chunk)
    ensures op.plan.row.Keys() !! chunk
  {
    hide OriginKept, HtmlOf, NoWrongBlob;
    forall k | k in chunk
      ensures k !in op.plan.row.Keys()
    {
      var v := VerId(doc, k.ver);
      assert RowShaped(v, s.db.vers[v]);
    }
  }

  // ---- steps on rows and pointers --------------------------------------------

  /** Rows below a row exist. */
  lemma DownClosed(db: Db, doc: string, n: nat, m: nat)
    requires RowsOk(db) && VerId(doc, n) in db.vers && 1 <= m <= n
    ensures VerId(doc, m) in db.vers
  {
    assert VerId(doc, n).no == n;
  }

  /** The primary key is a compare-and-swap: on a live document the row a writer
      would insert is free exactly while the version it read is still current. */
  lemma PrimaryKeyIsCas(db: Db, doc: string, base: nat)
    requires DbOk(db) && doc in db.docs && db.docs[doc].Live() && VerId(doc, base) in db.vers
    ensures VerId(doc, base + 1) !in db.vers <==> db.docs[doc].current == Some(base)
  {
    assert PointersOk(db, doc);
    var c := db.docs[doc].current.value;
    assert VerId(doc, c).no == c && VerId(doc, base).no == base;
  }

  /** What a plan's checks say about the tables alone. */
  ghost predicate FitsDb(db: Db, p: Plan) {
    && Accepts(db, p)
    && (if p.insert.Some? then
          && p.ver == 1
          && (p.insert.value.published.Some? ==> p.insert.value.published == Some(1))
          && (p.insert.value.visibility.Public? ==> p.insert.value.published.Some?)
        else p.ver >= 2 && VerId(p.docId, p.ver - 1) in db.vers)
  }

  lemma CommitRows(db: Db, p: Plan)
    requires RowsOk(db) && FitsDb(db, p)
    ensures RowsOk(Committed(db, p))
  {
    hide SlugHeld, PublicIdHeld, TombsAfter;
    var db' := Committed(db, p);
    assert db'.vers.Keys == db.vers.Keys + {p.Vid()} && db'.docs.Keys == db.docs.Keys + {p.docId};
  }

  lemma CommitPointers(db: Db, p: Plan, d: string)
    requires DbOk(db) && FitsDb(db, p) && d in Committed(db, p).docs
    ensures PointersOk(Committed(db, p), d)
  {
    hide SlugHeld, PublicIdHeld, TombsAfter, PointersOk, RowsOk;
    var db' := Committed(db, p);
    if d == p.docId {
      NoRowAbove(db, p);
      if p.insert.None? { assert PointersOk(db, d); }
      PointersAfterCommit(db, p);
    } else {
      assert PointersOk(db, d);
      PointersElsewhere(db, db', p.Vid(), d);
    }
  }

  lemma NoRowAbove(db: Db, p: Plan)
    requires RowsOk(db) && FitsDb(db, p)
    ensures VerId(p.docId, p.ver + 1) !in db.vers
  {
    hide SlugHeld, PublicIdHeld;
    assert VerId(p.docId, p.ver + 1).no > 1;
  }

  lemma PointersAfterCommit(db: Db, p: Plan)
    requires FitsDb(db, p) && VerId(p.docId, p.ver + 1) !in db.vers
    requires p.insert.None? ==> PointersOk(db, p.docId)
    ensures PointersOk(Committed(db, p), p.docId)
  {
    hide SlugHeld, PublicIdHeld, TombsAfter;
  }

  lemma PointersElsewhere(db: Db, db': Db, vid: VerId, d: string)
    requires d in db.docs && d in db'.docs && db.docs[d] == db'.docs[d] && d != vid.doc
    requires db'.vers.Keys == db.vers.Keys + {vid} && PointersOk(db, d)
    ensures PointersOk(db', d)
  {
  }

  lemma CommitDb(env: Env, s: Sys, p: Plan, origin: Origin)
    requires Inv(env, s) && PlanOk(env, s, p, origin) && Accepts(s.db, p)
    ensures DbOk(Committed(s.db, p)) && Extends(s.db, Committed(s.db, p))
  {
    hide OriginKept, HtmlOf, BlobsOk, LogOk, OpsOk, SlugHeld, PublicIdHeld, TombsAfter, PointersOk, RowsOk;
    CommitRows(s.db, p);
    var db' := Committed(s.db, p);
    forall d | d in db'.docs
      ensures PointersOk(db', d)
    {
      CommitPointers(s.db, p, d);
    }
  }

  lemma CommitBlobs(env: Env, s: Sys, s': Sys, op: nat)
    requires Inv(env, s) && op in s.ops && s.ops[op].Writing? && s.ops[op].stage.Commit?
    requires Accepts(s.db, s.ops[op].plan) && s'.db == Committed(s.db, s.ops[op].plan)
    requires s'.r2 == s.r2 && s'.nonces == s.nonces
    requires Extends(s.db, s'.db)
    ensures BlobsOk(env, s')
  {
    hide OriginKept, HtmlOf, DbOk, LogOk, Accepts, TombsAfter;
    assert OpOk(env, s, s.ops[op]);
    var p := s.ops[op].plan;
    assert s'.db.vers == s.db.vers[p.Vid() := p.row];
    assert forall d | d in s'.db.docs && d != p.docId :: d in s.db.docs && s'.db.docs[d] == s.db.docs[d];
    forall v | v in s'.db.vers
      ensures
        var row := s'.db.vers[v];
        && RowShaped(v, row) && row.hKey.nonce in s'.nonces
        && NoWrongBlob(env, row, s'.r2)
        && (v.doc in s'.db.docs && s'.db.docs[v.doc].Live() ==> row.Keys() <= s'.r2.Keys)
    {
      if v != p.Vid() {
        assert RowShaped(v, s.db.vers[v]);
        RowHasDoc(env, s, v);
      }
    }
  }

  lemma RowHasDoc(env: Env, s: Sys, v: VerId)
    requires Inv(env, s) && v in s.db.vers
    ensures v.doc in s.db.docs
  {
  }

  lemma CommitOps(env: Env, s: Sys, s': Sys, op: nat)
    requires Inv(env, s) && op in s.ops && s.ops[op].Writing?
    requires s'.db.vers == s.db.vers[s.ops[op].plan.Vid() := s.ops[op].plan.row]
    requires s'.r2 == s.r2 && s'.nonces == s.nonces && s'.ops == s.ops - {op}
    requires Extends(s.db, s'.db)
    ensures OpsOk(env, s')
  {
    hide HtmlOf, DbOk, LogOk, OriginKept;
    forall o | o in s'.ops
      ensures OpOk(env, s', s'.ops[o])
    {
      assert OpOk(env, s, s.ops[o]);
      OpFrame(env, s, s', s.ops[o]);
    }
  }

  lemma CommitLog(env: Env, s: Sys, s': Sys, op: nat)
    requires Inv(env, s) && op in s.ops && s.ops[op].Writing?
    requires VerId(s.ops[op].plan.docId, s.ops[op].plan.ver) in s'.db.vers
    requires s'.db.vers[s.ops[op].plan.Vid()] == s.ops[op].plan.row
    requires s'.log == s.log + [Event(s.ops[op].plan.docId, s.ops[op].plan.ver, s.ops[op].origin)]
    requires Extends(s.db, s'.db)
    ensures LogOk(env, s')
  {
    hide HtmlOf, DbOk, BlobsOk;
    var p, origin := s.ops[op].plan, s.ops[op].origin;
    assert OpOk(env, s, s.ops[op]);
    LogFrame(env, s, s'.(log := s.log));
    OriginKeptOn(env, s.db, s'.db, p.docId, p.ver, p.row, origin);
    LogAppend(env, s', s.log, Event(p.docId, p.ver, origin));
  }

  lemma LogAppend(env: Env, s: Sys, log: seq<Event>, e: Event)
    requires LogOk(env, s.(log := log)) && s.log == log + [e]
    requires VerId(e.doc, e.ver) in s.db.vers && s.db.vers[VerId(e.doc, e.ver)].sha.Some?
    requires OriginKept(env, s.db, e.doc, e.ver, s.db.vers[VerId(e.doc, e.ver)], e.origin)
    ensures LogOk(env, s)
  {
    hide OriginKept;
    forall i | 0 <= i < |s.log|
      ensures
        var x := s.log[i];
        && VerId(x.doc, x.ver) in s.db.vers
        && s.db.vers[VerId(x.doc, x.ver)].sha.Some?
        && OriginKept(env, s.db, x.doc, x.ver, s.db.vers[VerId(x.doc, x.ver)], x.origin)
    {
      if i < |log| {
        assert s.log[i] == s.(log := log).log[i];
      }
    }
  }

  lemma RunBatchKeeps(env: Env, s: Sys, op: nat, up: bool)
    requires Inv(env, s)
    ensures Inv(env, StepRunBatch(s, op, up))
  {
    hide Inv, PlanOk, Statements, Accepts, Committed, HtmlOf;
    var s' := StepRunBatch(s, op, up);
    if s' != s {
      OpAt(env, s, op);
      var o := s.ops[op];
      var p := o.plan;
      PlanRow(env, s, p, o.origin);
      ShapedPlan(env, s, p, o.origin);
      CommitIsAllOrNothing(s.db, p);
      if up && Accepts(s.db, p) {
        CommitDb(env, s, p, o.origin);
        CommitBlobs(env, s, s', op);
        CommittedVers(s.db, p);
        CommitOps(env, s, s', op);
        CommitLog(env, s, s', op);
        PartsInv(env, s');
      } else {
        PlanSame(env, s, s', p, o.origin);
        BlobsUnderNonce(env, s, s', op, p.row.hKey.nonce);
      }
    }
  }

  lemma ShapedPlan(env: Env, s: Sys, p: Plan, origin: Origin)
    requires PlanOk(env, s, p, origin)
    ensures Shaped(p)
  {
  }

  lemma CommittedVers(db: Db, p: Plan)
    requires Accepts(db, p)
    ensures Committed(db, p).vers == db.vers[p.Vid() := p.row]
  {
  }

  // ---- steps on a document's own columns -------------------------------------

  /** A step that rewrites document columns and keeps every pointer sound. */
  lemma DocsOnly(env: Env, s: Sys, s': Sys)
    requires Inv(env, s)
    requires s'.db.vers == s.db.vers && s'.db.docs.Keys == s.db.docs.Keys
    requires forall d | d in s.db.docs :: PointersOk(s'.db, d)
    requires Extends(s.db, s'.db)
    requires s'.r2 == s.r2 && s'.nonces == s.nonces && s'.log == s.log && s'.ops == s.ops
    ensures Inv(env, s')
  {
    hide HtmlOf, OpOk, PointersOk, LogOk, BlobsOk, RowsOk;
    LogFrame(env, s, s');
    assert RowsOk(s'.db) by { RowsSame(s.db, s'.db); }
    assert BlobsOk(env, s') by { BlobsWithDocs(env, s, s'); }
    forall o | o in s'.ops
      ensures OpOk(env, s', s'.ops[o])
    {
      WritersNonce(env, s, s.ops[o]);
      OpFrame(env, s, s', s.ops[o]);
    }
  }

  lemma RowsSame(db: Db, db': Db)
    requires RowsOk(db) && db'.vers == db.vers && db'.docs.Keys == db.docs.Keys
    ensures RowsOk(db')
  {
  }

  lemma BlobsWithDocs(env: Env, s: Sys, s': Sys)
    requires BlobsOk(env, s) && Extends(s.db, s'.db) && s'.db.vers == s.db.vers && s'.db.docs.Keys == s.db.docs.Keys
    requires s'.r2 == s.r2 && s'.nonces == s.nonces
    ensures BlobsOk(env, s')
  {
    hide RowShaped, NoWrongBlob;
  }

  lemma PublishedKeeps(env: Env, s: Sys, doc: string, ver: nat)
    requires Inv(env, s) && doc in s.db.docs && VerId(doc, ver) in s.db.vers
    ensures Inv(env, s.(db := UpdateDoc(s.db, doc, s.db.docs[doc].(published := Some(ver)))))
  {
    hide BlobsOk, LogOk, OpsOk, RowsOk;
    assert PointersOk(s.db, doc);
    DocsOnly(env, s, s.(db := UpdateDoc(s.db, doc, s.db.docs[doc].(published := Some(ver)))));
  }

  lemma SetPublishedKeeps(env: Env, s: Sys, op: nat)
    requires Inv(env, s)
    ensures Inv(env, StepSetPublished(s, op))
  {
    hide Inv;
    FinishKeeps(env, s, op);
    if op in s.ops && s.ops[op].Promoting? {
      OpAt(env, s, op);
      var doc := s.ops[op].doc;
      if doc in s.db.docs {
        PublishedKeeps(env, Finish(s, op), doc, s.ops[op].ver);
      }
    }
  }

  lemma SetVisibilityKeeps(env: Env, s: Sys, doc: string, v: Visibility)
    requires Inv(env, s)
    ensures Inv(env, StepSetVisibility(s, doc, v))
  {
    hide BlobsOk, LogOk, OpsOk, RowsOk;
    var s' := StepSetVisibility(s, doc, v);
    if doc in s.db.docs && s.db.docs[doc].Live() {
      assert PointersOk(s.db, doc);
      DocsOnly(env, s, s');
    }
  }

  lemma ReclassifyKeeps(env: Env, s: Sys, doc: string, d: Doc)
    requires Inv(env, s) && doc in s.db.docs
    requires d.revokedAt == s.db.docs[doc].revokedAt && d.current == s.db.docs[doc].current
    requires d.published == s.db.docs[doc].published && d.visibility == s.db.docs[doc].visibility
    ensures Inv(env, s.(db := UpdateDoc(s.db, doc, d)))
  {
    hide BlobsOk, LogOk, OpsOk;
    assert PointersOk(s.db, doc);
    DocsOnly(env, s, s.(db := UpdateDoc(s.db, doc, d)));
  }

  lemma RewriteTombsKeeps(env: Env, s: Sys, tombs: map<string, Tomb>)
    requires Inv(env, s)
    ensures Inv(env, s.(db := s.db.(tombs := tombs)))
  {
    hide BlobsOk, LogOk, OpsOk;
    DocsOnly(env, s, s.(db := s.db.(tombs := tombs)));
  }

  lemma KillEffect(db: Db, doc: string, slug: Option<string>, now: string)
    requires doc in db.docs
    ensures Batch(db, KillStatements(doc, slug, now)) == Some(Db(
              db.docs[doc := db.docs[doc].(revokedAt := Some(now), current := None, published := None, slug := None)],
              db.vers,
              if slug.Some? then RetireIn(db.tombs, slug.value, Tomb(Some(doc), now, Revoked, None)) else db.tombs))
  {
    var rest := if slug.Some? then [RetireSlug(slug.value, Tomb(Some(doc), now, Revoked, None))] else [];
    assert KillStatements(doc, slug, now) == [Kill(doc, now)] + rest;
    BatchCons(db, Kill(doc, now), rest);
    if slug.Some? {
      BatchOne(Exec(db, Kill(doc, now)).value, rest[0]);
    }
  }

  lemma KilledDocs(env: Env, s: Sys, doc: string, slug: Option<string>, now: string)
    requires Inv(env, s) && doc in s.db.docs
    ensures
      var db' := Batch(s.db, KillStatements(doc, slug, now));
      && db'.Some? && db'.value.vers == s.db.vers && Dead(db'.value, doc)
      && Inv(env, s.(db := db'.value))
  {
    hide BlobsOk, LogOk, OpsOk, RowsOk, KillStatements;
    KillEffect(s.db, doc, slug, now);
    var s' := s.(db := Batch(s.db, KillStatements(doc, slug, now)).value);
    forall d | d in s.db.docs ensures PointersOk(s'.db, d) {
      assert PointersOk(s.db, d);
    }
    DocsOnly(env, s, s');
  }

  lemma KillBatchKeeps(env: Env, s: Sys, op: nat, now: string, up: bool)
    requires Inv(env, s)
    ensures Inv(env, StepKillBatch(s, op, now, up))
  {
    hide Inv, KillStatements, RowKeys;
    FinishKeeps(env, s, op);
    var s' := StepKillBatch(s, op, now, up);
    if op in s.ops && s.ops[op].RevokeKeys? {
      OpAt(env, s, op);
      var o := s.ops[op];
      if o.already {
        BecomeKeeps(env, s, op, Purging(o.doc, o.keys));
      } else if up {
        KilledDocs(env, s, o.doc, o.slug, now);
        var killed := s.(db := s'.db);
        assert RowKeys(s'.db, o.doc, o.keys) by { RowKeysSame(s.db, s'.db, o.doc, o.keys); }
        assert s' == Become(killed, op, Purging(o.doc, o.keys));
        BecomeKeeps(env, killed, op, Purging(o.doc, o.keys));
      }
    }
  }

  lemma RowKeysSame(db: Db, db': Db, doc: string, keys: set<Key>)
    requires RowKeys(db, doc, keys) && db'.vers == db.vers
    ensures RowKeys(db', doc, keys)
  {
  }

  // ---- all of them -----------------------------------------------------------

  lemma StepKeeps(env: Env, s: Sys, a: Action)
    requires Inv(env, s)
    ensures Inv(env, Step(env, s, a))
  {
    hide Inv, StepPublish, StepReadRow, StepReadVersion, StepFetchSource, StepPutBlob, StepRunBatch, StepDeleteBlobs,
         StepSetPublished, StepLookUpVersion, StepReadRevoke, StepReadKeys, StepKillBatch, StepPurgeChunk, StepSetVisibility;
    match a
    case Publish(_, _, _, _, _, _) => PublishKeeps(env, s, a);
    case BeginUpdate(op, req) => if op !in s.ops { BecomeKeeps(env, s, op, Updating(req, UpdateOf(req))); }
    case BeginEdit(op, edit) => if op !in s.ops { BecomeKeeps(env, s, op, Editing(edit)); }
    case BeginRestore(op, doc, from, author) => if op !in s.ops { BecomeKeeps(env, s, op, Restoring(doc, from, author)); }
    case BeginRevoke(op, doc) => if op !in s.ops { BecomeKeeps(env, s, op, Revoking(doc)); }
    case LookUpVersion(op, doc, ver) => LookUpVersionKeeps(env, s, op, doc, ver);
    case ReadRow(_, _, _, _, _) => ReadRowKeeps(env, s, a);
    case ReadVersion(op) => ReadVersionKeeps(env, s, op);
    case FetchSource(op) => FetchSourceKeeps(env, s, op);
    case PutBlob(op) => PutBlobKeeps(env, s, op);
    case RunBatch(op, up) => RunBatchKeeps(env, s, op, up);
    case DeleteBlobs(op, up) => DeleteBlobsKeeps(env, s, op, up);
    case SetPublished(op) => SetPublishedKeeps(env, s, op);
    case ReadRevoke(op) => ReadRevokeKeeps(env, s, op);
    case ReadKeys(op) => ReadKeysKeeps(env, s, op);
    case KillBatch(op, now, up) => KillBatchKeeps(env, s, op, now, up);
    case PurgeChunk(op, chunk) => PurgeChunkKeeps(env, s, op, chunk);
    case Stop(op) => FinishKeeps(env, s, op);
    case SetVisibility(doc, v) => SetVisibilityKeeps(env, s, doc, v);
    case Reclassify(doc, slug, tags, status, supersededBy) =>
      if doc in s.db.docs {
        ReclassifyKeeps(env, s, doc,
          s.db.docs[doc].(slug := slug, tags := tags, status := status, supersededBy := supersededBy));
      }
    case RewriteTombs(tombs) => RewriteTombsKeeps(env, s, tombs);
  }

  lemma LookUpVersionKeeps(env: Env, s: Sys, op: nat, doc: string, ver: nat)
    requires Inv(env, s)
    ensures Inv(env, StepLookUpVersion(s, op, doc, ver))
  {
    hide Inv;
    if StepLookUpVersion(s, op, doc, ver) != s {
      BecomeKeeps(env, s, op, Promoting(doc, ver));
    }
  }

  lemma {:induction false} RunKeeps(env: Env, states: seq<Sys>, i: nat)
    requires IsRun(env, states) && i < |states|
    ensures Inv(env, states[i])
  {
    hide Inv, Step;
    if i == 0 {
      StartOk(env);
    } else {
      RunKeeps(env, states, i - 1);
      assert Next(env, states[i - 1], states[i]);
      var a :| states[i] == Step(env, states[i - 1], a);
      StepKeeps(env, states[i - 1], a);
    }
  }
}
