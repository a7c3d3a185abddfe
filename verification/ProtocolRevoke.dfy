/** The kill switch under concurrency: which objects of a document a revoke that
    reports success can leave behind, exactly when it leaves none, and that a
    second revoke then finishes the work. */
module ProtocolRevoke {
  import opened Records
  import opened D1
  import opened Writes
  import opened Protocol
  import opened ProtocolInvariant
  import ProtocolSteps
  import ProtocolTheorems
  import Edits

  // ---- what a step does to objects and rows ----------------------------------

  /** Only storing a blob adds an object. */
  lemma OthersAddNothing(env: Env, s: Sys, a: Action)
    requires !a.PutBlob?
    ensures forall k | k in Step(env, s, a).r2 :: k in s.r2
  {
    hide DecidePublish, DecideUpdate, LoadView, KeysOf, Edits.Apply, KillStatements, Statements, Batch;
  }

  /** Only a rollback and a purge take objects away. */
  lemma OthersTakeNothing(env: Env, s: Sys, a: Action)
    requires !a.DeleteBlobs? && !a.PurgeChunk?
    ensures s.r2.Keys <= Step(env, s, a).r2.Keys
  {
    hide DecidePublish, DecideUpdate, LoadView, KeysOf, Edits.Apply, KillStatements, Statements, Batch;
  }

  lemma PutBlobAdds(env: Env, s: Sys, a: Action, k: Key)
    requires a.PutBlob? && k in Step(env, s, a).r2 && k !in s.r2
    ensures a.op in s.ops && s.ops[a.op].Writing? && k in s.ops[a.op].plan.row.Keys()
  {
    assert Step(env, s, a) == StepPutBlob(s, a.op);
    hide Step;
  }

  lemma RollbackTakes(env: Env, s: Sys, a: Action, k: Key)
    requires a.DeleteBlobs? && k in s.r2 && k !in Step(env, s, a).r2
    ensures a.op in s.ops && s.ops[a.op].Writing? && k in s.ops[a.op].plan.row.Keys()
  {
    assert Step(env, s, a) == StepDeleteBlobs(s, a.op, a.up);
    hide Step;
  }

  lemma PurgeTakes(env: Env, s: Sys, a: Action, k: Key)
    requires a.PurgeChunk? && k in s.r2 && k !in Step(env, s, a).r2
    ensures a.op in s.ops && s.ops[a.op].Purging? && k in s.ops[a.op].keys
  {
    assert Step(env, s, a) == StepPurgeChunk(s, a.op, a.chunk);
    hide Step;
  }

  /** Rows stay, and only a batch adds one, the one its writer planned. */
  lemma RowsStay(env: Env, s: Sys, a: Action)
    requires Inv(env, s)
    ensures
      var s' := Step(env, s, a);
      && (forall v | v in s.db.vers :: v in s'.db.vers && s'.db.vers[v] == s.db.vers[v])
      && (forall v | v in s'.db.vers && v !in s.db.vers ::
            a.RunBatch? && a.op in s.ops && s.ops[a.op].Writing? && s.ops[a.op].stage.Commit?
            && Accepts(s.db, s.ops[a.op].plan) && v == s.ops[a.op].plan.Vid() && s'.db.vers[v] == s.ops[a.op].plan.row)
  {
    hide Inv, Statements, Accepts, Committed, PlanOk, HtmlOf, OriginKept;
    if a.RunBatch? {
      if a.op in s.ops && s.ops[a.op].Writing? {
        ProtocolSteps.OpAt(env, s, a.op);
        var p := s.ops[a.op].plan;
        ProtocolSteps.ShapedPlan(env, s, p, s.ops[a.op].origin);
        CommitIsAllOrNothing(s.db, p);
        if Accepts(s.db, p) {
          ProtocolTheorems.CommitEffect(s.db, p);
        }
      }
    } else {
      ProtocolTheorems.OthersKeepHistory(env, s, a);
    }
  }

  /** The key is one of its row's. */
  ghost predicate OfRow(db: Db, k: Key) {
    VerId(k.doc, k.ver) in db.vers && k in db.vers[VerId(k.doc, k.ver)].Keys()
  }

  lemma KeysAreOfRows(env: Env, s: Sys, doc: string)
    requires Inv(env, s)
    ensures forall k | k in KeysOf(s.db, doc) :: k.doc == doc && OfRow(s.db, k)
  {
    hide Inv;
    ProtocolSteps.RowsShaped(env, s);
    forall k | k in KeysOf(s.db, doc)
      ensures k.doc == doc && OfRow(s.db, k)
    {
      var v :| v in s.db.vers && v.doc == doc && k in s.db.vers[v].Keys();
      assert RowShaped(v, s.db.vers[v]);
      assert VerId(k.doc, k.ver) == v;
    }
  }

  /** A writer's objects are under a nonce no row has. */
  lemma WritersApart(env: Env, s: Sys, op: nat, k: Key)
    requires Inv(env, s) && op in s.ops && s.ops[op].Writing? && OfRow(s.db, k)
    ensures k !in s.ops[op].plan.row.Keys()
  {
    hide DbOk, LogOk, HtmlOf, OriginKept, NoWrongBlob;
    var v := VerId(k.doc, k.ver);
    assert RowShaped(v, s.db.vers[v]);
    assert OpOk(env, s, s.ops[op]);
  }

  /** An object of a row that is gone never comes back. */
  lemma GoneStaysGone(env: Env, s: Sys, a: Action, k: Key)
    requires Inv(env, s) && OfRow(s.db, k) && k !in s.r2
    ensures OfRow(Step(env, s, a).db, k) && k !in Step(env, s, a).r2
  {
    hide Inv, Step;
    RowsStay(env, s, a);
    if k in Step(env, s, a).r2 {
      if a.PutBlob? {
        PutBlobAdds(env, s, a, k);
        WritersApart(env, s, a.op, k);
      } else {
        OthersAddNothing(env, s, a);
      }
    }
  }

  // ---- one revoke ------------------------------------------------------------

  /** The revoker has read these keys, and those it is done with are gone. */
  ghost predicate Carries(s: Sys, op: nat, doc: string, keys: set<Key>) {
    && op in s.ops
    && match s.ops[op]
       case RevokeKeys(d, _, _, ks) => d == doc && ks == keys
       case Purging(d, left) => d == doc && left <= keys && forall k | k in keys && k !in left :: k !in s.r2
       case _ => false
  }

  /** A revoker that goes on either stays where it is, has killed and starts to
      purge, or has purged one more chunk. */
  lemma RevokerGoesOn(env: Env, s: Sys, a: Action, op: nat)
    requires op in s.ops && (s.ops[op].RevokeKeys? || s.ops[op].Purging?)
    requires op in Step(env, s, a).ops
    ensures
      var s' := Step(env, s, a);
      || s'.ops[op] == s.ops[op]
      || (s.ops[op].RevokeKeys? && s'.ops[op] == Purging(s.ops[op].doc, s.ops[op].keys))
      || (s.ops[op].Purging? && a.PurgeChunk? && a.op == op && a.chunk <= s.ops[op].keys
          && s'.ops[op] == Purging(s.ops[op].doc, s.ops[op].keys - a.chunk) && s'.r2 == s.r2 - a.chunk)
  {
    if a.KillBatch? || a.PurgeChunk? {
      hide KillStatements, Batch;
      assert a.KillBatch? ==> Step(env, s, a) == StepKillBatch(s, a.op, a.now, a.up);
      assert a.PurgeChunk? ==> Step(env, s, a) == StepPurgeChunk(s, a.op, a.chunk);
      hide Step;
    } else {
      OthersKeepRevoker(env, s, a, op);
    }
  }

  lemma OthersKeepRevoker(env: Env, s: Sys, a: Action, op: nat)
    requires op in s.ops && (s.ops[op].RevokeKeys? || s.ops[op].Purging?) && !a.KillBatch? && !a.PurgeChunk?
    requires op in Step(env, s, a).ops
    ensures Step(env, s, a).ops[op] == s.ops[op]
  {
    hide DecidePublish, DecideUpdate, LoadView, KeysOf, Edits.Apply, Statements, Batch, StepKillBatch, StepPurgeChunk;
  }

  lemma CarriesOn(env: Env, s: Sys, a: Action, op: nat, doc: string, keys: set<Key>)
    requires Inv(env, s) && Carries(s, op, doc, keys) && forall k | k in keys :: OfRow(s.db, k)
    ensures
      var s' := Step(env, s, a);
      && (forall k | k in keys :: OfRow(s'.db, k))
      && (op in s'.ops ==> Carries(s', op, doc, keys))
  {
    hide Inv, Step, OfRow;
    var s' := Step(env, s, a);
    RowsOfKeysStay(env, s, a, keys);
    if op in s'.ops {
      RevokerGoesOn(env, s, a, op);
      forall k | k in keys && k !in s.r2
        ensures k !in s'.r2
      {
        GoneStaysGone(env, s, a, k);
      }
    }
  }

  lemma RowsOfKeysStay(env: Env, s: Sys, a: Action, keys: set<Key>)
    requires Inv(env, s) && forall k | k in keys :: OfRow(s.db, k)
    ensures forall k | k in keys :: OfRow(Step(env, s, a).db, k)
  {
    hide Inv, Step;
    RowsStay(env, s, a);
  }

  /** Request `op` reads the document's keys between states `i` and `i + 1`, and
      finishes its purge between `j` and `j + 1`. */
  ghost predicate Revokes(env: Env, states: seq<Sys>, i: nat, j: nat, op: nat, doc: string) {
    && IsRun(env, states) && i < j && j + 1 < |states|
    && op in states[i].ops && states[i].ops[op].RevokeRead? && states[i].ops[op].doc == doc
    && states[i + 1] == StepReadKeys(states[i], op)
    && (forall m | i < m <= j :: op in states[m].ops)
    && op !in states[j + 1].ops && states[j].ops[op].Purging?
    && exists chunk :: states[j + 1] == StepPurgeChunk(states[j], op, chunk)
  }

  lemma StepAt(env: Env, states: seq<Sys>, m: nat) returns (a: Action)
    requires IsRun(env, states) && m + 1 < |states|
    ensures states[m + 1] == Step(env, states[m], a)
  {
    hide Step;
    assert Next(env, states[m], states[m + 1]);
    a :| states[m + 1] == Step(env, states[m], a);
  }

  lemma {:induction false} CarriesAlong(env: Env, states: seq<Sys>, i: nat, j: nat, m: nat, op: nat, doc: string)
    requires Revokes(env, states, i, j, op, doc) && i < m <= j
    ensures Carries(states[m], op, doc, KeysOf(states[i].db, doc))
    ensures forall k | k in KeysOf(states[i].db, doc) :: k.doc == doc && OfRow(states[m].db, k)
    decreases m
  {
    hide Inv, Step, Next, KeysOf, OfRow;
    var keys := KeysOf(states[i].db, doc);
    if m == i + 1 {
      ProtocolSteps.RunKeeps(env, states, i);
      KeysAreOfRows(env, states[i], doc);
      assert states[m].db == states[i].db;
    } else {
      CarriesAlong(env, states, i, j, m - 1, op, doc);
      ProtocolSteps.RunKeeps(env, states, m - 1);
      var a := StepAt(env, states, m - 1);
      CarriesOn(env, states[m - 1], a, op, doc, keys);
    }
  }

  lemma {:induction false} GoneForGood(env: Env, states: seq<Sys>, from: nat, m: nat, k: Key)
    requires IsRun(env, states) && from <= m < |states| && OfRow(states[from].db, k) && k !in states[from].r2
    ensures OfRow(states[m].db, k) && k !in states[m].r2
    decreases m
  {
    hide Inv, Step, Next, OfRow, IsRun;
    if from < m {
      GoneForGood(env, states, from, m - 1, k);
      ProtocolSteps.RunKeeps(env, states, m - 1);
      var a := StepAt(env, states, m - 1);
      GoneStaysGone(env, states[m - 1], a, k);
    }
  }

  lemma FinishPurges(s: Sys, op: nat, chunk: set<Key>)
    requires op in s.ops && s.ops[op].Purging? && op !in StepPurgeChunk(s, op, chunk).ops
    ensures
      var s' := StepPurgeChunk(s, op, chunk);
      s'.db == s.db && s'.r2 == s.r2 - chunk && forall k | k in s.ops[op].keys :: k in chunk
  {
    assert forall k | k in s.ops[op].keys && k !in chunk :: k in s.ops[op].keys - chunk;
  }

  /** In every interleaving, once a revoke has finished, every object it had read
      the key of is gone for good. */
  lemma PurgedStaysGone(env: Env, states: seq<Sys>, i: nat, j: nat, m: nat, op: nat, doc: string)
    requires Revokes(env, states, i, j, op, doc) && j < m < |states|
    ensures forall k | k in KeysOf(states[i].db, doc) :: OfRow(states[m].db, k) && k !in states[m].r2
  {
    hide Inv, Step, Next, KeysOf, OfRow, IsRun;
    CarriesAlong(env, states, i, j, j, op, doc);
    ProtocolSteps.RunKeeps(env, states, j);
    var chunk :| states[j + 1] == StepPurgeChunk(states[j], op, chunk);
    FinishPurges(states[j], op, chunk);
    forall k | k in KeysOf(states[i].db, doc)
      ensures OfRow(states[m].db, k) && k !in states[m].r2
    {
      GoneForGood(env, states, j + 1, m, k);
    }
  }

  // ---- what a revoke leaves --------------------------------------------------

  /** Rows of the document that came after `then` have their objects. */
  ghost predicate LaterRowsStand(s: Sys, was: Db, doc: string) {
    forall v | v in s.db.vers && v.doc == doc && v !in was.vers :: s.db.vers[v].Keys() <= s.r2.Keys
  }

  lemma LaterRowsStandOn(env: Env, s: Sys, a: Action, op: nat, was: Db, doc: string)
    requires Inv(env, s) && LaterRowsStand(s, was, doc) && Carries(s, op, doc, KeysOf(was, doc))
    requires forall k | k in KeysOf(was, doc) :: OfRow(was, k)
    requires forall o | o in s.ops && o != op && s.ops[o].Purging? :: s.ops[o].doc != doc
    ensures LaterRowsStand(Step(env, s, a), was, doc)
  {
    hide Inv, KeysOf, DbOk, LogOk, HtmlOf, OriginKept, Step;
    var s' := Step(env, s, a);
    RowsStay(env, s, a);
    ProtocolSteps.RowsShaped(env, s);
    forall v | v in s'.db.vers && v.doc == doc && v !in was.vers
      ensures s'.db.vers[v].Keys() <= s'.r2.Keys
    {
      if v !in s.db.vers {
        CommitStands(env, s, a.op);
        OthersTakeNothing(env, s, a);
      } else {
        forall k | k in s.db.vers[v].Keys()
          ensures k in s'.r2
        {
          assert RowShaped(v, s.db.vers[v]) && OfRow(s.db, k);
          StandsThrough(env, s, a, op, was, doc, k);
        }
      }
    }
  }

  lemma CommitStands(env: Env, s: Sys, op: nat)
    requires Inv(env, s) && op in s.ops && s.ops[op].Writing? && s.ops[op].stage.Commit?
    ensures s.ops[op].plan.row.Keys() <= s.r2.Keys
  {
    hide DbOk, LogOk, BlobsOk, HtmlOf, OriginKept;
    assert OpOk(env, s, s.ops[op]);
  }

  lemma StandsThrough(env: Env, s: Sys, a: Action, op: nat, was: Db, doc: string, k: Key)
    requires Inv(env, s) && Carries(s, op, doc, KeysOf(was, doc)) && forall x | x in KeysOf(was, doc) :: OfRow(was, x)
    requires forall o | o in s.ops && o != op && s.ops[o].Purging? :: s.ops[o].doc != doc
    requires OfRow(s.db, k) && k.doc == doc && VerId(doc, k.ver) !in was.vers && k in s.r2
    ensures k in Step(env, s, a).r2
  {
    hide Inv, KeysOf, Step;
    if k !in Step(env, s, a).r2 {
      if a.DeleteBlobs? {
        RollbackTakes(env, s, a, k);
        WritersApart(env, s, a.op, k);
      } else if a.PurgeChunk? {
        PurgeTakes(env, s, a, k);
        PurgeIsOfItsDoc(env, s, a.op);
      } else {
        OthersTakeNothing(env, s, a);
      }
    }
  }

  lemma PurgeIsOfItsDoc(env: Env, s: Sys, op: nat)
    requires Inv(env, s) && op in s.ops && s.ops[op].Purging?
    ensures forall k | k in s.ops[op].keys :: k.doc == s.ops[op].doc
  {
    hide DbOk, LogOk, BlobsOk;
    assert OpOk(env, s, s.ops[op]);
  }

  lemma {:induction false} LaterRowsStandAlong(env: Env, states: seq<Sys>, i: nat, j: nat, m: nat, op: nat, doc: string)
    requires Revokes(env, states, i, j, op, doc) && i < m <= j + 1 && Alone(states, i, j, op, doc)
    ensures LaterRowsStand(states[m], states[i].db, doc)
    decreases m
  {
    hide Inv, Step, Next, KeysOf, IsRun;
    if m == i + 1 {
      assert states[m].db == states[i].db;
    } else {
      LaterRowsStandAlong(env, states, i, j, m - 1, op, doc);
      CarriesAlong(env, states, i, j, m - 1, op, doc);
      ProtocolSteps.RunKeeps(env, states, i);
      KeysAreOfRows(env, states[i], doc);
      ProtocolSteps.RunKeeps(env, states, m - 1);
      var a := StepAt(env, states, m - 1);
      LaterRowsStandOn(env, states[m - 1], a, op, states[i].db, doc);
    }
  }

  /** No one else purges the document meanwhile. */
  ghost predicate Alone(states: seq<Sys>, i: nat, j: nat, op: nat, doc: string) {
    forall m, o | i < m <= j && m < |states| && o in states[m].ops && o != op && states[m].ops[o].Purging? :: states[m].ops[o].doc != doc
  }

  /** What one revoke leaves, row by row: nothing of a row that was there when it
      read the keys, everything of a row committed since. So it leaves nothing
      exactly when no row was added while it ran. */
  lemma RevokeLeavesLaterRows(env: Env, states: seq<Sys>, i: nat, j: nat, op: nat, doc: string)
    requires Revokes(env, states, i, j, op, doc) && Alone(states, i, j, op, doc)
    ensures
      var was, s := states[i].db, states[j + 1];
      && (forall v | v in s.db.vers && v.doc == doc ::
            if v in was.vers then s.db.vers[v].Keys() !! s.r2.Keys else s.db.vers[v].Keys() <= s.r2.Keys)
      && ((forall v | v in s.db.vers && v.doc == doc :: s.db.vers[v].Keys() !! s.r2.Keys) <==>
            forall v | v in s.db.vers && v.doc == doc :: v in was.vers)
  {
    hide Inv, Step, Next, IsRun;
    var was, s := states[i].db, states[j + 1];
    PurgedStaysGone(env, states, i, j, j + 1, op, doc);
    LaterRowsStandAlong(env, states, i, j, j + 1, op, doc);
    OldRowsStay(env, states, i, j + 1);
    forall v | v in s.db.vers && v.doc == doc && v in was.vers
      ensures s.db.vers[v].Keys() !! s.r2.Keys
    {
      forall k | k in s.db.vers[v].Keys()
        ensures k !in s.r2
      {
        assert k in KeysOf(was, doc);
      }
    }
    forall v | v in s.db.vers
      ensures s.db.vers[v].hKey in s.db.vers[v].Keys()
    {
    }
  }

  lemma {:induction false} OldRowsStay(env: Env, states: seq<Sys>, i: nat, m: nat)
    requires IsRun(env, states) && i <= m < |states|
    ensures forall v | v in states[i].db.vers :: v in states[m].db.vers && states[m].db.vers[v] == states[i].db.vers[v]
    decreases m
  {
    hide Inv, Step, Next, IsRun;
    if i < m {
      OldRowsStay(env, states, i, m - 1);
      ProtocolSteps.RunKeeps(env, states, m - 1);
      var a := StepAt(env, states, m - 1);
      RowsStay(env, states[m - 1], a);
    }
  }

  // ---- when nothing is left --------------------------------------------------

  /** The document is revoked and no update of it is under way. */
  ghost predicate Settled(s: Sys, doc: string) {
    && Dead(s.db, doc)
    && forall o | o in s.ops && s.ops[o].Writing? && s.ops[o].plan.docId == doc :: s.ops[o].plan.insert.Some?
  }

  /** A revoked document takes no new writer, and revocations stay. */
  lemma SettledOn(env: Env, s: Sys, a: Action, doc: string)
    requires Inv(env, s) && Settled(s, doc)
    ensures
      var s' := Step(env, s, a);
      && Settled(s', doc)
      && (forall v: VerId | v.doc == doc && v in s'.db.vers :: v in s.db.vers)
  {
    hide Inv, Step, Accepts;
    var s' := Step(env, s, a);
    RowsStay(env, s, a);
    DeadStays(env, s, a, doc);
    forall v: VerId | v.doc == doc && v in s'.db.vers
      ensures v in s.db.vers
    {
      if v !in s.db.vers {
        InsertRefused(s.db, s.ops[a.op].plan);
      }
    }
    forall o | o in s'.ops && s'.ops[o].Writing? && s'.ops[o].plan.docId == doc
      ensures s'.ops[o].plan.insert.Some?
    {
      NoNewWriter(env, s, a, doc, o);
    }
  }

  lemma InsertRefused(db: Db, p: Plan)
    requires p.insert.Some? && Accepts(db, p)
    ensures p.docId !in db.docs
  {
  }

  lemma NoNewWriter(env: Env, s: Sys, a: Action, doc: string, o: nat)
    requires Inv(env, s) && Settled(s, doc) && o in Step(env, s, a).ops && Step(env, s, a).ops[o].Writing?
    ensures
      var p := Step(env, s, a).ops[o].plan;
      p.docId == doc ==> p.insert.Some?
  {
    hide Inv, Step;
    if a.Publish? {
      PublishedWriter(env, s, a, o);
    } else if a.ReadRow? {
      UpdatingWriter(env, s, a, o);
    } else {
      SameWriter(env, s, a, o);
    }
  }

  lemma PublishedWriter(env: Env, s: Sys, a: Action, o: nat)
    requires a.Publish? && o in Step(env, s, a).ops && Step(env, s, a).ops[o].Writing?
    ensures
      var op := Step(env, s, a).ops[o];
      op.plan.insert.Some? || (o in s.ops && s.ops[o] == op)
  {
    hide DecidePublish;
    assert Step(env, s, a) == StepPublish(env, s, a);
    hide Step;
    if a.op !in s.ops && a.names.nonce !in s.nonces && DecidePublish(env, a.pub, a.used, a.claim, a.names, a.now).Write? {
      ProtocolSteps.PublishPlan(env, a.pub, a.used, a.claim, a.names, a.now);
    }
  }

  lemma UpdatingWriter(env: Env, s: Sys, a: Action, o: nat)
    requires Inv(env, s) && a.ReadRow? && o in Step(env, s, a).ops && Step(env, s, a).ops[o].Writing?
    ensures
      var op := Step(env, s, a).ops[o];
      !Dead(s.db, op.plan.docId) || (o in s.ops && s.ops[o] == op)
  {
    hide Inv, DecideUpdate, LoadView;
    assert Step(env, s, a) == StepReadRow(env, s, a);
    hide Step;
    if a.op in s.ops && s.ops[a.op].Updating? {
      var req := s.ops[a.op].req;
      var view := LoadView(s.db, req.doc);
      if view.Some? && DecideUpdate(env, view.value, req, a.used, a.claim, a.nonce, a.now).Write? {
        ProtocolSteps.UpdatePlan(env, view.value, req, a.used, a.claim, a.nonce, a.now);
        ProtocolSteps.LiveView(env, s, req.doc);
      }
    }
  }

  lemma SameWriter(env: Env, s: Sys, a: Action, o: nat)
    requires !a.Publish? && !a.ReadRow? && o in Step(env, s, a).ops && Step(env, s, a).ops[o].Writing?
    ensures o in s.ops && s.ops[o].Writing? && s.ops[o].plan == Step(env, s, a).ops[o].plan
  {
    hide Step;
    if a.PutBlob? || a.RunBatch? || a.DeleteBlobs? {
      WritersStep(env, s, a, o);
    } else {
      NoWritersStep(env, s, a, o);
    }
  }

  lemma WritersStep(env: Env, s: Sys, a: Action, o: nat)
    requires a.PutBlob? || a.RunBatch? || a.DeleteBlobs?
    requires o in Step(env, s, a).ops && Step(env, s, a).ops[o].Writing?
    ensures o in s.ops && s.ops[o].Writing? && s.ops[o].plan == Step(env, s, a).ops[o].plan
  {
    hide Statements, Batch;
    assert a.PutBlob? ==> Step(env, s, a) == StepPutBlob(s, a.op);
    assert a.RunBatch? ==> Step(env, s, a) == StepRunBatch(s, a.op, a.up);
    assert a.DeleteBlobs? ==> Step(env, s, a) == StepDeleteBlobs(s, a.op, a.up);
    hide Step;
  }

  lemma NoWritersStep(env: Env, s: Sys, a: Action, o: nat)
    requires !a.Publish? && !a.ReadRow? && !a.PutBlob? && !a.RunBatch? && !a.DeleteBlobs?
    requires o in Step(env, s, a).ops && Step(env, s, a).ops[o].Writing?
    ensures o in s.ops && s.ops[o] == Step(env, s, a).ops[o]
  {
    hide KeysOf, Edits.Apply, KillStatements, Batch, StepPublish, StepReadRow, StepPutBlob, StepRunBatch, StepDeleteBlobs;
  }

  lemma DeadStays(env: Env, s: Sys, a: Action, doc: string)
    requires Inv(env, s) && Dead(s.db, doc)
    ensures Dead(Step(env, s, a).db, doc)
  {
    hide Inv, DecidePublish, DecideUpdate, LoadView, KeysOf, Edits.Apply, KillStatements, Statements, Batch;
    if a.RunBatch? && a.op in s.ops && s.ops[a.op].Writing? {
      ProtocolSteps.OpAt(env, s, a.op);
      var p := s.ops[a.op].plan;
      ProtocolSteps.ShapedPlan(env, s, p, s.ops[a.op].origin);
      CommitIsAllOrNothing(s.db, p);
      if Accepts(s.db, p) {
        CommitKeepsDead(s.db, p, doc);
      }
    }
    if a.KillBatch? && a.op in s.ops && s.ops[a.op].RevokeKeys? {
      ProtocolSteps.OpAt(env, s, a.op);
      ProtocolSteps.KillEffect(s.db, s.ops[a.op].doc, s.ops[a.op].slug, a.now);
    }
  }

  lemma CommitKeepsDead(db: Db, p: Plan, doc: string)
    requires Accepts(db, p) && Dead(db, doc)
    ensures Dead(Committed(db, p), doc)
  {
    hide SlugHeld, PublicIdHeld, TombsAfter;
  }

  lemma {:induction false} SettledAlong(env: Env, states: seq<Sys>, q: nat, m: nat, doc: string)
    requires IsRun(env, states) && q <= m < |states| && Settled(states[q], doc)
    ensures Settled(states[m], doc) && forall v: VerId | v.doc == doc && v in states[m].db.vers :: v in states[q].db.vers
    decreases m
  {
    hide Inv, Step, Next, IsRun, Settled;
    if q < m {
      SettledAlong(env, states, q, m - 1, doc);
      ProtocolSteps.RunKeeps(env, states, m - 1);
      var a := StepAt(env, states, m - 1);
      SettledOn(env, states[m - 1], a, doc);
    }
  }

  /** A revoke leaves nothing, for good, when at some moment the document was
      revoked with no update of it under way and had no row the revoke did not know. */
  lemma QuietRevokeLeavesNothing(env: Env, states: seq<Sys>, i: nat, q: nat, j: nat, m: nat, op: nat, doc: string)
    requires Revokes(env, states, i, j, op, doc) && i <= q <= j + 1 && j < m < |states|
    requires Settled(states[q], doc) && forall v: VerId | v.doc == doc && v in states[q].db.vers :: v in states[i].db.vers
    ensures forall v | v in states[m].db.vers && v.doc == doc :: states[m].db.vers[v].Keys() !! states[m].r2.Keys
  {
    hide Inv, Step, Next, IsRun, Settled;
    PurgedStaysGone(env, states, i, j, m, op, doc);
    SettledAlong(env, states, q, m, doc);
    OldRowsStay(env, states, i, m);
    forall v | v in states[m].db.vers && v.doc == doc
      ensures states[m].db.vers[v].Keys() !! states[m].r2.Keys
    {
      assert v in states[i].db.vers;
      forall k | k in states[m].db.vers[v].Keys()
        ensures k !in states[m].r2
      {
        assert k in KeysOf(states[i].db, doc);
      }
    }
  }

  /** So a second revoke finishes what a first one left: one that reads the keys of
      a document already revoked, once the updates that were under way have ended. */
  lemma SecondRevokeFinishes(env: Env, states: seq<Sys>, i: nat, j: nat, m: nat, op: nat, doc: string)
    requires Revokes(env, states, i, j, op, doc) && Settled(states[i], doc) && j < m < |states|
    ensures forall v | v in states[m].db.vers && v.doc == doc :: states[m].db.vers[v].Keys() !! states[m].r2.Keys
  {
    hide Inv, Step, Next, IsRun, Settled;
    QuietRevokeLeavesNothing(env, states, i, i, j, m, op, doc);
  }

  // ---- the run that leaves objects -------------------------------------------

  /** The four steps: the revoker reads the keys and kills the document, the writer
      commits all the same, the revoker purges what it had read. */
  ghost function LateCommit(env: Env, s: Sys, w: nat, r: nat, now: string, keys: set<Key>): Sys {
    var killed := Step(env, Step(env, s, ReadKeys(r)), KillBatch(r, now, true));
    Step(env, Step(env, killed, RunBatch(w, true)), PurgeChunk(r, keys))
  }

  /** A revoker about to read the keys of a live document. */
  ghost predicate AboutToRevoke(s: Sys, r: nat, doc: string) {
    && r in s.ops && s.ops[r].RevokeRead? && s.ops[r].doc == doc && !s.ops[r].already
    && doc in s.db.docs && s.db.docs[doc].Live()
  }

  /** A writer with both its objects stored, about to append to the document. */
  ghost predicate AboutToAppend(s: Sys, w: nat, doc: string) {
    && w in s.ops && s.ops[w].Writing? && s.ops[w].stage.Commit?
    && var p := s.ops[w].plan;
    p.docId == doc && p.insert.None? && p.slug.Keep? && p.Vid() !in s.db.vers
  }

  lemma Killing(env: Env, s: Sys, w: nat, r: nat, doc: string, now: string)
    requires AboutToRevoke(s, r, doc) && AboutToAppend(s, w, doc)
    ensures
      var killed := Step(env, Step(env, s, ReadKeys(r)), KillBatch(r, now, true));
      && killed.ops == s.ops[r := Purging(doc, KeysOf(s.db, doc))] && killed.r2 == s.r2
      && killed.db.vers == s.db.vers && Dead(killed.db, doc)
  {
    hide KeysOf, KillStatements, Batch;
    ProtocolSteps.KillEffect(s.db, doc, s.ops[r].slug, now);
    var read := Step(env, s, ReadKeys(r));
    assert read == Become(s, r, RevokeKeys(doc, false, s.ops[r].slug, KeysOf(s.db, doc)));
    assert Step(env, read, KillBatch(r, now, true)) == StepKillBatch(read, r, now, true);
    hide Step;
  }

  lemma Committing(env: Env, s: Sys, w: nat, doc: string)
    requires w in s.ops && s.ops[w].Writing? && s.ops[w].stage.Commit? && Shaped(s.ops[w].plan) && Dead(s.db, doc)
    requires
      var p := s.ops[w].plan;
      p.docId == doc && p.insert.None? && p.slug.Keep? && p.Vid() !in s.db.vers
    ensures
      var s', p := Step(env, s, RunBatch(w, true)), s.ops[w].plan;
      && s'.ops == s.ops - {w} && s'.r2 == s.r2 && Dead(s'.db, doc)
      && s'.db.vers == s.db.vers[p.Vid() := p.row]
  {
    hide Batch, Statements;
    var p := s.ops[w].plan;
    CommitIsAllOrNothing(s.db, p);
    CommitKeepsDead(s.db, p, doc);
    assert Step(env, s, RunBatch(w, true)) == StepRunBatch(s, w, true);
    hide Step;
  }

  lemma Purges(env: Env, s: Sys, r: nat, doc: string, keys: set<Key>)
    requires r in s.ops && s.ops[r] == Purging(doc, keys) && |keys| <= R2_DELETE_BATCH
    ensures
      var s' := Step(env, s, PurgeChunk(r, keys));
      s'.ops == s.ops - {r} && s'.r2 == s.r2 - keys && s'.db == s.db
  {
    assert Step(env, s, PurgeChunk(r, keys)) == StepPurgeChunk(s, r, keys);
    hide Step;
    assert keys - keys == {};
  }

  /** A writer about to append to a live document, and a revoker about to read its
      keys: the revoke finishes, the document is revoked, and the writer's row is
      there with both its objects. */
  lemma LateWriterLeavesObjects(env: Env, s: Sys, w: nat, r: nat, doc: string, now: string)
    requires Inv(env, s) && AboutToRevoke(s, r, doc) && AboutToAppend(s, w, doc) && |KeysOf(s.db, doc)| <= R2_DELETE_BATCH
    ensures
      var p := s.ops[w].plan;
      var s' := LateCommit(env, s, w, r, now, KeysOf(s.db, doc));
      && r !in s'.ops && w !in s'.ops && Dead(s'.db, doc)
      && p.Vid() in s'.db.vers && s'.db.vers[p.Vid()] == p.row && p.row.Keys() <= s'.r2.Keys
  {
    hide Inv, KeysOf, Step, HtmlOf, OriginKept;
    var p, keys := s.ops[w].plan, KeysOf(s.db, doc);
    ProtocolSteps.OpAt(env, s, w);
    ProtocolSteps.ShapedPlan(env, s, p, s.ops[w].origin);
    CommitStands(env, s, w);
    KeysAreOfRows(env, s, doc);
    forall k | k in keys
      ensures k !in p.row.Keys()
    {
      WritersApart(env, s, w, k);
    }
    hide PlanOk, OpOk;
    Killing(env, s, w, r, doc, now);
    var killed := Step(env, Step(env, s, ReadKeys(r)), KillBatch(r, now, true));
    Committing(env, killed, w, doc);
    Purges(env, Step(env, killed, RunBatch(w, true)), r, doc, keys);
  }

  // ---- what a revoked document shows -----------------------------------------

  /** No revoked document has a published version. */
  ghost predicate DeadAreUnpublished(db: Db) {
    forall d | d in db.docs && !db.docs[d].Live() :: db.docs[d].published.None?
  }

  lemma CommitKeepsUnpublished(db: Db, p: Plan)
    requires Accepts(db, p) && DeadAreUnpublished(db) && (p.insert.Some? ==> p.insert.value.Live())
    ensures DeadAreUnpublished(Committed(db, p))
  {
    hide SlugHeld, PublicIdHeld, TombsAfter;
  }

  lemma InsertsAreLive(env: Env, s: Sys, p: Plan, origin: Origin)
    requires PlanOk(env, s, p, origin)
    ensures p.insert.Some? ==> p.insert.value.Live()
  {
  }

  lemma UnpublishedOn(env: Env, s: Sys, a: Action)
    requires Inv(env, s) && DeadAreUnpublished(s.db)
    ensures DeadAreUnpublished(Step(env, s, a).db)
  {
    hide Inv, DecidePublish, DecideUpdate, LoadView, KeysOf, Edits.Apply, KillStatements, Statements, Batch, PlanOk;
    if a.RunBatch? && a.op in s.ops && s.ops[a.op].Writing? {
      ProtocolSteps.OpAt(env, s, a.op);
      var p := s.ops[a.op].plan;
      ProtocolSteps.ShapedPlan(env, s, p, s.ops[a.op].origin);
      InsertsAreLive(env, s, p, s.ops[a.op].origin);
      CommitIsAllOrNothing(s.db, p);
      hide Accepts, Committed, DeadAreUnpublished;
      if Accepts(s.db, p) {
        CommitKeepsUnpublished(s.db, p);
      }
    } else if a.KillBatch? && a.op in s.ops && s.ops[a.op].RevokeKeys? {
      ProtocolSteps.OpAt(env, s, a.op);
      ProtocolSteps.KillEffect(s.db, s.ops[a.op].doc, s.ops[a.op].slug, a.now);
    }
  }

  lemma {:induction false} UnpublishedAlong(env: Env, states: seq<Sys>, m: nat)
    requires IsRun(env, states) && m < |states|
    ensures DeadAreUnpublished(states[m].db)
    decreases m
  {
    hide Inv, Step, Next;
    if m > 0 {
      UnpublishedAlong(env, states, m - 1);
      ProtocolSteps.RunKeeps(env, states, m - 1);
      var a := StepAt(env, states, m - 1);
      UnpublishedOn(env, states[m - 1], a);
    }
  }

  /** In every interleaving a revoked document publishes nothing: a promotion that
      looked its version up before the revoke does not publish it after. */
  lemma RevokedPublishesNothing(env: Env, s: Sys, doc: string)
    requires Reachable(env, s) && doc in s.db.docs && !s.db.docs[doc].Live()
    ensures s.db.docs[doc].published.None?
  {
    hide Next;
    var states :| Ends(env, states, s);
    UnpublishedAlong(env, states, |states| - 1);
  }
}
