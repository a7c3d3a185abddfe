/** What holds in every state that any interleaving can reach. */
module ProtocolTheorems {
  import opened Records
  import opened D1
  import opened Writes
  import opened Protocol
  import opened ProtocolInvariant
  import opened MetadataRules
  import ProtocolSteps
  import Edits

  lemma ReachableInv(env: Env, s: Sys)
    requires Reachable(env, s)
    ensures Inv(env, s)
  {
    hide Inv, Next;
    var states :| Ends(env, states, s);
    ProtocolSteps.RunKeeps(env, states, |states| - 1);
  }

  // ---- version numbers -------------------------------------------------------

  /** The version rows of `doc` are exactly 1..m. */
  ghost predicate NumberedTo(db: Db, doc: string, m: nat) {
    m >= 1 && forall n: nat :: VerId(doc, n) in db.vers <==> 1 <= n <= m
  }

  ghost function RowNumbers(db: Db, doc: string): set<nat> {
    set v | v in db.vers && v.doc == doc :: v.no
  }

  lemma {:induction false} Largest(ns: set<nat>) returns (m: nat)
    requires ns != {}
    ensures m in ns && forall n | n in ns :: n <= m
    decreases ns
  {
    var x :| x in ns;
    var rest := ns - {x};
    if rest == {} {
      assert ns == {x};
      return x;
    }
    var y := Largest(rest);
    m := if x < y then y else x;
    assert ns == rest + {x};
  }

  /** In every interleaving a document's versions are numbered without gaps or
      repeats, and a live document's current version is the newest. */
  lemma VersionsAreContiguous(env: Env, s: Sys, doc: string)
    requires Reachable(env, s) && doc in s.db.docs
    ensures exists m: nat :: NumberedTo(s.db, doc, m) && (s.db.docs[doc].Live() ==> s.db.docs[doc].current == Some(m))
  {
    hide BlobsOk, LogOk, OpsOk, Reachable;
    ReachableInv(env, s);
    assert VerId(doc, 1).no in RowNumbers(s.db, doc);
    var m := Largest(RowNumbers(s.db, doc));
    assert VerId(doc, m) in s.db.vers;
    forall n: nat
      ensures VerId(doc, n) in s.db.vers <==> 1 <= n <= m
    {
      if VerId(doc, n) in s.db.vers {
        assert VerId(doc, n).no in RowNumbers(s.db, doc);
      } else if 1 <= n <= m {
        ProtocolSteps.DownClosed(s.db, doc, m, n);
      }
    }
    assert NumberedTo(s.db, doc, m);
    if s.db.docs[doc].Live() {
      assert PointersOk(s.db, doc);
    }
  }

  // ---- compare-and-swap ------------------------------------------------------

  /** A batch that appends to a live document goes through exactly when the
      version the writer read is still current and its slug claim, if any, is
      still free. The caller's expected version plays no part. */
  lemma AppendIsCompareAndSwap(env: Env, s: Sys, op: nat)
    requires Reachable(env, s)
    requires op in s.ops && s.ops[op].Writing? && s.ops[op].plan.insert.None?
    requires s.ops[op].plan.docId in s.db.docs && s.db.docs[s.ops[op].plan.docId].Live()
    ensures
      var p := s.ops[op].plan;
      Batch(s.db, Statements(p)).Some? <==>
        && s.db.docs[p.docId].current == Some(p.ver - 1)
        && (p.slug.Claim? ==> !SlugHeld(s.db.docs, p.slug.name, Some(p.docId)))
  {
    hide Reachable, Statements, SlugHeld, Inv, PlanOk, StoredSoFar, DbOk, BlobsOk, LogOk, OpsOk;
    ReachableInv(env, s);
    ProtocolSteps.OpAt(env, s, op);
    ProtocolSteps.InvParts(env, s);
    var p := s.ops[op].plan;
    ProtocolSteps.ShapedPlan(env, s, p, s.ops[op].origin);
    BaseExists(env, s, p, s.ops[op].origin);
    CommitIsAllOrNothing(s.db, p);
    ProtocolSteps.PrimaryKeyIsCas(s.db, p.docId, p.ver - 1);
  }

  /** Committing moves a live document's current version by exactly one, from the
      version the writer read, and adds the writer's own row. */
  lemma CommitAdvancesByOne(env: Env, s: Sys, op: nat)
    requires Reachable(env, s)
    requires op in s.ops && s.ops[op].Writing? && s.ops[op].stage.Commit?
    requires Batch(s.db, Statements(s.ops[op].plan)).Some?
    ensures
      var p := s.ops[op].plan;
      var db' := Batch(s.db, Statements(p)).value;
      && p.docId in db'.docs && db'.docs[p.docId].current == Some(p.ver)
      && p.Vid() !in s.db.vers && db'.vers == s.db.vers[p.Vid() := p.row]
      && (p.docId in s.db.docs && s.db.docs[p.docId].Live() ==> s.db.docs[p.docId].current == Some(p.ver - 1))
  {
    hide Reachable, Inv, Statements, Batch, Accepts, Committed, PlanOk, StoredSoFar;
    ReachableInv(env, s);
    ProtocolSteps.OpAt(env, s, op);
    var p := s.ops[op].plan;
    ProtocolSteps.ShapedPlan(env, s, p, s.ops[op].origin);
    CommitIsAllOrNothing(s.db, p);
    CommitEffect(s.db, p);
    if p.docId in s.db.docs && s.db.docs[p.docId].Live() {
      CommitterReadCurrent(env, s, p, s.ops[op].origin);
    }
  }

  lemma CommitEffect(db: Db, p: Plan)
    requires Accepts(db, p)
    ensures p.Vid() !in db.vers && (p.insert.Some? ==> p.docId !in db.docs)
    ensures
      var db' := Committed(db, p);
      p.docId in db'.docs && db'.docs[p.docId].current == Some(p.ver) && db'.vers == db.vers[p.Vid() := p.row]
  {
  }

  lemma CommitterReadCurrent(env: Env, s: Sys, p: Plan, origin: Origin)
    requires Inv(env, s) && PlanOk(env, s, p, origin) && Accepts(s.db, p)
    requires p.docId in s.db.docs && s.db.docs[p.docId].Live()
    ensures p.ver >= 1 && s.db.docs[p.docId].current == Some(p.ver - 1)
  {
    hide Inv, PlanOk, DbOk, BlobsOk, LogOk, OpsOk, SlugHeld;
    BaseExists(env, s, p, origin);
    ProtocolSteps.InvParts(env, s);
    ProtocolSteps.PrimaryKeyIsCas(s.db, p.docId, p.ver - 1);
  }

  lemma BaseExists(env: Env, s: Sys, p: Plan, origin: Origin)
    requires PlanOk(env, s, p, origin)
    ensures p.insert.None? ==> p.ver >= 1 && VerId(p.docId, p.ver - 1) in s.db.vers
  {
  }

  // ---- history ---------------------------------------------------------------

  /** The log lists every version row, each once. */
  ghost predicate LogIsHistory(s: Sys) {
    && (forall i, j | 0 <= i < j < |s.log| :: !(s.log[i].doc == s.log[j].doc && s.log[i].ver == s.log[j].ver))
    && Listed(s.log, s.db.vers) && Covered(s.log, s.db.vers)
  }

  ghost predicate Listed(log: seq<Event>, vers: map<VerId, Version>) {
    forall i | 0 <= i < |log| :: VerId(log[i].doc, log[i].ver) in vers
  }

  ghost predicate Covered(log: seq<Event>, vers: map<VerId, Version>) {
    forall v | v in vers :: exists i :: 0 <= i < |log| && log[i].doc == v.doc && log[i].ver == v.no
  }

  lemma HistoryAppends(s: Sys, s': Sys, e: Event, row: Version)
    requires LogIsHistory(s) && VerId(e.doc, e.ver) !in s.db.vers
    requires s'.log == s.log + [e] && s'.db.vers == s.db.vers[VerId(e.doc, e.ver) := row]
    ensures LogIsHistory(s')
  {
    hide Covered;
    assert s'.log[|s.log|] == e;
    CoveredMore(s.log, s.db.vers, e, row);
  }

  lemma CoveredMore(log: seq<Event>, vers: map<VerId, Version>, e: Event, row: Version)
    requires Covered(log, vers)
    ensures Covered(log + [e], vers[VerId(e.doc, e.ver) := row])
  {
    var log', vers' := log + [e], vers[VerId(e.doc, e.ver) := row];
    forall v | v in vers'
      ensures exists i :: 0 <= i < |log'| && log'[i].doc == v.doc && log'[i].ver == v.no
    {
      if v == VerId(e.doc, e.ver) {
        assert log'[|log|] == e;
      } else {
        var i :| 0 <= i < |log| && log[i].doc == v.doc && log[i].ver == v.no;
        assert log'[i] == log[i];
      }
    }
  }

  lemma CommitExtendsHistory(env: Env, s: Sys, op: nat, up: bool)
    requires Inv(env, s) && LogIsHistory(s)
    ensures LogIsHistory(StepRunBatch(s, op, up))
  {
    hide Inv, Statements, Accepts, Committed, PlanOk, LogIsHistory;
    var s' := StepRunBatch(s, op, up);
    if op in s.ops && s.ops[op].Writing? {
      ProtocolSteps.OpAt(env, s, op);
      var p := s.ops[op].plan;
      ProtocolSteps.ShapedPlan(env, s, p, s.ops[op].origin);
      CommitIsAllOrNothing(s.db, p);
      if s'.log != s.log {
        CommitEffect(s.db, p);
        HistoryAppends(s, s', Event(p.docId, p.ver, s.ops[op].origin), p.row);
      } else {
        assert s'.db == s.db;
        HistorySame(s, s');
      }
    }
  }

  lemma HistorySame(s: Sys, s': Sys)
    requires LogIsHistory(s) && s'.log == s.log && s'.db.vers == s.db.vers
    ensures LogIsHistory(s')
  {
  }

  /** Only a batch writes version rows or the log. */
  lemma OthersKeepHistory(env: Env, s: Sys, a: Action)
    requires !a.RunBatch?
    ensures Step(env, s, a).db.vers == s.db.vers && Step(env, s, a).log == s.log
  {
    hide DecidePublish, DecideUpdate, LoadView, KeysOf, Edits.Apply, KillStatements;
    if a.KillBatch? && a.op in s.ops && s.ops[a.op].RevokeKeys? && a.up {
      KillKeepsRows(s.db, s.ops[a.op].doc, s.ops[a.op].slug, a.now);
    }
  }

  lemma KillKeepsRows(db: Db, doc: string, slug: Option<string>, now: string)
    ensures
      var r := Batch(db, KillStatements(doc, slug, now));
      r.Some? && r.value.vers == db.vers
  {
    var rest := if slug.Some? then [RetireSlug(slug.value, Tomb(Some(doc), now, Revoked, None))] else [];
    assert KillStatements(doc, slug, now) == [Kill(doc, now)] + rest;
    BatchCons(db, Kill(doc, now), rest);
    if slug.Some? {
      BatchOne(Exec(db, Kill(doc, now)).value, rest[0]);
    }
  }

  lemma {:induction false} RunKeepsHistory(env: Env, states: seq<Sys>, i: nat)
    requires IsRun(env, states) && i < |states|
    ensures LogIsHistory(states[i])
  {
    hide Inv, Step, StepRunBatch, LogIsHistory;
    if i == 0 {
      StartHistory();
    } else {
      var s, s' := states[i - 1], states[i];
      RunKeepsHistory(env, states, i - 1);
      ProtocolSteps.RunKeeps(env, states, i - 1);
      assert Next(env, s, s');
      var a :| s' == Step(env, s, a);
      if a.RunBatch? {
        CommitExtendsHistory(env, s, a.op, a.up);
        StepIsRunBatch(env, s, a);
      } else {
        OthersKeepHistory(env, s, a);
        HistorySame(s, s');
      }
    }
  }

  lemma StepIsRunBatch(env: Env, s: Sys, a: Action)
    requires a.RunBatch?
    ensures Step(env, s, a) == StepRunBatch(s, a.op, a.up)
  {
  }

  /** Every version row was committed by exactly one write. */
  lemma EachVersionHasOneWriter(env: Env, s: Sys)
    requires Reachable(env, s)
    ensures LogIsHistory(s)
  {
    hide Next, LogIsHistory;
    var states :| Ends(env, states, s);
    RunKeepsHistory(env, states, |states| - 1);
  }

  lemma StartHistory()
    ensures LogIsHistory(START)
  {
  }

  // ---- what was asked for ----------------------------------------------------

  /** Every version is as it was asked for: the row committed for a publication or
      an update holds its body, format and author, and the texts given, or, where
      none was given, those of the version right before it. */
  lemma VersionsAreAsAsked(env: Env, s: Sys, i: nat)
    requires Reachable(env, s) && i < |s.log| && (s.log[i].origin.Publication? || s.log[i].origin.UpdateOf?)
    ensures
      var e := s.log[i];
      var vid := VerId(e.doc, e.ver);
      && vid in s.db.vers && s.db.vers[vid].sha.Some?
      && var row := s.db.vers[vid];
      match e.origin
      case Publication(pub) =>
        && e.ver == 1 && HoldsBody(row, pub.body, pub.format, pub.author)
        && Described(env, env.RenderOf(pub.body, pub.format), pub.opts, None, row)
      case UpdateOf(req) =>
        && req.doc == e.doc && e.ver >= 1 && VerId(e.doc, e.ver - 1) in s.db.vers
        && (req.expected.Some? ==> req.expected.value + 1 == e.ver)
        && HoldsBody(row, req.body, req.format, req.author)
        && Described(env, env.RenderOf(req.body, req.format), req.opts, Some(s.db.vers[VerId(e.doc, e.ver - 1)]), row)
      case _ => true
  {
    hide Reachable, DbOk, BlobsOk, OpsOk, Described, DescribedAs, EditedFrom;
    ReachableInv(env, s);
    var e := s.log[i];
    assert VerId(e.doc, e.ver) in s.db.vers;
  }

  /** No silent revert: a version committed for an edit holds the edits applied to
      the source of the version right before it, whether or not the caller named
      an expected version, and its texts where the edit named none; a restored one
      repeats the source and the texts of the version it names. */
  lemma NoSilentRevert(env: Env, s: Sys, i: nat)
    requires Reachable(env, s) && i < |s.log|
    ensures
      var e := s.log[i];
      var vid := VerId(e.doc, e.ver);
      && vid in s.db.vers && s.db.vers[vid].sha.Some?
      && var row := s.db.vers[vid];
      var html := env.RenderOf(SourceOf(row), row.format);
      (match e.origin
       case EditOf(asked, base) =>
         var before := VerId(e.doc, base);
         && asked.doc == e.doc && base + 1 == e.ver && before in s.db.vers && s.db.vers[before].sha.Some?
         && (asked.expected.Some? ==> asked.expected.value == base)
         && s.db.vers[before].format == row.format && WrittenBy(asked.author, row)
         && (var r := Edits.Apply(SourceOf(s.db.vers[before]), asked.edits, asked.replaceAll);
             r.Edited? && r.text == SourceOf(row))
         && Described(env, html, asked.opts, Some(s.db.vers[before]), row)
       case RestoreOf(from, author) =>
         && VerId(e.doc, from) in s.db.vers
         && var was := s.db.vers[VerId(e.doc, from)];
         && was.sha.Some? && HoldsBody(row, SourceOf(was), was.format, author)
         && DescribedAs(env, html, was, row)
       case _ => true)
  {
    hide Reachable, DbOk, BlobsOk, OpsOk, Edits.Apply, Described, DescribedAs;
    ReachableInv(env, s);
    var e := s.log[i];
    assert VerId(e.doc, e.ver) in s.db.vers;
  }

  // ---- blobs -----------------------------------------------------------------

  /** Every version row of a live document names a render and a source that are
      present and are the row's own bytes. */
  lemma BlobsArePresent(env: Env, s: Sys, v: VerId)
    requires Reachable(env, s) && v in s.db.vers && v.doc in s.db.docs && s.db.docs[v.doc].Live()
    ensures
      var row := s.db.vers[v];
      && row.sKey.Some? && row.sha.Some? && row.hKey in s.r2 && row.sKey.value in s.r2
      && s.r2[row.sKey.value] == row.sha.value.of
      && s.r2[row.hKey] == env.RenderOf(row.sha.value.of, row.format)
  {
    hide Reachable, DbOk, LogOk, OpsOk;
    ReachableInv(env, s);
    assert RowShaped(v, s.db.vers[v]);
  }

  /** A rollback deletes only keys that no version row and no other writer uses,
      so the writer that won keeps its bytes. */
  lemma RollbackIsHarmless(env: Env, s: Sys, op: nat)
    requires Reachable(env, s) && op in s.ops && s.ops[op].Writing?
    ensures
      var mine := s.ops[op].plan.row.Keys();
      && (forall v | v in s.db.vers :: s.db.vers[v].Keys() !! mine)
      && (forall o | o in s.ops && o != op && s.ops[o].Writing? :: s.ops[o].plan.row.Keys() !! mine)
  {
    hide Reachable, DbOk, LogOk, HtmlOf, OriginKept, NoWrongBlob;
    ReachableInv(env, s);
    assert OpOk(env, s, s.ops[op]);
    var p := s.ops[op].plan;
    forall v | v in s.db.vers
      ensures s.db.vers[v].Keys() !! p.row.Keys()
    {
      assert RowShaped(v, s.db.vers[v]);
    }
    forall o | o in s.ops && o != op && s.ops[o].Writing?
      ensures s.ops[o].plan.row.Keys() !! p.row.Keys()
    {
      assert OpOk(env, s, s.ops[o]);
    }
  }

  // ---- publication -----------------------------------------------------------

  /** A live public document has a published version, and both its pointers name
      version rows. */
  lemma PublicMeansPublished(env: Env, s: Sys, doc: string)
    requires Reachable(env, s) && doc in s.db.docs && s.db.docs[doc].Live()
    ensures
      var d := s.db.docs[doc];
      && d.current.Some? && VerId(doc, d.current.value) in s.db.vers
      && (d.visibility.Public? ==> d.published.Some?)
      && (d.published.Some? ==> VerId(doc, d.published.value) in s.db.vers)
  {
    hide Reachable, BlobsOk, LogOk, OpsOk;
    ReachableInv(env, s);
    assert PointersOk(s.db, doc);
  }
}
