/** The restore as it runs: plans are built record by record, then applied in
    foreign-key order, D1 and R2 changing as it goes. It is proved to leave what
    Restore.RestorePage says. */
module BackupTarget {
  import opened Records
  import opened D1
  import opened Writes
  import opened Corpus
  import opened Restore
  import Serial
  import Sums

  // ---- planning --------------------------------------------------------------

  method PlanOneVersion(c: Ctx, v: VersionRec, docLive: bool, projectedUsed: nat) returns (plan: VersionPlan)
    ensures plan == PlanVersion(c, v, docLive, projectedUsed)
  {
    hide ScreenAndPrepare;
    var existing := if v.vid in c.inst.db.vers then Some(c.inst.db.vers[v.vid]) else None;
    if v.row.authorAgent.Some? && !c.Available(v.row.authorAgent.value) {
      return VersionPlan(v, MissingDependency, None, existing);
    }
    var conflictAction := OnConflict(existing.Some?, c.replace);
    if !docLive {
      return VersionPlan(v, conflictAction, None, existing);
    }
    if conflictAction.Skip? {
      return VersionPlan(v, Skip, None, existing);
    }
    if v.source.None? {
      return VersionPlan(v, Action.SourceUnavailable, None, existing);
    }
    if v.row.sha.None? || Digest(v.source.value) != v.row.sha.value {
      return VersionPlan(v, Corrupt, None, existing);
    }
    var screened := Screen(c.env, v.source.value, v.row.format);
    if screened.Refused? {
      return VersionPlan(v, Rejected, None, existing);
    }
    if projectedUsed + screened.prep.Bytes() > c.env.storageCap {
      return VersionPlan(v, Rejected, None, existing);
    }
    return VersionPlan(v, conflictAction, Some(screened.prep), existing);
  }

  method PlanTheVersions(c: Ctx, vs: seq<VersionRec>, docLive: bool, before: nat) returns (plans: seq<VersionPlan>, projectedUsed: nat)
    ensures plans == PlanVersions(c, vs, docLive, before, []) && projectedUsed == before + SpentBy(plans)
  {
    hide PlanVersion;
    plans, projectedUsed := [], before;
    assert vs[0..] == vs;
    for i := 0 to |vs|
      invariant PlanVersions(c, vs[i..], docLive, before, plans) == PlanVersions(c, vs, docLive, before, [])
      invariant projectedUsed == before + SpentBy(plans)
    {
      var plan := PlanOneVersion(c, vs[i], docLive, projectedUsed);
      assert vs[i..][1..] == vs[i + 1..];
      assert (plans + [plan])[..|plans|] == plans;
      plans, projectedUsed := plans + [plan], projectedUsed + plan.Spent();
    }
  }

  method PlanDocument(c: Ctx, id: string, doc: Doc, before: nat, held: set<string>) returns (plan: DocPlan)
    ensures plan == PlanDoc(c, id, doc, before, held)
  {
    hide PlanVersions, VersionsFor, IdentityConflict, SlugGranted, Renderable, Demoted, Dropped, SpentBy, KeysOfRows;
    if IdentityConflict(c.inst.db, id, doc.publicId) {
      return DocPlan(id, doc, Rejected, None, [], 0, {}, {});
    }
    if doc.createdBy.Some? && !c.Available(doc.createdBy.value) {
      return DocPlan(id, doc, MissingDependency, None, [], 0, {}, {});
    }
    var pageVersions := VersionsFor(c.recs, id);
    var action := OnConflict(id in c.inst.db.docs, c.replace);
    if action.Skip? {
      var plans, used := PlanTheVersions(c, pageVersions, c.inst.db.docs[id].Live(), before);
      return DocPlan(id, doc, Skip, c.inst.db.docs[id].slug, plans, used - before, {}, {});
    }
    var slug := SlugGranted(c, id, doc.slug, held);
    var plans, used := PlanTheVersions(c, pageVersions, doc.Live(), before);
    if doc.Live() && !Renderable(doc, plans) {
      return DocPlan(id, doc, Rejected, None, Demoted(plans), used - before, {}, {});
    }
    var extra := if action.Replace? then Dropped(c.inst.db, id, pageVersions) else {};
    return DocPlan(id, doc, action, slug, plans, used - before, extra, KeysOfRows(c.inst.db, extra));
  }

  method PlanDocuments(c: Ctx, before: nat) returns (plans: seq<DocPlan>, held: set<string>, projectedUsed: nat)
    ensures plans == PlanDocs(c, c.recs, before, []) && held == Held(plans) && projectedUsed == before + Spending(plans)
  {
    hide PlanDoc, Held;
    plans, held, projectedUsed := [], {}, before;
    HeldNone();
    assert c.recs[0..] == c.recs;
    for i := 0 to |c.recs|
      invariant PlanDocs(c, c.recs[i..], before, plans) == PlanDocs(c, c.recs, before, [])
      invariant held == Held(plans) && projectedUsed == before + Spending(plans)
    {
      assert c.recs[i..][1..] == c.recs[i + 1..];
      if c.recs[i].DocRecord? {
        var plan := PlanDocument(c, c.recs[i].id, c.recs[i].doc, projectedUsed, held);
        HeldNext(plans, plan);
        assert (plans + [plan])[..|plans|] == plans;
        if plan.action.Writes() && plan.slug.Some? {
          held := held + {plan.slug.value};
        }
        plans, projectedUsed := plans + [plan], projectedUsed + plan.spent;
      }
    }
  }

  lemma HeldNone()
    ensures Held([]) == {}
  {
  }

  lemma HeldNext(plans: seq<DocPlan>, p: DocPlan)
    ensures Held(plans + [p]) == Held(plans) + (if p.action.Writes() && p.slug.Some? then {p.slug.value} else {})
  {
  }

  method PlanTheStrays(c: Ctx, before: nat) returns (batches: seq<Restore.Batch>)
    ensures batches == PlanStrays(c, Strays(c.recs, DocIds(c.recs), []), before, [])
  {
    hide PlanVersions, VersionsFor, Strays;
    var ids := Strays(c.recs, DocIds(c.recs), []);
    var projectedUsed := before;
    batches := [];
    assert ids[0..] == ids;
    for i := 0 to |ids|
      invariant PlanStrays(c, ids[i..], before, batches) == PlanStrays(c, ids, before, [])
      invariant projectedUsed == before + Spends(batches)
    {
      assert ids[i..][1..] == ids[i + 1..];
      if ids[i] in c.inst.db.docs {
        var plans, used := PlanTheVersions(c, VersionsFor(c.recs, ids[i]), c.inst.db.docs[ids[i]].Live(), projectedUsed);
        assert (batches + [Restore.Batch(ids[i], plans)])[..|batches|] == batches;
        batches, projectedUsed := batches + [Restore.Batch(ids[i], plans)], used;
      }
    }
  }

  // ---- applying --------------------------------------------------------------

  class BackupTarget {
    const setup: Setup
    var agents: map<string, Agent>
    var keys: map<string, AgentKey>
    var clients: map<string, Client>
    var db: Db
    var r2: map<Key, string>
    var minted: nat

    function State(): Instance
      reads this
    {
      Instance(agents, keys, clients, db, r2, minted)
    }

    constructor (setup: Setup)
      ensures this.setup == setup && State() == BLANK
    {
      this.setup := setup;
      agents, keys, clients, db, r2, minted := map[], map[], map[], EMPTY, map[], 0;
    }

    method UpsertPrincipals(c: Ctx)
      requires c.inst == State()
      modifies this`agents, this`keys, this`clients
      ensures State() == WithPrincipals(c)
    {
      hide Bound, Ctx.Available;
      assert c.recs[0..] == c.recs;
      for i := 0 to |c.recs|
        invariant RestoreAgents(c, c.recs[i..], agents) == RestoreAgents(c, c.recs, c.inst.agents)
        invariant State() == c.inst.(agents := agents)
      {
        if c.recs[i].AgentRecord? && (c.replace || c.recs[i].id !in c.inst.agents) {
          agents := agents[c.recs[i].id := c.recs[i].agent];
        }
      }
      for i := 0 to |c.recs|
        invariant RestoreKeys(c, c.recs[i..], keys) == RestoreKeys(c, c.recs, c.inst.keys)
        invariant State() == c.inst.(agents := RestoreAgents(c, c.recs, c.inst.agents), keys := keys)
      {
        if c.recs[i].KeyRecord? && c.Available(c.recs[i].key.agentId) && (c.replace || c.recs[i].id !in c.inst.keys) {
          keys := keys[c.recs[i].id := c.recs[i].key];
        }
      }
      for i := 0 to |c.recs|
        invariant RestoreClients(c, c.recs[i..], clients) == RestoreClients(c, c.recs, c.inst.clients)
        invariant State() == WithPrincipals(c).(clients := clients)
      {
        if c.recs[i].ClientRecord? && WritesClient(c, clients, c.recs[i]) {
          clients := clients[c.recs[i].id := c.recs[i].client];
        }
      }
    }

    /** Stores the blobs of every version of a unit that carries a re-render. */
    method WriteVersionBlobs(plans: seq<VersionPlan>) returns (rows: map<VerId, Version>, newKeys: set<Key>, oldKeys: set<Key>)
      modifies this`r2, this`minted
      ensures Staged(r2, minted, rows, newKeys, oldKeys) == Stage(setup, plans, Unstaged(old(State())))
    {
      hide RowFor;
      rows, newKeys, oldKeys := map[], {}, {};
      ghost var goal := Stage(setup, plans, Unstaged(State()));
      assert plans[0..] == plans;
      for i := 0 to |plans|
        invariant Stage(setup, plans[i..], Staged(r2, minted, rows, newKeys, oldKeys)) == goal
      {
        assert plans[i..][1..] == plans[i + 1..];
        var vp := plans[i];
        assert oldKeys + {} == oldKeys;
        if vp.action.Writes() {
          var row := RowFor(setup.env, vp, setup.mint(minted));
          rows := rows[vp.rec.vid := row];
          if vp.prep.Some? {
            var sKey := Key(vp.rec.vid.doc, vp.rec.vid.no, setup.mint(minted), true);
            r2 := r2[row.hKey := vp.prep.value.html];
            r2 := r2[sKey := vp.prep.value.source];
            newKeys, minted := newKeys + {row.hKey, sKey}, minted + 1;
            if vp.was.Some? {
              oldKeys := oldKeys + vp.was.value.Keys();
            }
          }
        }
      }
    }

    method ApplyOneDoc(p: DocPlan, before: set<string>) returns (failed: set<string>)
      modifies this`db, this`r2, this`minted
      ensures Applied(State(), failed) == ApplyDoc(setup, Applied(old(State()), before), p)
    {
      hide Stage, Unique, DocFor;
      failed := before;
      if !p.action.Writes() {
        return;
      }
      var rows, newKeys, oldKeys := WriteVersionBlobs(p.versions);
      var doc := DocFor(setup.env, p);
      if setup.up(p.id) && Unique(db, p.id, doc) {
        db := Db(db.docs[p.id := doc], (db.vers - p.extra) + rows, db.tombs);
        r2 := r2 - (oldKeys + p.extraKeys);
      } else {
        r2 := r2 - newKeys;
        failed := failed + {p.id};
      }
    }

    method ApplyOneBatch(b: Restore.Batch, before: set<string>) returns (failed: set<string>)
      modifies this`db, this`r2, this`minted
      ensures Applied(State(), failed) == ApplyBatch(setup, Applied(old(State()), before), b)
    {
      hide Stage;
      failed := before;
      var rows, newKeys, oldKeys := WriteVersionBlobs(b.plans);
      var live := Serial.IsLive(db, b.doc);
      if rows == map[] || (setup.up(b.doc) && b.doc in db.docs) {
        db := db.(vers := db.vers + rows);
        r2 := r2 - oldKeys;
        if live && !setup.derives(b.doc) && rows != map[] {
          r2 := r2 - newKeys;
          failed := failed + {b.doc};
        }
      } else {
        r2 := r2 - newKeys;
        failed := failed + {b.doc};
      }
    }

    method UpsertTombs(c: Ctx, held: set<string>)
      modifies this`db
      ensures State() == old(State()).(db := old(db).(tombs :=
                RestoreTombs(c, held, old(db).docs.Keys, c.recs, old(db).tombs)))
    {
      hide TombAfter;
      ghost var was := db;
      ghost var goal := RestoreTombs(c, held, db.docs.Keys, c.recs, db.tombs);
      assert c.recs[0..] == c.recs;
      for i := 0 to |c.recs|
        invariant db == was.(tombs := db.tombs)
        invariant RestoreTombs(c, held, was.docs.Keys, c.recs[i..], db.tombs) == goal
      {
        assert c.recs[i..][1..] == c.recs[i + 1..];
        if c.recs[i].TombRecord? {
          db := db.(tombs := TombAfter(c, held, db.docs.Keys, db.tombs, c.recs[i]));
        }
      }
    }

    /** One page, planned whole before anything is written. */
    method RestoreBackupCore(recs: seq<Record>, replace: bool) returns (failed: set<string>)
      modifies this
      ensures Applied(State(), failed) == RestorePage(setup, old(State()), recs, replace)
    {
      hide PlanDocs, PlanStrays, ApplyDoc, ApplyBatch, RestoreTombs, Held, Spending, Serial.UsedBytes, WithPrincipals, Strays, Gains;
      var c := Ctx(setup.env, State(), recs, replace);
      var used := Sums.CurrentStorageUsedBytes(db);
      var plans, held, projectedUsed := PlanDocuments(c, used);
      var strays := PlanTheStrays(c, projectedUsed);
      var batches := strays + Gains(plans);
      UpsertPrincipals(c);
      failed := {};
      ghost var a0 := Applied(State(), {});
      assert plans[0..] == plans;
      for i := 0 to |plans|
        invariant ApplyDocs(setup, Applied(State(), failed), plans[i..]) == ApplyDocs(setup, a0, plans)
      {
        assert plans[i..][1..] == plans[i + 1..];
        failed := ApplyOneDoc(plans[i], failed);
      }
      ghost var a1 := Applied(State(), failed);
      assert a1 == ApplyDocs(setup, a0, plans);
      assert batches[0..] == batches;
      for i := 0 to |batches|
        invariant ApplyBatches(setup, Applied(State(), failed), batches[i..]) == ApplyBatches(setup, a1, batches)
      {
        assert batches[i..][1..] == batches[i + 1..];
        failed := ApplyOneBatch(batches[i], failed);
      }
      ghost var a2 := Applied(State(), failed);
      assert a2 == ApplyBatches(setup, a1, batches);
      UpsertTombs(c, held);
    }
  }
}
