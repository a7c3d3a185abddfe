/** Restoring is idempotent: a page whose records are all there already, restored
    again without replacing, changes nothing. */
module RestoreAgain {
  import opened Records
  import opened D1
  import opened Corpus
  import opened Restore
  import Serial

  /** The instance already has what the record is about. */
  ghost predicate There(inst: Instance, r: Record) {
    match r
    case AgentRecord(id, _) => id in inst.agents
    case KeyRecord(id, _) => id in inst.keys
    case ClientRecord(id, _) => id in inst.clients
    case DocRecord(id, _) => id in inst.db.docs
    case VersionRecord(v) => v.vid in inst.db.vers
    case TombRecord(id, _) => id in inst.db.tombs
  }

  ghost predicate AllThere(inst: Instance, recs: seq<Record>) {
    forall i | 0 <= i < |recs| :: There(inst, recs[i])
  }

  lemma {:induction false} PrincipalsStay(c: Ctx, recs: seq<Record>)
    requires !c.replace && AllThere(c.inst, recs)
    ensures RestoreAgents(c, recs, c.inst.agents) == c.inst.agents
    ensures RestoreKeys(c, recs, c.inst.keys) == c.inst.keys
    ensures RestoreClients(c, recs, c.inst.clients) == c.inst.clients
    decreases recs
  {
    hide Ctx.Available, Bound;
    if recs != [] {
      assert There(c.inst, recs[0]);
      PrincipalsStay(c, recs[1..]);
    }
  }

  ghost predicate Idle(plans: seq<VersionPlan>) {
    forall i | 0 <= i < |plans| :: !plans[i].action.Writes() && plans[i].prep.None?
  }

  lemma VersionStays(c: Ctx, v: VersionRec, docLive: bool, used: nat)
    requires !c.replace && v.vid in c.inst.db.vers
    ensures !PlanVersion(c, v, docLive, used).action.Writes() && PlanVersion(c, v, docLive, used).prep.None?
  {
    hide Ctx.Available;
  }

  lemma {:induction false} VersionsStay(c: Ctx, vs: seq<VersionRec>, docLive: bool, used: nat, plans: seq<VersionPlan>)
    requires !c.replace && Idle(plans) && forall i | 0 <= i < |vs| :: vs[i].vid in c.inst.db.vers
    ensures Idle(PlanVersions(c, vs, docLive, used, plans))
    decreases vs
  {
    hide PlanVersion;
    if vs != [] {
      VersionStays(c, vs[0], docLive, used + SpentBy(plans));
      VersionsStay(c, vs[1..], docLive, used, plans + [PlanVersion(c, vs[0], docLive, used + SpentBy(plans))]);
    }
  }

  lemma {:induction false} VersionsThere(inst: Instance, recs: seq<Record>, doc: string)
    requires AllThere(inst, recs)
    ensures forall i | 0 <= i < |VersionsFor(recs, doc)| :: VersionsFor(recs, doc)[i].vid in inst.db.vers
    decreases recs
  {
    if recs != [] {
      assert There(inst, recs[0]);
      VersionsThere(inst, recs[1..], doc);
    }
  }

  ghost predicate IdlePlan(p: DocPlan) { !p.action.Writes() && Idle(p.versions) }

  lemma DocStays(c: Ctx, id: string, doc: Doc, used: nat, held: set<string>)
    requires !c.replace && AllThere(c.inst, c.recs) && id in c.inst.db.docs
    ensures IdlePlan(PlanDoc(c, id, doc, used, held))
  {
    hide PlanVersions, VersionsFor, IdentityConflict, Ctx.Available, SpentBy, Renderable, SlugGranted, Dropped, Demoted;
    VersionsThere(c.inst, c.recs, id);
    VersionsStay(c, VersionsFor(c.recs, id), c.inst.db.docs[id].Live(), used, []);
  }

  lemma {:induction false} DocsStay(c: Ctx, recs: seq<Record>, used: nat, plans: seq<DocPlan>)
    requires !c.replace && AllThere(c.inst, c.recs) && AllThere(c.inst, recs)
    requires forall i | 0 <= i < |plans| :: IdlePlan(plans[i])
    ensures forall i | 0 <= i < |PlanDocs(c, recs, used, plans)| :: IdlePlan(PlanDocs(c, recs, used, plans)[i])
    decreases recs
  {
    hide PlanDoc, IdlePlan;
    if recs != [] {
      assert There(c.inst, recs[0]);
      if recs[0].DocRecord? {
        DocStays(c, recs[0].id, recs[0].doc, used + Spending(plans), Held(plans));
        DocsStay(c, recs[1..], used, plans + [PlanDoc(c, recs[0].id, recs[0].doc, used + Spending(plans), Held(plans))]);
      } else {
        DocsStay(c, recs[1..], used, plans);
      }
    }
  }

  lemma {:induction false} NothingApplied(s: Setup, a: Applied, plans: seq<DocPlan>)
    requires forall i | 0 <= i < |plans| :: IdlePlan(plans[i])
    ensures ApplyDocs(s, a, plans) == a && Gains(plans) == []
    decreases plans
  {
    if plans != [] {
      assert IdlePlan(plans[0]);
      NothingApplied(s, a, plans[1..]);
    }
  }

  lemma {:induction false} NothingStaged(s: Setup, plans: seq<VersionPlan>, st: Staged)
    requires Idle(plans)
    ensures Stage(s, plans, st) == st
    decreases plans
  {
    if plans != [] {
      assert StageOne(s, st, plans[0]) == st;
      NothingStaged(s, plans[1..], st);
    }
  }

  lemma {:induction false} StraysStay(c: Ctx, ids: seq<string>, used: nat, batches: seq<Restore.Batch>)
    requires !c.replace && AllThere(c.inst, c.recs) && forall i | 0 <= i < |batches| :: Idle(batches[i].plans)
    ensures forall i | 0 <= i < |PlanStrays(c, ids, used, batches)| :: Idle(PlanStrays(c, ids, used, batches)[i].plans)
    decreases ids
  {
    hide PlanVersions, VersionsFor;
    if ids != [] {
      if ids[0] in c.inst.db.docs {
        var vs, live := VersionsFor(c.recs, ids[0]), c.inst.db.docs[ids[0]].Live();
        VersionsThere(c.inst, c.recs, ids[0]);
        VersionsStay(c, vs, live, used + Spends(batches), []);
        StraysStay(c, ids[1..], used, batches + [Restore.Batch(ids[0], PlanVersions(c, vs, live, used + Spends(batches), []))]);
      } else {
        StraysStay(c, ids[1..], used, batches);
      }
    }
  }

  lemma {:induction false} NoBatchApplied(s: Setup, a: Applied, bs: seq<Restore.Batch>)
    requires forall i | 0 <= i < |bs| :: Idle(bs[i].plans)
    ensures ApplyBatches(s, a, bs) == a
    decreases bs
  {
    hide Stage;
    if bs != [] {
      NothingStaged(s, bs[0].plans, Unstaged(a.inst));
      assert a.inst.db.vers + map[] == a.inst.db.vers && a.inst.r2 - {} == a.inst.r2;
      assert ApplyBatch(s, a, bs[0]) == a;
      NoBatchApplied(s, a, bs[1..]);
    }
  }

  lemma {:induction false} TombsStay(c: Ctx, held: set<string>, docs: set<string>, recs: seq<Record>)
    requires !c.replace && AllThere(c.inst, recs)
    ensures RestoreTombs(c, held, docs, recs, c.inst.db.tombs) == c.inst.db.tombs
    decreases recs
  {
    if recs != [] {
      assert There(c.inst, recs[0]);
      TombsStay(c, held, docs, recs[1..]);
    }
  }

  /** Restoring what is there again, skipping conflicts, is a no-op. */
  lemma RestoringAgainChangesNothing(s: Setup, inst: Instance, recs: seq<Record>)
    requires AllThere(inst, recs)
    ensures RestorePage(s, inst, recs, false) == Applied(inst, {})
  {
    hide AllThere, PlanDocs, PlanStrays, ApplyDocs, ApplyBatches, RestoreTombs, RestoreAgents, RestoreKeys, RestoreClients,
      Held, Serial.UsedBytes, Strays, Gains, IdlePlan, Idle;
    var c := Ctx(s.env, inst, recs, false);
    PrincipalsStay(c, recs);
    DocsStay(c, recs, Serial.UsedBytes(inst.db), []);
    var a := Applied(WithPrincipals(c), {});
    NothingApplied(s, a, Plans(c));
    StraysStay(c, Strays(recs, DocIds(recs), []), Serial.UsedBytes(inst.db) + Spending(Plans(c)), []);
    assert StrayBatches(c) + [] == StrayBatches(c);
    NoBatchApplied(s, a, StrayBatches(c));
    TombsStay(c, Held(Plans(c)), inst.db.docs.Keys, recs);
  }
}
