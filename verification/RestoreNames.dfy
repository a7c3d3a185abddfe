/** Whatever page is restored, in either mode and whatever fails, names stay safe:
    live names unique, none of them retired, no tombstone gone. */
module RestoreNames {
  import opened Records
  import opened D1
  import opened Writes
  import opened Corpus
  import opened Restore
  import Serial
  import opened SlugHistory

  /** No document is on the page twice, and a revoked one carries no name. */
  ghost predicate PageOk(recs: seq<Record>) {
    && (forall i, j | 0 <= i < j < |recs| && recs[i].DocRecord? && recs[j].DocRecord? :: recs[i].id != recs[j].id)
    && (forall i | 0 <= i < |recs| && recs[i].DocRecord? && !recs[i].doc.Live() :: recs[i].doc.slug.None?)
  }

  // ---- the plans -------------------------------------------------------------

  /** What a plan that will be written binds is free for it. */
  ghost predicate NameFree(c: Ctx, p: DocPlan) {
    p.action.Writes() && p.slug.Some? ==>
      && !LiveHolder(c.inst.db, p.slug.value, p.id) && p.slug.value !in c.inst.db.tombs
      && p.doc.Live()
  }

  ghost predicate PlansOk(c: Ctx, plans: seq<DocPlan>) {
    && (forall i | 0 <= i < |plans| :: NameFree(c, plans[i]))
    && (forall i, j | 0 <= i < j < |plans| :: plans[i].id != plans[j].id)
    && (forall i, j | 0 <= i < j < |plans| && plans[i].action.Writes() && plans[j].action.Writes() && plans[i].slug.Some? ::
          plans[i].slug != plans[j].slug)
  }

  lemma PlanFits(c: Ctx, id: string, doc: Doc, used: nat, plans: seq<DocPlan>)
    requires PlansOk(c, plans) && (doc.Live() || doc.slug.None?)
    requires forall i | 0 <= i < |plans| :: plans[i].id != id
    ensures PlansOk(c, plans + [PlanDoc(c, id, doc, used, Held(plans))])
  {
    hide PlanVersions, VersionsFor, IdentityConflict, LiveHolder, Renderable, Demoted, Dropped, SpentBy;
    var p := PlanDoc(c, id, doc, used, Held(plans));
    forall i | 0 <= i < |plans| && plans[i].action.Writes() && plans[i].slug.Some?
      ensures plans[i].slug.value in Held(plans)
    {
      assert plans[i] in plans;
    }
  }

  lemma {:induction false} PlansFit(c: Ctx, recs: seq<Record>, used: nat, plans: seq<DocPlan>)
    requires PageOk(recs) && PlansOk(c, plans)
    requires forall i | 0 <= i < |plans| :: plans[i].id !in DocIds(recs)
    ensures PlansOk(c, PlanDocs(c, recs, used, plans))
    decreases recs
  {
    hide PlansOk, PlanDoc;
    if recs != [] {
      var next := if recs[0].DocRecord?
                  then plans + [PlanDoc(c, recs[0].id, recs[0].doc, used + Spending(plans), Held(plans))] else plans;
      if recs[0].DocRecord? {
        assert recs[0] in recs;
        PlanFits(c, recs[0].id, recs[0].doc, used + Spending(plans), plans);
        PlanHasId(c, recs[0].id, recs[0].doc, used + Spending(plans), Held(plans));
      }
      forall r | r in recs[1..] && r.DocRecord?
        ensures r in recs && (recs[0].DocRecord? ==> r.id != recs[0].id)
      {
      }
      PlansFit(c, recs[1..], used, next);
    }
  }

  lemma PlanHasId(c: Ctx, id: string, doc: Doc, used: nat, held: set<string>)
    ensures PlanDoc(c, id, doc, used, held).id == id && PlanDoc(c, id, doc, used, held).doc == doc
  {
    hide PlanVersions, VersionsFor, IdentityConflict, Renderable, Demoted, Dropped, SpentBy, SlugGranted;
  }

  // ---- applying --------------------------------------------------------------

  /** Each document is as it was, or as the plan of one of the first `k` says. */
  ghost predicate AsPlanned(s: Setup, c: Ctx, db: Db, plans: seq<DocPlan>, k: nat)
    requires k <= |plans|
  {
    && (forall d | d in db.docs ::
          || (d in c.inst.db.docs && db.docs[d] == c.inst.db.docs[d])
          || (exists i :: 0 <= i < k && plans[i].id == d && plans[i].action.Writes() && db.docs[d] == DocFor(s.env, plans[i])))
    && (forall d | d in c.inst.db.docs :: d in db.docs)
    && db.tombs == c.inst.db.tombs
  }

  /** Who can hold a name once some plans are applied. */
  lemma HolderIs(s: Setup, c: Ctx, db: Db, plans: seq<DocPlan>, k: nat, d: string, name: string)
    requires k <= |plans| && AsPlanned(s, c, db, plans, k) && SlugsOk(c.inst.db) && PlansOk(c, plans)
    requires d in db.docs && db.docs[d].slug == Some(name)
    ensures db.docs[d].Live() && name !in c.inst.db.tombs
    ensures
      || (d in c.inst.db.docs && c.inst.db.docs[d].slug == Some(name))
      || (exists i :: 0 <= i < k && plans[i].id == d && plans[i].action.Writes() && plans[i].slug == Some(name))
  {
    if !(d in c.inst.db.docs && db.docs[d] == c.inst.db.docs[d]) {
      var i :| 0 <= i < k && plans[i].id == d && plans[i].action.Writes() && db.docs[d] == DocFor(s.env, plans[i]);
      assert NameFree(c, plans[i]);
    }
  }

  lemma OneHolder(s: Setup, c: Ctx, db: Db, plans: seq<DocPlan>, k: nat, a: string, b: string, name: string)
    requires k <= |plans| && AsPlanned(s, c, db, plans, k) && SlugsOk(c.inst.db) && PlansOk(c, plans)
    requires a in db.docs && db.docs[a].slug == Some(name)
    requires b in db.docs && db.docs[b].slug == Some(name)
    ensures a == b
  {
    hide AsPlanned;
    HolderIs(s, c, db, plans, k, a, name);
    HolderIs(s, c, db, plans, k, b, name);
    if a != b {
      HoldersClash(c, plans, k, a, b, name);
    }
  }

  ghost predicate MayHold(c: Ctx, plans: seq<DocPlan>, k: nat, d: string, name: string)
    requires k <= |plans|
  {
    || (d in c.inst.db.docs && c.inst.db.docs[d].slug == Some(name))
    || (exists i :: 0 <= i < k && plans[i].id == d && plans[i].action.Writes() && plans[i].slug == Some(name))
  }

  lemma HoldersClash(c: Ctx, plans: seq<DocPlan>, k: nat, a: string, b: string, name: string)
    requires k <= |plans| && SlugsOk(c.inst.db) && PlansOk(c, plans)
    requires MayHold(c, plans, k, a, name) && MayHold(c, plans, k, b, name)
    ensures a == b
  {
    var inA, inB := a in c.inst.db.docs && c.inst.db.docs[a].slug == Some(name), b in c.inst.db.docs && c.inst.db.docs[b].slug == Some(name);
    if !inA {
      var i :| 0 <= i < k && plans[i].id == a && plans[i].action.Writes() && plans[i].slug == Some(name);
      assert NameFree(c, plans[i]);
      if !inB {
        var j :| 0 <= j < k && plans[j].id == b && plans[j].action.Writes() && plans[j].slug == Some(name);
        assert i == j;
      }
    } else if !inB {
      var j :| 0 <= j < k && plans[j].id == b && plans[j].action.Writes() && plans[j].slug == Some(name);
      assert NameFree(c, plans[j]);
    }
  }

  lemma PlannedIsOk(s: Setup, c: Ctx, db: Db, plans: seq<DocPlan>, k: nat)
    requires k <= |plans| && AsPlanned(s, c, db, plans, k) && SlugsOk(c.inst.db) && PlansOk(c, plans)
    ensures SlugsOk(db)
  {
    hide AsPlanned, PlansOk;
    forall a, b | a in db.docs && b in db.docs && a != b && db.docs[a].slug.Some?
      ensures db.docs[a].slug != db.docs[b].slug
    {
      if db.docs[a].slug == db.docs[b].slug {
        OneHolder(s, c, db, plans, k, a, b, db.docs[a].slug.value);
      }
    }
    forall d | d in db.docs && db.docs[d].slug.Some?
      ensures db.docs[d].slug.value !in db.tombs && db.docs[d].Live()
    {
      HolderIs(s, c, db, plans, k, d, db.docs[d].slug.value);
      SameTombs(s, c, db, plans, k);
    }
  }

  lemma SameTombs(s: Setup, c: Ctx, db: Db, plans: seq<DocPlan>, k: nat)
    requires k <= |plans| && AsPlanned(s, c, db, plans, k)
    ensures db.tombs == c.inst.db.tombs
  {
  }

  /** The planner never promises a name the unique index would refuse: a batch can
      fail on a public id or an outage, not on a name. */
  lemma NameIndexNeverFires(s: Setup, c: Ctx, db: Db, plans: seq<DocPlan>, k: nat)
    requires k < |plans| && AsPlanned(s, c, db, plans, k) && SlugsOk(c.inst.db) && PlansOk(c, plans)
    requires plans[k].action.Writes() && plans[k].slug.Some?
    ensures !SlugHeld(db.docs, plans[k].slug.value, Some(plans[k].id))
  {
    hide AsPlanned, LiveHolder;
    var name := plans[k].slug.value;
    forall d | d in db.docs && d != plans[k].id
      ensures db.docs[d].slug != Some(name)
    {
      if db.docs[d].slug == Some(name) {
        HolderIs(s, c, db, plans, k, d, name);
        HoldersClash(c, plans, k + 1, d, plans[k].id, name);
      }
    }
  }

  lemma ApplyKeepsPlan(s: Setup, c: Ctx, a: Applied, plans: seq<DocPlan>, k: nat)
    requires k < |plans| && AsPlanned(s, c, a.inst.db, plans, k)
    ensures AsPlanned(s, c, ApplyDoc(s, a, plans[k]).inst.db, plans, k + 1)
  {
    hide Stage, DocFor, Unique;
    var db, db' := a.inst.db, ApplyDoc(s, a, plans[k]).inst.db;
    forall d | d in db'.docs
      ensures
        || (d in c.inst.db.docs && db'.docs[d] == c.inst.db.docs[d])
        || (exists i :: 0 <= i < k + 1 && plans[i].id == d && plans[i].action.Writes() && db'.docs[d] == DocFor(s.env, plans[i]))
    {
      if d in db.docs && db'.docs[d] == db.docs[d] && !(d in c.inst.db.docs && db.docs[d] == c.inst.db.docs[d]) {
        var i :| 0 <= i < k && plans[i].id == d && plans[i].action.Writes() && db.docs[d] == DocFor(s.env, plans[i]);
      }
    }
  }

  lemma {:induction false} DocsAsPlanned(s: Setup, c: Ctx, a: Applied, plans: seq<DocPlan>, k: nat)
    requires k <= |plans| && AsPlanned(s, c, a.inst.db, plans, k)
    ensures AsPlanned(s, c, ApplyDocs(s, a, plans[k..]).inst.db, plans, |plans|)
    decreases |plans| - k
  {
    hide AsPlanned, ApplyDoc;
    if k < |plans| {
      ApplyKeepsPlan(s, c, a, plans, k);
      assert plans[k..][1..] == plans[k + 1..];
      DocsAsPlanned(s, c, ApplyDoc(s, a, plans[k]), plans, k + 1);
    }
  }

  lemma {:induction false} BatchesKeepDocs(s: Setup, a: Applied, bs: seq<Restore.Batch>)
    ensures
      var db' := ApplyBatches(s, a, bs).inst.db;
      db'.docs == a.inst.db.docs && db'.tombs == a.inst.db.tombs
    decreases bs
  {
    hide Stage;
    if bs != [] {
      BatchesKeepDocs(s, ApplyBatch(s, a, bs[0]), bs[1..]);
    }
  }

  // ---- tombstones ------------------------------------------------------------

  ghost predicate InUse(db: Db, name: string) {
    exists d :: d in db.docs && db.docs[d].Live() && db.docs[d].slug == Some(name)
  }

  lemma {:induction false} TombsGrow(c: Ctx, held: set<string>, docs: set<string>, recs: seq<Record>, tombs: map<string, Tomb>)
    ensures
      var after := RestoreTombs(c, held, docs, recs, tombs);
      && tombs.Keys <= after.Keys
      && forall n | n in after :: n in tombs || (!InUse(c.inst.db, n) && n !in held)
    decreases recs
  {
    if recs != [] {
      TombsGrow(c, held, docs, recs[1..], if recs[0].TombRecord? then TombAfter(c, held, docs, tombs, recs[0]) else tombs);
    }
  }

  // ---- the page --------------------------------------------------------------

  lemma PageAsPlanned(s: Setup, inst: Instance, recs: seq<Record>, replace: bool)
    requires PageOk(recs)
    ensures
      var c := Ctx(s.env, inst, recs, replace);
      var r := RestorePage(s, inst, recs, replace).inst.db;
      && PlansOk(c, Plans(c))
      && AsPlanned(s, c, r.(tombs := inst.db.tombs), Plans(c), |Plans(c)|)
      && r.tombs == RestoreTombs(c, Held(Plans(c)), r.docs.Keys, recs, inst.db.tombs)
  {
    hide PlanDocs, ApplyDocs, ApplyBatches, RestoreTombs, Serial.UsedBytes, StrayBatches, Gains, RestoreAgents, RestoreKeys,
      RestoreClients, PlansOk, Held;
    var c := Ctx(s.env, inst, recs, replace);
    var plans := Plans(c);
    assert PlansOk(c, []) by { NoPlans(c); }
    PlansFit(c, recs, Serial.UsedBytes(inst.db), []);
    assert plans[0..] == plans;
    DocsAsPlanned(s, c, Applied(WithPrincipals(c), {}), plans, 0);
    BatchesKeepDocs(s, ApplyDocs(s, Applied(WithPrincipals(c), {}), plans), StrayBatches(c) + Gains(plans));
  }

  lemma NoPlans(c: Ctx)
    ensures PlansOk(c, [])
  {
  }

  /** Restore preserves slug safety. */
  lemma RestoreKeepsNamesSafe(s: Setup, inst: Instance, recs: seq<Record>, replace: bool)
    requires SlugsOk(inst.db) && PageOk(recs)
    ensures
      var db := RestorePage(s, inst, recs, replace).inst.db;
      SlugsOk(db) && inst.db.tombs.Keys <= db.tombs.Keys
  {
    hide PlansOk, AsPlanned, RestorePage, RestoreTombs, Held, Plans, SlugsOk;
    var c := Ctx(s.env, inst, recs, replace);
    var plans := Plans(c);
    var db := RestorePage(s, inst, recs, replace).inst.db;
    PageAsPlanned(s, inst, recs, replace);
    TombsGrow(c, Held(plans), db.docs.Keys, recs, inst.db.tombs);
    PlannedIsOk(s, c, db.(tombs := inst.db.tombs), plans, |plans|);
    forall d | d in db.docs && db.docs[d].slug.Some?
      ensures db.docs[d].slug.value !in db.tombs || db.docs[d].slug.value in inst.db.tombs
    {
      InUseOrHeld(s, c, db.(tombs := inst.db.tombs), plans, d, db.docs[d].slug.value);
    }
    TombsApart(inst.db.tombs, db);
  }

  lemma InUseOrHeld(s: Setup, c: Ctx, db: Db, plans: seq<DocPlan>, d: string, name: string)
    requires AsPlanned(s, c, db, plans, |plans|) && SlugsOk(c.inst.db) && PlansOk(c, plans)
    requires d in db.docs && db.docs[d].slug == Some(name)
    ensures InUse(c.inst.db, name) || name in Held(plans)
  {
    hide AsPlanned, PlansOk;
    HolderIs(s, c, db, plans, |plans|, d, name);
    if !(d in c.inst.db.docs && c.inst.db.docs[d].slug == Some(name)) {
      var i :| 0 <= i < |plans| && plans[i].id == d && plans[i].action.Writes() && plans[i].slug == Some(name);
      assert plans[i] in plans;
    }
  }

  lemma TombsApart(tombs: map<string, Tomb>, db: Db)
    requires SlugsOk(db.(tombs := tombs))
    requires forall d | d in db.docs && db.docs[d].slug.Some? :: db.docs[d].slug.value !in db.tombs || db.docs[d].slug.value in tombs
    ensures SlugsOk(db)
  {
  }

  /** A document the page does not carry keeps everything it had, its name
      included; skipping conflicts, so does every document there was. */
  lemma BystandersKeep(s: Setup, inst: Instance, recs: seq<Record>, replace: bool, d: string)
    requires PageOk(recs) && d in inst.db.docs && (d !in DocIds(recs) || !replace)
    ensures
      var db := RestorePage(s, inst, recs, replace).inst.db;
      d in db.docs && db.docs[d] == inst.db.docs[d]
  {
    hide PlansOk, RestorePage, RestoreTombs, Held, PlanDocs, Serial.UsedBytes;
    var c := Ctx(s.env, inst, recs, replace);
    PageAsPlanned(s, inst, recs, replace);
    PlansAreOfPage(c, recs, Serial.UsedBytes(inst.db), []);
  }

  lemma {:induction false} PlansAreOfPage(c: Ctx, recs: seq<Record>, used: nat, plans: seq<DocPlan>)
    requires forall p | p in plans :: p.action.Writes() ==> p.id in DocIds(c.recs) && (!c.replace ==> p.id !in c.inst.db.docs)
    requires forall r | r in recs :: r in c.recs
    ensures forall p | p in PlanDocs(c, recs, used, plans) ::
      p.action.Writes() ==> p.id in DocIds(c.recs) && (!c.replace ==> p.id !in c.inst.db.docs)
    decreases recs
  {
    hide PlanDoc;
    if recs != [] {
      if recs[0].DocRecord? {
        var p := PlanDoc(c, recs[0].id, recs[0].doc, used + Spending(plans), Held(plans));
        WritesNew(c, recs[0].id, recs[0].doc, used + Spending(plans), Held(plans));
        assert recs[0] in c.recs;
        PlansAreOfPage(c, recs[1..], used, plans + [p]);
      } else {
        PlansAreOfPage(c, recs[1..], used, plans);
      }
    }
  }

  lemma WritesNew(c: Ctx, id: string, doc: Doc, used: nat, held: set<string>)
    ensures
      var p := PlanDoc(c, id, doc, used, held);
      && p.id == id
      && (p.action.Create? ==> id !in c.inst.db.docs) && (p.action.Replace? ==> c.replace)
  {
    hide PlanVersions, VersionsFor, IdentityConflict, Renderable, Demoted, Dropped, SpentBy, SlugGranted;
  }
}
