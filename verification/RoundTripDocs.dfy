/** The documents of an exported page, planned and applied where none of them
    exists yet. */
module RoundTripDocs {
  import opened Records
  import opened D1
  import opened Writes
  import opened Corpus
  import opened Restore
  import opened RoundTrip
  import opened RoundTripPlan
  import RestoreRender
  import Serial
  import SlugHistory
  import Sums

  /** What the target holds agrees with the original. */
  ghost predicate Part(orig: Instance, inst: Instance) {
    && (forall d | d in inst.db.docs :: d in orig.db.docs && inst.db.docs[d] == orig.db.docs[d])
    && inst.db.tombs.Keys <= orig.db.tombs.Keys
  }

  /** The target has nothing of the document, and whoever made it. */
  ghost predicate DocClear(c: Ctx, orig: Instance, u: Unit)
    requires u.DocUnit?
  {
    && !c.replace && u.id !in c.inst.db.docs && RowsClear(c, orig, u)
    && (u.doc.createdBy.Some? ==> c.Available(u.doc.createdBy.value))
  }

  ghost predicate GoodPlan(env: Env, orig: Instance, p: DocPlan) {
    && p.id in orig.db.docs && p.doc == orig.db.docs[p.id].(tags := env.cleanTags(orig.db.docs[p.id].tags))
    && p.action.Create? && p.slug == p.doc.slug && p.extra == {} && p.extraKeys == {}
    && (forall i | 0 <= i < |p.versions| :: GoodVersion(env, orig, p.versions[i]) && p.versions[i].rec.vid.doc == p.id)
    && (forall v | v in orig.db.vers && v.doc == p.id :: exists i :: 0 <= i < |p.versions| && p.versions[i].rec.vid == v)
  }

  ghost function PlanIds(plans: seq<DocPlan>): set<string> { set p | p in plans :: p.id }

  ghost predicate GoodPlans(env: Env, orig: Instance, plans: seq<DocPlan>) {
    forall i | 0 <= i < |plans| :: GoodPlan(env, orig, plans[i])
  }

  // ---- planning one document -------------------------------------------------

  lemma NameGranted(c: Ctx, orig: Instance, u: Unit, plans: seq<DocPlan>)
    requires u.DocUnit? && Describes(orig, u) && DocClear(c, orig, u) && Part(orig, c.inst)
    requires SlugHistory.SlugsOk(orig.db) && GoodPlans(c.env, orig, plans) && u.id !in PlanIds(plans)
    ensures SlugGranted(c, u.id, u.doc.slug, Held(plans)) == u.doc.slug
  {
    hide GoodVersion, RowsClear, Ctx.Available;
    if u.doc.slug.Some? {
      var name := u.doc.slug.value;
      forall p | p in plans && p.action.Writes()
        ensures p.slug != Some(name)
      {
        assert p.id in PlanIds(plans) && GoodPlan(c.env, orig, p);
      }
      forall d | d in c.inst.db.docs && d != u.id
        ensures c.inst.db.docs[d].slug != Some(name)
      {
        assert c.inst.db.docs[d] == orig.db.docs[d];
      }
    }
  }

  lemma NoConflict(c: Ctx, orig: Instance, u: Unit)
    requires u.DocUnit? && Describes(orig, u) && DocClear(c, orig, u) && Part(orig, c.inst) && Referential(orig)
    ensures !IdentityConflict(c.inst.db, u.id, u.doc.publicId)
  {
    hide RowsClear, Ctx.Available;
  }

  lemma AllRestorable(env: Env, orig: Instance, u: Unit, plans: seq<VersionPlan>, no: nat)
    requires u.DocUnit? && Describes(orig, u) && u.doc.Live() && PlannedRows(env, orig, u, plans) && |plans| == |u.rows|
    requires VerId(u.id, no) in orig.db.vers
    ensures Restorable(plans, no)
  {
    hide Faithful, VersionOf;
    ListedRows(orig, u);
    assert VerId(u.id, no) in Serial.RowsOf(orig.db, u.id);
    assert VerId(u.id, no) in Sums.SetOf(u.rows);
    var i :| 0 <= i < |u.rows| && u.rows[i] == VerId(u.id, no);
    assert GoodVersion(env, orig, plans[i]);
    forall j | 0 <= j < i
      ensures plans[j].rec.vid.no != no
    {
      assert u.rows[j].no < u.rows[i].no;
    }
  }

  lemma DocPlanned(c: Ctx, orig: Instance, u: Unit, ids: set<string>, used: nat, plans: seq<DocPlan>)
    requires u.DocUnit? && Describes(orig, u) && DocClear(c, orig, u) && Part(orig, c.inst) && Exportable(c.env, orig)
    requires GoodPlans(c.env, orig, plans) && u.id !in PlanIds(plans) && u.id !in ids
    requires VersionsFor(c.recs, u.id) == RowRecs(orig, u, 0) && Budget(orig, ids, u, 0, used)
    ensures
      var p := PlanDoc(c, u.id, u.doc.(tags := c.env.cleanTags(u.doc.tags)), used, Held(plans));
      GoodPlan(c.env, orig, p) && p.id == u.id && Budget(orig, ids, u, |u.rows|, used + p.spent)
  {
    hide PlanVersions, GoodVersion, Budget, SlugGranted, IdentityConflict, Renderable, RowsClear, Ctx.Available, Settled, Faithful,
      SlugHistory.SlugsOk, Held, Referential, Serial.UsedBytes, RowRecs, PlannedRows, Describes;
    var doc := u.doc.(tags := c.env.cleanTags(u.doc.tags));
    NoConflict(c, orig, u);
    NameGranted(c, orig, u, plans);
    NonePlanned(c, orig, u);
    RowsPlanned(c, orig, u, ids, used, []);
    var versions := PlanVersions(c, RowRecs(orig, u, 0), u.doc.Live(), used, []);
    SlugAlone(c, u, doc, Held(plans));
    PointersRestorable(c, orig, u, doc, versions);
    PlansEveryRow(c.env, orig, u, versions);
    UnitDoc(orig, u);
  }

  lemma NonePlanned(c: Ctx, orig: Instance, u: Unit)
    requires u.DocUnit? && Describes(orig, u)
    ensures PlannedRows(c.env, orig, u, [])
    ensures SpentBy([]) == 0
  {
  }

  lemma SlugAlone(c: Ctx, u: Unit, doc: Doc, held: set<string>)
    requires u.DocUnit? && doc.slug == u.doc.slug
    ensures SlugGranted(c, u.id, doc.slug, held) == SlugGranted(c, u.id, u.doc.slug, held)
  {
  }

  lemma UnitDoc(orig: Instance, u: Unit)
    requires u.DocUnit? && Describes(orig, u)
    ensures u.id in orig.db.docs && orig.db.docs[u.id] == u.doc
  {
  }

  lemma PointersRestorable(c: Ctx, orig: Instance, u: Unit, doc: Doc, versions: seq<VersionPlan>)
    requires u.DocUnit? && Describes(orig, u) && Exportable(c.env, orig)
    requires PlannedRows(c.env, orig, u, versions) && |versions| == |u.rows|
    requires doc.current == u.doc.current && doc.published == u.doc.published
    ensures u.doc.Live() ==> Renderable(doc, versions)
  {
    hide PlannedRows, Settled, Faithful, SlugHistory.SlugsOk, Referential, Serial.UsedBytes, Restorable;
    if u.doc.Live() {
      if doc.current.Some? {
        AllRestorable(c.env, orig, u, versions, doc.current.value);
      }
      if doc.published.Some? {
        AllRestorable(c.env, orig, u, versions, doc.published.value);
      }
    }
  }

  lemma PlansEveryRow(env: Env, orig: Instance, u: Unit, versions: seq<VersionPlan>)
    requires u.DocUnit? && Describes(orig, u) && PlannedRows(env, orig, u, versions) && |versions| == |u.rows|
    ensures forall i | 0 <= i < |versions| :: GoodVersion(env, orig, versions[i]) && versions[i].rec.vid.doc == u.id
    ensures forall v | v in orig.db.vers && v.doc == u.id :: exists i :: 0 <= i < |versions| && versions[i].rec.vid == v
  {
    hide GoodVersion;
    ListedRows(orig, u);
    forall v | v in orig.db.vers && v.doc == u.id
      ensures exists i :: 0 <= i < |versions| && versions[i].rec.vid == v
    {
      assert v in Serial.RowsOf(orig.db, u.id);
      assert v in Sums.SetOf(u.rows);
      var i :| 0 <= i < |u.rows| && u.rows[i] == v;
      assert versions[i].rec.vid == v;
    }
  }

  // ---- planning the page -----------------------------------------------------

  lemma {:induction false} PlanDocsPlus(c: Ctx, a: seq<Record>, b: seq<Record>, used: nat, plans: seq<DocPlan>)
    ensures PlanDocs(c, a + b, used, plans) == PlanDocs(c, b, used, PlanDocs(c, a, used, plans))
    decreases a
  {
    hide PlanDoc;
    if a == [] {
      assert a + b == b;
    } else {
      assert (a + b)[1..] == a[1..] + b;
      PlanDocsPlus(c, a[1..], b, used,
        if a[0].DocRecord? then plans + [PlanDoc(c, a[0].id, a[0].doc, used + Spending(plans), Held(plans))] else plans);
    }
  }

  lemma {:induction false} NoDocsPlanned(c: Ctx, recs: seq<Record>, used: nat, plans: seq<DocPlan>)
    requires forall i | 0 <= i < |recs| :: !recs[i].DocRecord?
    ensures PlanDocs(c, recs, used, plans) == plans
    decreases recs
  {
    hide PlanDoc;
    if recs != [] {
      NoDocsPlanned(c, recs[1..], used, plans);
    }
  }

  lemma {:induction false} VersionsAreNoDocs(orig: Instance, rows: seq<VerId>)
    requires forall i | 0 <= i < |rows| :: rows[i] in orig.db.vers && rows[i].doc in orig.db.docs
    ensures forall i | 0 <= i < |VersionsOf(orig, rows)| :: !VersionsOf(orig, rows)[i].DocRecord?
    decreases rows
  {
    hide VersionOf;
    if rows != [] {
      VersionsAreNoDocs(orig, rows[1..]);
    }
  }

  /** A unit's records add its document's plan and nothing else. */
  lemma UnitPlanned(c: Ctx, orig: Instance, u: Unit, used: nat, plans: seq<DocPlan>)
    requires Describes(orig, u)
    ensures PlanDocs(c, Emit(c.env, orig, u), used, plans) ==
              if u.DocUnit?
              then plans + [PlanDoc(c, u.id, u.doc.(tags := c.env.cleanTags(u.doc.tags)), used + Spending(plans), Held(plans))]
              else plans
  {
    hide PlanDoc, VersionsOf;
    if u.DocUnit? {
      ListedRows(orig, u);
      VersionsAreNoDocs(orig, u.rows);
      var first := Lead(c.env, u);
      PlanDocsPlus(c, [first], VersionsOf(orig, u.rows), used, plans);
      NoDocsPlanned(c, VersionsOf(orig, u.rows), used, PlanDocs(c, [first], used, plans));
      assert [first][1..] == [];
    } else {
      NoDocsPlanned(c, Emit(c.env, orig, u), used, plans);
    }
  }

  ghost function DocsOf(us: seq<Unit>): set<string> { set u | u in us && u.DocUnit? :: u.id }

  /** Used and promised bytes are those of the documents there and planned. */
  ghost predicate Account(c: Ctx, orig: Instance, plans: seq<DocPlan>) {
    && LiveRows(orig, c.inst.db.docs.Keys + PlanIds(plans)) <= orig.db.vers.Keys
    && Serial.UsedBytes(c.inst.db) + Spending(plans) ==
         Serial.SumOf(orig.db.vers, LiveRows(orig, c.inst.db.docs.Keys + PlanIds(plans)))
  }

  lemma AccountOpens(c: Ctx, orig: Instance, plans: seq<DocPlan>, u: Unit)
    requires Account(c, orig, plans) && u.DocUnit? && Describes(orig, u)
    ensures Budget(orig, c.inst.db.docs.Keys + PlanIds(plans), u, 0, Serial.UsedBytes(c.inst.db) + Spending(plans))
  {
    hide Serial.SumOf, Serial.UsedBytes;
    var ids := c.inst.db.docs.Keys + PlanIds(plans);
    assert RowsIn(orig, u, 0) == {};
    assert LiveRows(orig, ids) + {} == LiveRows(orig, ids);
  }

  lemma AccountCloses(c: Ctx, orig: Instance, plans: seq<DocPlan>, p: DocPlan, u: Unit)
    requires u.DocUnit? && Describes(orig, u) && p.id == u.id
    requires Budget(orig, c.inst.db.docs.Keys + PlanIds(plans), u, |u.rows|, Serial.UsedBytes(c.inst.db) + Spending(plans) + p.spent)
    ensures Account(c, orig, plans + [p])
  {
    hide Serial.SumOf, Serial.UsedBytes, LiveRows, RowsIn, Describes, Spending, PlanIds;
    var held, ids := c.inst.db.docs.Keys, c.inst.db.docs.Keys + PlanIds(plans);
    RowsJoin(orig, ids, u);
    SpendsOneMore(plans, p);
    JoinOne(held, PlanIds(plans), u.id);
  }

  lemma JoinOne(a: set<string>, b: set<string>, x: string)
    ensures a + (b + {x}) == a + b + {x}
  {
  }

  lemma SpendsOneMore(plans: seq<DocPlan>, p: DocPlan)
    ensures PlanIds(plans + [p]) == PlanIds(plans) + {p.id}
    ensures Spending(plans + [p]) == Spending(plans) + p.spent
  {
    assert (plans + [p])[..|plans|] == plans;
  }

  lemma RowsJoin(orig: Instance, ids: set<string>, u: Unit)
    requires u.DocUnit? && Describes(orig, u)
    ensures LiveRows(orig, ids) + RowsIn(orig, u, |u.rows|) == LiveRows(orig, ids + {u.id})
  {
    assert u.rows[..|u.rows|] == u.rows;
    forall v: VerId
      ensures v in LiveRows(orig, ids) + RowsIn(orig, u, |u.rows|) <==> v in LiveRows(orig, ids + {u.id})
    {
      assert v in Sums.SetOf(u.rows) <==> v in Serial.RowsOf(orig.db, u.id);
    }
  }

  /** The page's documents so far are all planned well. */
  ghost predicate PlannedSoFar(c: Ctx, orig: Instance, us: seq<Unit>, plans: seq<DocPlan>) {
    GoodPlans(c.env, orig, plans) && PlanIds(plans) == DocsOf(us) && Account(c, orig, plans)
    && (forall i, j | 0 <= i < j < |plans| :: plans[i].id != plans[j].id)
  }

  ghost predicate PageClear(c: Ctx, orig: Instance, page: seq<Unit>) {
    && AllDescribe(orig, page) && Distinct(page) && c.recs == EmitAll(c.env, orig, page)
    && Part(orig, c.inst) && Exportable(c.env, orig)
    && forall i | 0 <= i < |page| && page[i].DocUnit? :: DocClear(c, orig, page[i])
  }

  lemma UnitStep(c: Ctx, orig: Instance, page: seq<Unit>, k: nat, plans: seq<DocPlan>)
    requires PageClear(c, orig, page) && k < |page| && PlannedSoFar(c, orig, page[..k], plans)
    ensures PlannedSoFar(c, orig, page[..k + 1], PlanDocs(c, Emit(c.env, orig, page[k]), Serial.UsedBytes(c.inst.db), plans))
  {
    hide PlanDoc, GoodPlan, Account, Budget, Exportable, DocClear, Describes, Emit, EmitAll, RowRecs, VersionsFor, PlanDocs,
      Part, Held, Serial.UsedBytes;
    var u, used := page[k], Serial.UsedBytes(c.inst.db);
    UnitPlanned(c, orig, u, used, plans);
    assert page[..k + 1] == page[..k] + [u];
    if u.DocUnit? {
      assert u.id !in DocsOf(page[..k]) by { NotBefore(page, k); }
      VersionsForPage(c.env, orig, page, k);
      AccountOpens(c, orig, plans, u);
      ClearParts(c, orig, u);
      DocPlanned(c, orig, u, c.inst.db.docs.Keys + PlanIds(plans), used + Spending(plans), plans);
      var p := PlanDoc(c, u.id, u.doc.(tags := c.env.cleanTags(u.doc.tags)), used + Spending(plans), Held(plans));
      AccountCloses(c, orig, plans, p, u);
      assert PlanIds(plans + [p]) == PlanIds(plans) + {u.id};
      assert DocsOf(page[..k + 1]) == DocsOf(page[..k]) + {u.id};
      forall i | 0 <= i < |plans|
        ensures plans[i].id != u.id
      {
        assert plans[i] in plans && plans[i].id in PlanIds(plans);
      }
    } else {
      assert DocsOf(page[..k + 1]) == DocsOf(page[..k]);
    }
  }

  lemma ClearParts(c: Ctx, orig: Instance, u: Unit)
    requires u.DocUnit? && DocClear(c, orig, u)
    ensures u.id !in c.inst.db.docs
  {
  }

  lemma NotBefore(page: seq<Unit>, k: nat)
    requires Distinct(page) && k < |page| && page[k].DocUnit?
    ensures page[k].id !in DocsOf(page[..k])
  {
    forall i | 0 <= i < k && page[i].DocUnit?
      ensures page[i].id != page[k].id
    {
      assert page[i].In(Documents) && page[k].In(Documents);
    }
  }

  lemma {:induction false} PagePlanned(c: Ctx, orig: Instance, page: seq<Unit>, k: nat, plans: seq<DocPlan>)
    requires PageClear(c, orig, page) && k <= |page| && PlannedSoFar(c, orig, page[..k], plans)
    ensures PlannedSoFar(c, orig, page, PlanDocs(c, EmitAll(c.env, orig, page[k..]), Serial.UsedBytes(c.inst.db), plans))
    decreases |page| - k
  {
    hide PlanDocs, Emit, PageClear, PlannedSoFar, Describes, Serial.UsedBytes;
    AllDescribed(c, orig, page);
    var used := Serial.UsedBytes(c.inst.db);
    if k < |page| {
      UnitStep(c, orig, page, k, plans);
      assert page[k..][1..] == page[k + 1..];
      var one := Emit(c.env, orig, page[k]);
      PlanDocsPlus(c, one, EmitAll(c.env, orig, page[k + 1..]), used, plans);
      PagePlanned(c, orig, page, k + 1, PlanDocs(c, one, used, plans));
    } else {
      NoDocsPlanned(c, [], used, plans);
      assert page[..k] == page;
    }
  }

  lemma AllDescribed(c: Ctx, orig: Instance, page: seq<Unit>)
    requires PageClear(c, orig, page)
    ensures AllDescribe(orig, page)
  {
  }
}
