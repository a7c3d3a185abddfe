/** The outcome of a restored page, document by document: a document comes in whole
    and as recorded, replacing what there was, or stays and may gain versions it
    lacked, or nothing of it changes. */
module RestoreOutcome {
  import opened Records
  import opened D1
  import opened Writes
  import opened Corpus
  import opened Restore
  import opened RestoreContents
  import RestoreNames
  import RestoreRender
  import Serial
  import SlugHistory

  // ---- the parts of a page ---------------------------------------------------

  function Start(c: Ctx): Applied { Applied(WithPrincipals(c), {}) }

  /** The page's documents are planned once each, the plans are sound, and every
      batch of stray versions is of one document that is not on the page. */
  lemma PageParts(c: Ctx)
    requires Room(c) && RestoreNames.PageOk(c.recs)
    ensures RestoreNames.PlansOk(c, Plans(c))
    ensures forall i | 0 <= i < |Plans(c)| :: RestoreRender.PlanSound(c, Plans(c)[i]) && RestoreRender.SkipSound(c, Plans(c)[i])
    ensures
      var bs := StrayBatches(c);
      && EachOnce(bs) && (forall i | 0 <= i < |bs| :: Carries(c, bs[i]) && bs[i].doc !in DocIds(c.recs))
      && forall r | r in c.recs && r.VersionRecord? && r.version.vid.doc !in DocIds(c.recs) && r.version.vid.doc in c.inst.db.docs ::
           exists i :: 0 <= i < |bs| && bs[i].doc == r.version.vid.doc
  {
    hide PlanDocs, PlanStrays, Strays, Serial.UsedBytes, RestoreNames.PlansOk, RestoreRender.PlanSound, RestoreRender.SkipSound, Carries,
      RestoreNames.PageOk, EachOnce;
    var used := Serial.UsedBytes(c.inst.db);
    RestoreNames.NoPlans(c);
    RestoreNames.PlansFit(c, c.recs, used, []);
    RestoreRender.DocPlansAreSound(c, c.recs, used, []);
    RestoreRender.SkipsAreSound(c, c.recs, used, []);
    var ids := Strays(c.recs, DocIds(c.recs), []);
    StraysAre(c.recs, DocIds(c.recs), []);
    StraysStart(c, ids);
    StraysCarry(c, ids, used + Spending(Plans(c)), []);
  }

  /** Documents and strays together spend no more than the page's bytes. */
  lemma StraysStart(c: Ctx, ids: seq<string>)
    requires Room(c) && RestoreNames.PageOk(c.recs) && ids == Strays(c.recs, DocIds(c.recs), [])
    ensures StraysUnderway(c, ids, Serial.UsedBytes(c.inst.db) + Spending(Plans(c)), [])
  {
    hide Serial.UsedBytes, PlanDocs, DocIds, BytesIn, Strays, PageBytes, RestoreNames.PageOk;
    StraysAre(c.recs, DocIds(c.recs), []);
    var here, alone := DocIds(c.recs), set d | d in ids;
    BytesAdd(c.env, c.recs, here, alone);
    BytesAreOfPage(c.env, c.recs, here + alone);
    PageUnderway(c);
    PlansSpend(c, c.recs, Serial.UsedBytes(c.inst.db), []);
  }

  lemma {:induction false} PlansSpend(c: Ctx, recs: seq<Record>, used: nat, plans: seq<DocPlan>)
    requires Underway(c, recs, used, plans)
    ensures Spending(PlanDocs(c, recs, used, plans)) <= Spending(plans) + BytesIn(c.env, c.recs, DocIds(recs))
    decreases recs
  {
    hide PlanDoc, Underway, Planned, Held, Spending, BytesIn, DocIds;
    if recs != [] {
      OneSpends(c, recs, used, plans);
      if recs[0].DocRecord? {
        OnePlanned(c, recs, used, plans);
        PlansSpend(c, recs[1..], used, plans + [PlanDoc(c, recs[0].id, recs[0].doc, used + Spending(plans), Held(plans))]);
      } else {
        NoDocUnderway(c, recs, used, plans);
        PlansSpend(c, recs[1..], used, plans);
      }
    }
  }

  lemma OneSpends(c: Ctx, recs: seq<Record>, used: nat, plans: seq<DocPlan>)
    requires recs != [] && Underway(c, recs, used, plans)
    ensures
      if recs[0].DocRecord? then
        var p := PlanDoc(c, recs[0].id, recs[0].doc, used + Spending(plans), Held(plans));
        Spending(plans + [p]) + BytesIn(c.env, c.recs, DocIds(recs[1..])) <= Spending(plans) + BytesIn(c.env, c.recs, DocIds(recs))
      else DocIds(recs[1..]) == DocIds(recs)
  {
    hide PlanDoc, Binds, Promised, Planned, Weights, Held, Spending, BytesIn;
    HeadApart(recs);
    if recs[0].DocRecord? {
      var id, doc := recs[0].id, recs[0].doc;
      assert recs[0] in recs;
      BytesAdd(c.env, c.recs, {id}, DocIds(recs[1..]));
      BytesOfOne(c.env, c.recs, id);
      BoundIsPromised(c, id, plans);
      DocIsPlanned(c, id, doc, used + Spending(plans), Held(plans));
      SpendingPlus(plans, PlanDoc(c, id, doc, used + Spending(plans), Held(plans)));
    }
  }

  // ---- a document's turn -----------------------------------------------------

  lemma {:induction false} GainsConcat(a: seq<DocPlan>, b: seq<DocPlan>)
    ensures Gains(a + b) == Gains(a) + Gains(b)
    decreases a
  {
    if a == [] {
      assert a + b == b;
    } else {
      assert (a + b)[1..] == a[1..] + b;
      GainsConcat(a[1..], b);
    }
  }

  ghost predicate SkippedIn(plans: seq<DocPlan>, doc: string) {
    exists k :: 0 <= k < |plans| && plans[k].action.Skip? && plans[k].id == doc
  }

  lemma SkippedInMore(p: DocPlan, plans: seq<DocPlan>, doc: string)
    requires SkippedIn(plans, doc)
    ensures SkippedIn([p] + plans, doc)
  {
    var k :| 0 <= k < |plans| && plans[k].action.Skip? && plans[k].id == doc;
    assert ([p] + plans)[k + 1] == plans[k];
  }

  /** What is gained belongs to documents that are skipped. */
  lemma {:induction false} GainsAreSkipped(c: Ctx, plans: seq<DocPlan>)
    requires forall i | 0 <= i < |plans| :: RestoreRender.SkipSound(c, plans[i])
    ensures forall b | b in Gains(plans) :: Own(b.doc, b.plans) && SkippedIn(plans, b.doc)
    decreases plans
  {
    hide Own, RestoreRender.SkipSound, SkippedIn;
    if plans != [] {
      var rest := plans[1..];
      GainsAreSkipped(c, rest);
      assert plans == [plans[0]] + rest;
      forall b | b in Gains(plans)
        ensures Own(b.doc, b.plans) && SkippedIn(plans, b.doc)
      {
        if b in Gains(rest) {
          SkippedInMore(plans[0], rest, b.doc);
        } else {
          assert b.doc == plans[0].id && b.plans == plans[0].versions && plans[0].action.Skip?;
          SkipIsOwn(c, plans[0]);
          assert SkippedIn(plans, b.doc) by { SkippedHere(plans); }
        }
      }
    }
  }

  lemma SkippedHere(plans: seq<DocPlan>)
    requires plans != [] && plans[0].action.Skip?
    ensures SkippedIn(plans, plans[0].id)
  {
  }

  lemma SkipIsOwn(c: Ctx, p: DocPlan)
    requires RestoreRender.SkipSound(c, p) && p.action.Skip?
    ensures Own(p.id, p.versions)
  {
    hide RestoreRender.Sound;
  }

  /** None of these batches is of this document. */
  ghost predicate NotOf(bs: seq<Restore.Batch>, id: string) {
    forall i | 0 <= i < |bs| :: Own(bs[i].doc, bs[i].plans) && bs[i].doc != id
  }

  lemma OtherBatches(s: Setup, c: Ctx, a: Applied, bs: seq<Restore.Batch>, id: string)
    requires NotOf(bs, id)
    ensures Same(a.inst.db, ApplyBatches(s, a, bs).inst.db, id) && (id in ApplyBatches(s, a, bs).failed <==> id in a.failed)
  {
    hide Same, ApplyBatches, Own;
    BatchesElsewhere(s, a, bs, id);
  }

  lemma Split<T>(xs: seq<T>, k: nat)
    requires k < |xs|
    ensures xs == xs[..k] + ([xs[k]] + xs[k + 1..])
  {
  }

  lemma DocsAround(s: Setup, a: Applied, plans: seq<DocPlan>, k: nat)
    requires k < |plans|
    ensures ApplyDocs(s, a, plans) == ApplyDocs(s, ApplyDoc(s, ApplyDocs(s, a, plans[..k]), plans[k]), plans[k + 1..])
  {
    hide ApplyDoc;
    Split(plans, k);
    ApplyDocsConcat(s, a, plans[..k], [plans[k]] + plans[k + 1..]);
    assert ([plans[k]] + plans[k + 1..])[1..] == plans[k + 1..];
  }

  lemma BatchesAround(s: Setup, a: Applied, before: seq<Restore.Batch>, b: Restore.Batch, after: seq<Restore.Batch>)
    ensures ApplyBatches(s, a, before + [b] + after) == ApplyBatches(s, ApplyBatch(s, ApplyBatches(s, a, before), b), after)
  {
    hide ApplyBatch;
    assert before + [b] + after == before + ([b] + after);
    ApplyBatchesConcat(s, a, before, [b] + after);
    assert ([b] + after)[1..] == after;
  }

  /** Up to its own turn nothing of a document changes, and nothing after it. */
  lemma DocsTurn(s: Setup, c: Ctx, k: nat)
    requires RestoreNames.PlansOk(c, Plans(c)) && k < |Plans(c)|
    requires forall i | 0 <= i < |Plans(c)| :: RestoreRender.PlanSound(c, Plans(c)[i])
    ensures
      var plans := Plans(c);
      var a, id := ApplyDocs(s, Start(c), plans[..k]), plans[k].id;
      && Same(c.inst.db, a.inst.db, id) && id !in a.failed
      && Same(ApplyDoc(s, a, plans[k]).inst.db, ApplyDocs(s, Start(c), plans).inst.db, id)
      && (id in ApplyDocs(s, Start(c), plans).failed <==> id in ApplyDoc(s, a, plans[k]).failed)
  {
    hide PlanDocs, ApplyDocs, ApplyDoc, RestoreRender.PlanSound, Same, RestoreNames.NameFree, Serial.UsedBytes, RestoreAgents, RestoreKeys,
      RestoreClients;
    var plans := Plans(c);
    var a := ApplyDocs(s, Start(c), plans[..k]);
    DocsElsewhere(s, c, Start(c), plans[..k], plans[k].id);
    DocsAround(s, Start(c), plans, k);
    DocsElsewhere(s, c, ApplyDoc(s, a, plans[k]), plans[k + 1..], plans[k].id);
  }

  /** Tombstones come last and touch no document. */
  lemma TombsLast(s: Setup, c: Ctx, id: string)
    ensures
      var a := ApplyBatches(s, ApplyDocs(s, Start(c), Plans(c)), StrayBatches(c) + Gains(Plans(c)));
      var r := RestorePage(s, c.inst, c.recs, c.replace);
      c.env == s.env ==> Same(a.inst.db, r.inst.db, id) && r.failed == a.failed && r.inst.db.docs == a.inst.db.docs && r.inst.db.vers == a.inst.db.vers
  {
    hide PlanDocs, PlanStrays, ApplyDocs, ApplyBatches, RestoreTombs, Serial.UsedBytes, Gains, Held, Strays;
  }

  // ---- a document that comes in ----------------------------------------------

  lemma NoBatchOfIt(c: Ctx, k: nat)
    requires Room(c) && RestoreNames.PageOk(c.recs) && k < |Plans(c)| && !Plans(c)[k].action.Skip? && Plans(c)[k].id in DocIds(c.recs)
    ensures NotOf(StrayBatches(c) + Gains(Plans(c)), Plans(c)[k].id)
  {
    hide Plans, StrayBatches, Gains, Carries, RestoreRender.SkipSound, RestoreRender.PlanSound, Own, Room, RestoreNames.PageOk,
      RestoreNames.NameFree, DocIds;
    PageParts(c);
    GainsAreSkipped(c, Plans(c));
    var id, strays, bs := Plans(c)[k].id, StrayBatches(c), StrayBatches(c) + Gains(Plans(c));
    forall i | 0 <= i < |bs|
      ensures Own(bs[i].doc, bs[i].plans) && bs[i].doc != id
    {
      if i < |strays| {
        CarriesOwn(c, strays[i]);
      } else {
        assert bs[i] in Gains(Plans(c));
      }
    }
  }

  /** Restore does what its plans say of a document that is not skipped: what its own
      batch leaves is what the page leaves. */
  lemma PageLeaves(s: Setup, c: Ctx, id: string, doc: Doc) returns (p: DocPlan, a: Applied, k: nat)
    requires s.env == c.env && Room(c) && RestoreNames.PageOk(c.recs) && DocRecord(id, doc) in c.recs
    requires id in c.inst.db.docs && Agrees(c, id, doc) ==> c.replace
    ensures Planned(c, id, doc, p) && Same(c.inst.db, a.inst.db, id) && id !in a.failed
    ensures k < |Plans(c)| && p == Plans(c)[k] && a == ApplyDocs(s, Start(c), Plans(c)[..k])
    ensures
      var r := RestorePage(s, c.inst, c.recs, c.replace);
      && Same(ApplyDoc(s, a, p).inst.db, r.inst.db, id)
      && (id in r.failed <==> id in ApplyDoc(s, a, p).failed)
  {
    hide PlanDocs, StrayBatches, Gains, RestoreRender.SkipSound, RestoreRender.PlanSound, Own, Room, RestoreNames.PageOk, Same, AllTold,
      RestoreNames.PlansOk, ApplyDoc, ApplyDocs, ApplyBatches, RestorePage, NotOf, Agrees, Comes, Dropped, Underway, Serial.UsedBytes, Start,
      NameAsRecorded, VersionsFor;
    PageUnderway(c);
    k := RecordIsPlanned(c, c.recs, Serial.UsedBytes(c.inst.db), [], id, doc);
    p := Plans(c)[k];
    PageParts(c);
    DocsTurn(s, c, k);
    a := ApplyDocs(s, Start(c), Plans(c)[..k]);
    NoBatchOfIt(c, k);
    var mid := ApplyDocs(s, Start(c), Plans(c));
    var bs := StrayBatches(c) + Gains(Plans(c));
    OtherBatches(s, c, mid, bs, id);
    TombsLast(s, c, id);
    var end := ApplyBatches(s, mid, bs);
    var r := RestorePage(s, c.inst, c.recs, c.replace);
    SameTwice(mid.inst.db, end.inst.db, r.inst.db, id);
    SameTwice(ApplyDoc(s, a, p).inst.db, mid.inst.db, r.inst.db, id);
  }

  lemma SameKeepsRows(c: Ctx, db: Db, db': Db, id: string, doc: Doc, live: bool)
    requires Same(db, db', id) && id in db.docs && DocAsRecorded(c, id, doc, db.docs[id]) && RowsAfter(c, id, live, NewHere(c, id), db.vers)
    ensures id in db'.docs && DocAsRecorded(c, id, doc, db'.docs[id]) && RowsAfter(c, id, live, NewHere(c, id), db'.vers)
  {
    hide NameClear, AsRecorded, Last, First;
    forall vid: VerId | vid.doc == id
      ensures RowAfter(c, live, NewHere(c, id), db'.vers, vid)
    {
      assert RowAfter(c, live, NewHere(c, id), db.vers, vid);
    }
  }

  /** A document that comes in and does not fail is as its record says, and so are
      its versions; in place of one that was there, versions the page does not
      mention are gone. */
  lemma DocumentComesAsRecorded(s: Setup, inst: Instance, recs: seq<Record>, replace: bool, id: string, doc: Doc)
    requires RestoreNames.PageOk(recs) && DocRecord(id, doc) in recs
    requires Room(Ctx(s.env, inst, recs, replace)) && Comes(Ctx(s.env, inst, recs, replace), id, doc)
    requires id !in RestorePage(s, inst, recs, replace).failed
    ensures
      var c, db := Ctx(s.env, inst, recs, replace), RestorePage(s, inst, recs, replace).inst.db;
      && id in db.docs && DocAsRecorded(c, id, doc, db.docs[id])
      && RowsAfter(c, id, doc.Live(), NewHere(c, id), db.vers)
  {
    hide RestorePage, ApplyDoc, Room, RestoreNames.PageOk, Same, Agrees, Brings, AllTold, RowsAfter, DocAsRecorded, Dropped;
    var c := Ctx(s.env, inst, recs, replace);
    var p, a, _ := PageLeaves(s, c, id, doc);
    DocLands(s, c, a, p, id, doc);
    SameKeepsRows(c, ApplyDoc(s, a, p).inst.db, RestorePage(s, inst, recs, replace).inst.db, id, doc, doc.Live());
  }

  /** A document that cannot come in, neither in place of what there is nor anew,
      leaves everything of it as it was. */
  lemma DocumentStaysOut(s: Setup, inst: Instance, recs: seq<Record>, replace: bool, id: string, doc: Doc)
    requires RestoreNames.PageOk(recs) && DocRecord(id, doc) in recs && Room(Ctx(s.env, inst, recs, replace))
    requires !Comes(Ctx(s.env, inst, recs, replace), id, doc)
    requires id in inst.db.docs && Agrees(Ctx(s.env, inst, recs, replace), id, doc) ==> replace
    ensures
      var r := RestorePage(s, inst, recs, replace);
      Same(inst.db, r.inst.db, id) && id !in r.failed
  {
    hide RestorePage, Room, RestoreNames.PageOk, Agrees, Comes, AllTold, Same;
    var c := Ctx(s.env, inst, recs, replace);
    var p, a, _ := PageLeaves(s, c, id, doc);
    NotApplied(s, a, p);
    SameTwice(inst.db, a.inst.db, RestorePage(s, inst, recs, replace).inst.db, id);
  }

  // ---- a batch that goes through ---------------------------------------------

  lemma {:induction false} PlansAreRecords(c: Ctx, recs: seq<Record>, used: nat, plans: seq<DocPlan>)
    requires forall r | r in recs :: r in c.recs
    requires forall p | p in plans :: DocRecord(p.id, p.doc) in c.recs
    ensures forall p | p in PlanDocs(c, recs, used, plans) :: DocRecord(p.id, p.doc) in c.recs
    decreases recs
  {
    hide PlanDoc, Held, Spending;
    if recs != [] {
      assert recs[0] in recs && forall r | r in recs[1..] :: r in recs;
      if recs[0].DocRecord? {
        RestoreNames.PlanHasId(c, recs[0].id, recs[0].doc, used + Spending(plans), Held(plans));
        PlansAreRecords(c, recs[1..], used, plans + [PlanDoc(c, recs[0].id, recs[0].doc, used + Spending(plans), Held(plans))]);
      } else {
        PlansAreRecords(c, recs[1..], used, plans);
      }
    }
  }

  lemma AsPlannedSoFar(s: Setup, c: Ctx, k: nat)
    requires s.env == c.env && k <= |Plans(c)|
    ensures RestoreNames.AsPlanned(s, c, ApplyDocs(s, Start(c), Plans(c)[..k]).inst.db, Plans(c), k)
  {
    hide PlanDocs, ApplyDocs, DocFor, Serial.UsedBytes, RestoreAgents, RestoreKeys, RestoreClients;
    var sofar := Plans(c)[..k];
    assert sofar[0..] == sofar;
    RestoreNames.DocsAsPlanned(s, c, Start(c), sofar, 0);
    var db := ApplyDocs(s, Start(c), sofar).inst.db;
    forall d | d in db.docs && !(d in c.inst.db.docs && db.docs[d] == c.inst.db.docs[d])
      ensures exists i :: 0 <= i < k && Plans(c)[i].id == d && Plans(c)[i].action.Writes() && db.docs[d] == DocFor(s.env, Plans(c)[i])
    {
      var i :| 0 <= i < k && sofar[i].id == d && sofar[i].action.Writes() && db.docs[d] == DocFor(s.env, sofar[i]);
      assert Plans(c)[i] == sofar[i];
    }
  }

  /** No one else has the public id when the document's turn comes. */
  lemma PublicIdIsFree(s: Setup, c: Ctx, db: Db, k: nat, id: string, doc: Doc)
    requires k < |Plans(c)| && RestoreNames.AsPlanned(s, c, db, Plans(c), k) && Agrees(c, id, doc)
    requires forall r | r in c.recs && r.DocRecord? && r.id != id :: r.doc.publicId != doc.publicId
    ensures forall d | d in db.docs && d != id :: db.docs[d].publicId != doc.publicId
  {
    hide PlanDocs, Known, Serial.UsedBytes;
    PlansAreRecords(c, c.recs, Serial.UsedBytes(c.inst.db), []);
    forall d | d in db.docs && d != id
      ensures db.docs[d].publicId != doc.publicId
    {
      if !(d in c.inst.db.docs && db.docs[d] == c.inst.db.docs[d]) {
        var i :| 0 <= i < k && Plans(c)[i].id == d && Plans(c)[i].action.Writes() && db.docs[d] == DocFor(s.env, Plans(c)[i]);
        assert DocRecord(Plans(c)[i].id, Plans(c)[i].doc) in c.recs;
      }
    }
  }

  /** A document that comes in does not fail when D1 is there for it and no other
      record of the page claims its public id: the names are never in the way. */
  lemma DocumentGoesThrough(s: Setup, inst: Instance, recs: seq<Record>, replace: bool, id: string, doc: Doc)
    requires RestoreNames.PageOk(recs) && DocRecord(id, doc) in recs && SlugHistory.SlugsOk(inst.db)
    requires Room(Ctx(s.env, inst, recs, replace)) && Comes(Ctx(s.env, inst, recs, replace), id, doc)
    requires s.up(id) && forall r | r in recs && r.DocRecord? && r.id != id :: r.doc.publicId != doc.publicId
    ensures id !in RestorePage(s, inst, recs, replace).failed
  {
    hide RestorePage, Room, RestoreNames.PageOk, Same, Agrees, Brings, AllTold, Dropped, Plans, ApplyDoc, ApplyDocs, SlugHistory.SlugsOk,
      RestoreNames.AsPlanned, RestoreNames.PlansOk, Start, NameAsRecorded, SlugHeld;
    var c := Ctx(s.env, inst, recs, replace);
    var p, a, k := PageLeaves(s, c, id, doc);
    PageParts(c);
    AsPlannedSoFar(s, c, k);
    PublicIdIsFree(s, c, a.inst.db, k, id, doc);
    if p.slug.Some? {
      RestoreNames.NameIndexNeverFires(s, c, a.inst.db, Plans(c), k);
    }
    hide Planned;
    assert Unique(a.inst.db, id, DocFor(s.env, p));
    DocBatch(s, a, p);
  }

  // ---- a document that stays and gains ---------------------------------------

  lemma GainedOn(s: Setup, c: Ctx, id: string, a: Applied, a': Applied)
    requires id in c.inst.db.docs && Gained(s, c, id, a) && Same(a.inst.db, a'.inst.db, id) && (id in a.failed <==> id in a'.failed)
    ensures Gained(s, c, id, a')
  {
    hide AsRecorded, Last, First, Gaining;
    var live := c.inst.db.docs[id].Live();
    if s.up(id) {
      forall vid: VerId | vid.doc == id
        ensures RowAfter(c, live, true, a'.inst.db.vers, vid)
      {
        assert RowAfter(c, live, true, a.inst.db.vers, vid);
      }
    }
  }

  /** Among batches of which one is the document's, that one decides. */
  lemma OneBatchGains(s: Setup, c: Ctx, a: Applied, before: seq<Restore.Batch>, b: Restore.Batch, after: seq<Restore.Batch>)
    requires s.env == c.env && Carries(c, b) && Same(c.inst.db, a.inst.db, b.doc) && b.doc !in a.failed
    requires NotOf(before, b.doc) && NotOf(after, b.doc)
    ensures Gained(s, c, b.doc, ApplyBatches(s, a, before + [b] + after))
  {
    hide Same, NotOf, ApplyBatches, ApplyBatch, Gained, AllTold;
    BatchesAround(s, a, before, b, after);
    var one := ApplyBatches(s, a, before);
    OtherBatches(s, c, a, before, b.doc);
    SameTwice(c.inst.db, a.inst.db, one.inst.db, b.doc);
    BatchLands(s, c, one, b);
    OtherBatches(s, c, ApplyBatch(s, one, b), after, b.doc);
    GainedOn(s, c, b.doc, ApplyBatch(s, one, b), ApplyBatches(s, a, before + [b] + after));
  }

  /** Where no planned version is written, none of the page's comes in. */
  lemma NoneWritesNoneComes(c: Ctx, id: string, live: bool, plans: seq<VersionPlan>)
    requires AllTold(c, live, VersionsFor(c.recs, id), plans)
    requires forall i | 0 <= i < |plans| :: !plans[i].action.Writes()
    ensures !Gaining(c, id, live)
  {
    hide Taken, Last, First;
    var vs := VersionsFor(c.recs, id);
    assert forall i | 0 <= i < |vs| :: Told(c, live, plans[i]) && !Taken(c, live, vs[i]);
    forall vid: VerId | vid.doc == id
      ensures Last(c, live, c.recs, vid).None?
    {
      OfTheDocument(c, live, c.recs, vid);
      NoneTakenNoneLast(c, live, vs, vid);
    }
  }

  lemma {:induction false} NoneTakenNoneLast(c: Ctx, live: bool, vs: seq<VersionRec>, vid: VerId)
    requires forall i | 0 <= i < |vs| :: !Taken(c, live, vs[i])
    ensures LastOf(c, live, vs, vid).None?
    decreases vs
  {
    hide Taken;
    if vs != [] {
      NoneTakenNoneLast(c, live, vs[1..], vid);
    }
  }

  /** No batch of versions that came alone, or of skipped documents, is of one that
      is neither. */
  lemma StraysNotOf(c: Ctx, bs: seq<Restore.Batch>, id: string)
    requires forall i | 0 <= i < |bs| :: Carries(c, bs[i]) && bs[i].doc != id
    ensures NotOf(bs, id)
  {
    hide Carries, Own;
    forall i | 0 <= i < |bs|
      ensures Own(bs[i].doc, bs[i].plans)
    {
      CarriesOwn(c, bs[i]);
    }
  }

  lemma GainsNotOf(c: Ctx, plans: seq<DocPlan>, id: string)
    requires forall i | 0 <= i < |plans| :: RestoreRender.SkipSound(c, plans[i]) && plans[i].id != id
    ensures NotOf(Gains(plans), id)
  {
    hide Own, RestoreRender.SkipSound, Gains;
    GainsAreSkipped(c, plans);
    var bs := Gains(plans);
    forall i | 0 <= i < |bs|
      ensures Own(bs[i].doc, bs[i].plans) && bs[i].doc != id
    {
      assert bs[i] in bs;
      assert SkippedIn(plans, bs[i].doc);
    }
  }

  lemma NotOfBoth(a: seq<Restore.Batch>, b: seq<Restore.Batch>, id: string)
    requires NotOf(a, id) && NotOf(b, id)
    ensures NotOf(a + b, id)
  {
  }

  /** The batch of a document whose versions came without it, if there is one. */
  lemma ItsStrays(c: Ctx, id: string) returns (before: seq<Restore.Batch>, own: seq<Restore.Batch>, after: seq<Restore.Batch>)
    requires Room(c) && RestoreNames.PageOk(c.recs) && id in c.inst.db.docs && id !in DocIds(c.recs)
    ensures StrayBatches(c) + Gains(Plans(c)) == before + own + after && NotOf(before, id) && NotOf(after, id)
    ensures IsOwn(c, id, own)
  {
    hide NotOf, Gains, StrayBatches, Plans, Carries, RestoreRender.SkipSound, RestoreRender.PlanSound, Room, RestoreNames.PageOk,
      RestoreNames.PlansOk, Last, First;
    PageParts(c);
    var plans, strays, gains := Plans(c), StrayBatches(c), Gains(Plans(c));
    NoneOfItsPlans(c, id);
    GainsNotOf(c, plans, id);
    if m :| 0 <= m < |strays| && strays[m].doc == id {
      before, own, after := strays[..m], [strays[m]], strays[m + 1..] + gains;
      StraysNotOf(c, strays[..m], id);
      StraysNotOf(c, strays[m + 1..], id);
      NotOfBoth(strays[m + 1..], gains, id);
    } else {
      before, own, after := strays, [], gains;
      StraysNotOf(c, strays, id);
      forall vid: VerId | vid.doc == id
        ensures Last(c, c.inst.db.docs[id].Live(), c.recs, vid).None?
      {
        NothingComes(c, c.inst.db.docs[id].Live(), c.recs, vid);
      }
    }
  }

  /** At most one batch, of this document; none only if nothing of it comes in. */
  ghost predicate IsOwn(c: Ctx, id: string, own: seq<Restore.Batch>)
    requires id in c.inst.db.docs
  {
    |own| <= 1 && if |own| == 1 then own[0].doc == id && Carries(c, own[0]) else !Gaining(c, id, c.inst.db.docs[id].Live())
  }

  /** The batches of a page around a skipped document's own. */
  lemma AroundGain(c: Ctx, k: nat) returns (before: seq<Restore.Batch>, after: seq<Restore.Batch>)
    requires Room(c) && RestoreNames.PageOk(c.recs) && k < |Plans(c)| && Plans(c)[k].id in DocIds(c.recs)
    ensures StrayBatches(c) + Gains(Plans(c)) == before + Gains([Plans(c)[k]]) + after
    ensures NotOf(before, Plans(c)[k].id) && NotOf(after, Plans(c)[k].id)
  {
    hide NotOf, StrayBatches, Plans, Carries, RestoreRender.SkipSound, RestoreRender.PlanSound, Room, RestoreNames.PageOk,
      RestoreNames.NameFree, Gains, DocIds;
    PageParts(c);
    var plans, strays, id := Plans(c), StrayBatches(c), Plans(c)[k].id;
    StraysNotOf(c, strays, id);
    Split(plans, k);
    GainsConcat(plans[..k], [plans[k]] + plans[k + 1..]);
    GainsConcat([plans[k]], plans[k + 1..]);
    before, after := strays + Gains(plans[..k]), Gains(plans[k + 1..]);
    GainsNotOf(c, plans[..k], id);
    GainsNotOf(c, plans[k + 1..], id);
    NotOfBoth(strays, Gains(plans[..k]), id);
  }

  /** The batch of a document that is skipped, if there is one. */
  lemma ItsGain(c: Ctx, id: string, doc: Doc, k: nat) returns (before: seq<Restore.Batch>, own: seq<Restore.Batch>, after: seq<Restore.Batch>)
    requires Room(c) && RestoreNames.PageOk(c.recs) && id in c.inst.db.docs && id in DocIds(c.recs)
    requires k < |Plans(c)| && Planned(c, id, doc, Plans(c)[k]) && Plans(c)[k].action.Skip?
    ensures StrayBatches(c) + Gains(Plans(c)) == before + own + after && NotOf(before, id) && NotOf(after, id)
    ensures IsOwn(c, id, own)
  {
    hide NotOf, StrayBatches, Plans, Gains, Room, RestoreNames.PageOk, AllTold, Gaining, DocIds, Comes, Agrees, VersionsFor, NameAsRecorded;
    var p := Plans(c)[k];
    before, after := AroundGain(c, k);
    own := Gains([p]);
    GainsOne(p);
    if !(exists i :: 0 <= i < |p.versions| && p.versions[i].action.Writes()) {
      NoneWritesNoneComes(c, id, c.inst.db.docs[id].Live(), p.versions);
    }
  }

  lemma GainsOne(p: DocPlan)
    ensures Gains([p]) ==
              if p.action.Skip? && (exists i :: 0 <= i < |p.versions| && p.versions[i].action.Writes()) then [Restore.Batch(p.id, p.versions)] else []
  {
    assert [p][1..] == [] && Gains([]) == [];
  }

  /** No record of the page is about the document itself, or one is and it is not
      to replace what is there. */
  ghost predicate Stays(c: Ctx, id: string, doc: Doc) {
    || (forall r | r in c.recs && r.DocRecord? :: r.id != id)
    || (!c.replace && DocRecord(id, doc) in c.recs && Agrees(c, id, doc))
  }

  /** A document that stays is not planned, and has one batch at most. */
  lemma ItsBatch(c: Ctx, id: string, doc: Doc) returns (before: seq<Restore.Batch>, own: seq<Restore.Batch>, after: seq<Restore.Batch>)
    requires Room(c) && RestoreNames.PageOk(c.recs) && id in c.inst.db.docs && Stays(c, id, doc)
    ensures StrayBatches(c) + Gains(Plans(c)) == before + own + after && NotOf(before, id) && NotOf(after, id)
    ensures IsOwn(c, id, own)
    ensures forall i | 0 <= i < |Plans(c)| && Plans(c)[i].action.Writes() :: Plans(c)[i].id != id
  {
    hide Room, RestoreNames.PageOk, Agrees, Comes, AllTold, PlanDocs, StrayBatches, Gains, RestoreNames.PlansOk, RestoreRender.PlanSound,
      RestoreRender.SkipSound, Carries, Underway, Serial.UsedBytes, NotOf, IsOwn, EachOnce;
    if id in DocIds(c.recs) {
      PageParts(c);
      PageUnderway(c);
      var k := RecordIsPlanned(c, c.recs, Serial.UsedBytes(c.inst.db), [], id, doc);
      OthersAreOthers(c, k);
      before, own, after := ItsGain(c, id, doc, k);
    } else {
      NoneOfItsPlans(c, id);
      before, own, after := ItsStrays(c, id);
    }
  }

  /** A document that is there and is not replaced keeps its row. Its versions on
      the page that come in are as recorded, all others as they were; the document
      is reported as failed exactly when something was to come in and either D1 was
      not there for it or what is derived from a live document could not be
      written. */
  lemma VersionsAreGained(s: Setup, inst: Instance, recs: seq<Record>, replace: bool, id: string, doc: Doc)
    requires RestoreNames.PageOk(recs) && Room(Ctx(s.env, inst, recs, replace)) && id in inst.db.docs
    requires Stays(Ctx(s.env, inst, recs, replace), id, doc)
    ensures Gained(s, Ctx(s.env, inst, recs, replace), id, RestorePage(s, inst, recs, replace))
  {
    hide RestorePage, Room, RestoreNames.PageOk, Same, Stays, Gained, ApplyBatches, ApplyDocs, PlanDocs, StrayBatches, Gains, NotOf,
      RestoreNames.PlansOk, RestoreRender.PlanSound, RestoreRender.SkipSound, Carries, Serial.UsedBytes, RestoreAgents, RestoreKeys,
      RestoreClients, Gaining;
    var c := Ctx(s.env, inst, recs, replace);
    PageParts(c);
    var before, own, after := ItsBatch(c, id, doc);
    DocsElsewhere(s, c, Start(c), Plans(c), id);
    var mid := ApplyDocs(s, Start(c), Plans(c));
    var all := ApplyBatches(s, mid, before + own + after);
    if own == [] {
      assert before + [] + after == before + after;
      NotOfBoth(before, after, id);
      OtherBatches(s, c, mid, before + after, id);
      SameTwice(inst.db, mid.inst.db, all.inst.db, id);
      NothingGained(s, c, id, all);
    } else {
      assert own == [own[0]];
      OneBatchGains(s, c, mid, before, own[0], after);
    }
    TombsLast(s, c, id);
    GainedOn(s, c, id, all, RestorePage(s, inst, recs, replace));
  }

  lemma OthersAreOthers(c: Ctx, k: nat)
    requires RestoreNames.PlansOk(c, Plans(c)) && k < |Plans(c)| && Plans(c)[k].action.Skip?
    ensures forall i | 0 <= i < |Plans(c)| && Plans(c)[i].action.Writes() :: Plans(c)[i].id != Plans(c)[k].id
  {
    hide Plans, RestoreNames.NameFree;
  }

  lemma NoneOfItsPlans(c: Ctx, id: string)
    requires id !in DocIds(c.recs)
    ensures forall i | 0 <= i < |Plans(c)| :: Plans(c)[i].id != id
  {
    hide PlanDocs, Serial.UsedBytes;
    PlansAreRecords(c, c.recs, Serial.UsedBytes(c.inst.db), []);
    forall i | 0 <= i < |Plans(c)|
      ensures Plans(c)[i].id != id
    {
      assert Plans(c)[i] in Plans(c);
    }
  }

  // ---- the bytes -------------------------------------------------------------

  lemma {:induction false} LastIsPlanned(c: Ctx, live: bool, vs: seq<VersionRec>, plans: seq<VersionPlan>, vid: VerId) returns (i: nat)
    requires AllTold(c, live, vs, plans) && LastOf(c, live, vs, vid).Some?
    ensures i < |plans| && plans[i].rec == LastOf(c, live, vs, vid).value && plans[i].rec.vid == vid && plans[i].action.Writes()
    ensures Taken(c, live, plans[i].rec)
    decreases vs
  {
    hide Taken;
    assert Told(c, live, plans[0]);
    if LastOf(c, live, vs[1..], vid).Some? {
      i := LastIsPlanned(c, live, vs[1..], plans[1..], vid);
      i := i + 1;
    } else {
      i := 0;
    }
  }

  /** Each version of a live document that comes in has its bytes: the source the
      file carries, and the render made from it here. */
  lemma VersionsComeWithTheirBytes(s: Setup, inst: Instance, recs: seq<Record>, replace: bool, id: string, doc: Doc, vid: VerId)
    requires RestoreRender.Minting(s) && RestoreRender.Spent(s, RestoreRender.AllKeys(inst.db), inst.minted)
    requires RestoreNames.PageOk(recs) && DocRecord(id, doc) in recs && doc.Live()
    requires Room(Ctx(s.env, inst, recs, replace)) && Comes(Ctx(s.env, inst, recs, replace), id, doc)
    requires id !in RestorePage(s, inst, recs, replace).failed
    requires vid.doc == id && Last(Ctx(s.env, inst, recs, replace), true, recs, vid).Some?
    ensures
      var after, v := RestorePage(s, inst, recs, replace).inst, Last(Ctx(s.env, inst, recs, replace), true, recs, vid).value;
      && v.source.Some? && vid in after.db.vers
      && var row := after.db.vers[vid];
      && row.sKey.Some? && row.hKey in after.r2 && row.sKey.value in after.r2
      && after.r2[row.sKey.value] == v.source.value
      && after.r2[row.hKey] == s.env.RenderOf(v.source.value, v.row.format)
  {
    hide RestorePage, Room, RestoreNames.PageOk, Same, Agrees, Brings, AllTold, Dropped, Plans, ApplyDoc, ApplyDocs, Start, NameAsRecorded,
      RestoreRender.Minting, RestoreRender.Spent, RestoreRender.AllKeys, RestoreRender.PlanSound, RestoreRender.FromPage,
      RestoreRender.Recorded, RestoreRender.Backed, DocFor, Last, First, VersionsFor, DocAsRecorded;
    var c := Ctx(s.env, inst, recs, replace);
    var p, a, k := PageLeaves(s, c, id, doc);
    OfTheDocument(c, true, recs, vid);
    var i := LastIsPlanned(c, true, VersionsFor(recs, id), p.versions, vid);
    RestoreRender.PageIsBack(s, inst, recs, replace);
    var after := RestorePage(s, inst, recs, replace).inst;
    assert RestoreRender.Back(s, after, p, inst.minted);
    DocumentComesAsRecorded(s, inst, recs, replace, id, doc);
    assert RowAfter(c, true, NewHere(c, id), after.db.vers, vid);
    hide RestoreRender.Back;
    BackedBytes(s, c, after.r2, after.db.vers[vid], Last(c, true, recs, vid).value, inst.minted, after.minted);
  }

  lemma BackedBytes(s: Setup, c: Ctx, r2: map<Key, string>, row: Version, v: VersionRec, lo: nat, hi: nat)
    requires RestoreRender.Backed(s, r2, row, lo, hi) && AsRecorded(c, true, v, row) && Taken(c, true, v)
    ensures
      && v.source.Some? && row.sKey.Some? && row.hKey in r2 && row.sKey.value in r2
      && r2[row.sKey.value] == v.source.value && r2[row.hKey] == s.env.RenderOf(v.source.value, v.row.format)
  {
    hide Utf8Size, FitsScreen, Known;
  }
}
