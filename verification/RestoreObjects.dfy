/** The objects of a restored page: what a document's own batch stores and purges,
    and what it leaves behind. */
module RestoreObjects {
  import opened Records
  import opened D1
  import opened Writes
  import opened Corpus
  import opened Restore
  import opened RestoreContents
  import opened RestoreOutcome
  import RestoreNames
  import RestoreRender
  import Serial

  /** The row an object was stored for. */
  function RowOf(k: Key): VerId { VerId(k.doc, k.ver) }

  /** Every row names its own objects only, and every object there is, is named. */
  ghost predicate Tidy(inst: Instance) {
    && (forall v, k | v in inst.db.vers && k in inst.db.vers[v].Keys() :: RowOf(k) == v)
    && (forall k | k in inst.r2 :: RowOf(k) in inst.db.vers && k in inst.db.vers[RowOf(k)].Keys())
  }

  /** The key carries a nonce minted from `next` on. */
  ghost predicate Fresh(s: Setup, k: Key, next: nat) {
    exists n: nat :: n >= next && k.nonce == s.mint(n)
  }

  lemma FreshEarlier(s: Setup, k: Key, next: nat, before: nat)
    requires Fresh(s, k, next) && before <= next
    ensures Fresh(s, k, before)
  {
    var n: nat :| n >= next && k.nonce == s.mint(n);
    assert n >= before;
  }

  // ---- staging ---------------------------------------------------------------

  /** Bytes are stored for this version. */
  ghost predicate Stores(plans: seq<VersionPlan>, vid: VerId)
    decreases plans
  {
    plans != [] && ((plans[0].rec.vid == vid && plans[0].prep.Some?) || Stores(plans[1..], vid))
  }

  lemma {:induction false} StoresIs(c: Ctx, live: bool, vs: seq<VersionRec>, plans: seq<VersionPlan>, vid: VerId)
    requires AllTold(c, live, vs, plans)
    ensures Stores(plans, vid) <==> live && LastOf(c, live, vs, vid).Some?
    decreases vs
  {
    hide Taken;
    if vs != [] {
      assert plans[0].rec == vs[0] && Told(c, live, plans[0]);
      StoresIs(c, live, vs[1..], plans[1..], vid);
    }
  }

  /** The object was one of the version's own before. */
  ghost predicate WasIts(c: Ctx, k: Key) {
    RowOf(k) in c.inst.db.vers && k in c.inst.db.vers[RowOf(k)].Keys()
  }

  /** What staging does about one key. */
  ghost predicate KeyStaged(s: Setup, c: Ctx, plans: seq<VersionPlan>, st: Staged, st': Staged, k: Key) {
    && st.minted <= st'.minted
    && (k in st.newKeys ==> k in st'.newKeys)
    && (k in st'.newKeys ==> k in st.newKeys || (Stores(plans, RowOf(k)) && Fresh(s, k, st.minted)))
    && (k in st'.r2 <==> k in st.r2 || k in st'.newKeys)
    && (k in st.r2 && k !in st'.newKeys ==> st'.r2[k] == st.r2[k])
    && (k in st'.oldKeys <==> k in st.oldKeys || (Stores(plans, RowOf(k)) && WasIts(c, k)))
  }

  lemma OneKeyStaged(s: Setup, c: Ctx, live: bool, st: Staged, vp: VersionPlan, k: Key)
    requires Tidy(c.inst) && Told(c, live, vp) && (k in st.newKeys ==> k in st.r2)
    ensures KeyStaged(s, c, [vp], st, StageOne(s, st, vp), k)
  {
    hide Taken, RowFor, Utf8Size;
    assert [vp][1..] == [] && !Stores([], RowOf(k));
    if vp.action.Writes() && vp.prep.Some? {
      RestoreRender.StagedParts(s, st, vp);
      var vid := vp.rec.vid;
      assert Fresh(s, Key(vid.doc, vid.no, s.mint(st.minted), false), st.minted) && Fresh(s, Key(vid.doc, vid.no, s.mint(st.minted), true), st.minted);
    }
  }

  lemma {:induction false} KeysAreStaged(s: Setup, c: Ctx, live: bool, vs: seq<VersionRec>, plans: seq<VersionPlan>, st: Staged, k: Key)
    requires Tidy(c.inst) && AllTold(c, live, vs, plans) && (k in st.newKeys ==> k in st.r2)
    ensures KeyStaged(s, c, plans, st, Stage(s, plans, st), k)
    decreases vs
  {
    hide StageOne, Told, Tidy, WasIts, Fresh;
    if vs != [] {
      assert Told(c, live, plans[0]) && plans[0].rec == vs[0];
      var one := StageOne(s, st, plans[0]);
      OneKeyStaged(s, c, live, st, plans[0], k);
      assert [plans[0]][1..] == [] && !Stores([], RowOf(k));
      KeysAreStaged(s, c, live, vs[1..], plans[1..], one, k);
      var st' := Stage(s, plans, st);
      assert st' == Stage(s, plans[1..], one);
      if k in st'.newKeys && k !in one.newKeys {
        FreshEarlier(s, k, one.minted, st.minted);
      }
    }
  }

  // ---- one document ----------------------------------------------------------

  /** The objects of this document are the same. */
  ghost predicate SameObjects(r2: map<Key, string>, r2': map<Key, string>, id: string) {
    forall k: Key | k.doc == id :: (k in r2 <==> k in r2') && (k in r2 ==> r2'[k] == r2[k])
  }

  lemma SameObjectsTwice(a: map<Key, string>, b: map<Key, string>, d: map<Key, string>, id: string)
    requires SameObjects(a, b, id) && SameObjects(b, d, id)
    ensures SameObjects(a, d, id)
  {
  }

  /** A document that failed has just the objects it had. One that came in keeps
      those of rows the page mentions but stores no bytes for, loses all others it
      had, and has new ones only for versions that came in with bytes. */
  ghost predicate ObjectsAfter(c: Ctx, id: string, live: bool, failed: bool, r2: map<Key, string>) {
    forall k: Key | k.doc == id ::
      var comes := live && Last(c, live, c.recs, RowOf(k)).Some?;
      && (k in c.inst.r2 ==>
            && (k in r2 <==> failed || (!comes && (NewHere(c, id) || First(c.recs, RowOf(k)).Some?)))
            && (k in r2 ==> r2[k] == c.inst.r2[k]))
      && (k in r2 && k !in c.inst.r2 ==> !failed && comes)
  }

  /** What the batch of a document does to R2. */
  lemma DocObjects(s: Setup, a: Applied, p: DocPlan)
    requires p.action.Writes()
    ensures
      var a', st := ApplyDoc(s, a, p), Stage(s, p.versions, Unstaged(a.inst));
      && a'.inst.minted == st.minted
      && a'.failed == (if s.up(p.id) && Unique(a.inst.db, p.id, DocFor(s.env, p)) then a.failed else a.failed + {p.id})
      && a'.inst.r2 == (if s.up(p.id) && Unique(a.inst.db, p.id, DocFor(s.env, p)) then st.r2 - (st.oldKeys + p.extraKeys) else st.r2 - st.newKeys)
  {
    hide Unique, DocFor, Stage;
  }

  lemma ExtraIs(c: Ctx, id: string, doc: Doc, p: DocPlan, k: Key)
    requires Tidy(c.inst) && Planned(c, id, doc, p) && p.action.Writes()
    ensures k in p.extraKeys <==> !NewHere(c, id) && k.doc == id && WasIts(c, k) && First(c.recs, RowOf(k)).None?
  {
    hide AllTold, NameAsRecorded, Comes, Agrees, First, VersionsFor;
    if k in p.extraKeys {
      var v :| v in p.extra && v in c.inst.db.vers && k in c.inst.db.vers[v].Keys();
      assert RowOf(k) == v;
    }
    if !NewHere(c, id) && k.doc == id {
      DroppedIs(c, id, RowOf(k));
    }
  }

  lemma OneDocsObjects(s: Setup, c: Ctx, a: Applied, id: string, doc: Doc, p: DocPlan)
    requires s.env == c.env && Tidy(c.inst) && Planned(c, id, doc, p) && p.action.Writes()
    requires SameObjects(c.inst.r2, a.inst.r2, id) && id !in a.failed && c.inst.minted <= a.inst.minted
    requires RestoreRender.Spent(s, c.inst.r2.Keys, c.inst.minted)
    ensures ObjectsAfter(c, id, doc.Live(), id in ApplyDoc(s, a, p).failed, ApplyDoc(s, a, p).inst.r2)
  {
    hide Stage, AllTold, NameAsRecorded, Comes, Agrees, First, Last, ApplyDoc, VersionsFor, Unique, DocFor, LastOf, Planned;
    var st0 := Unstaged(a.inst);
    var st, vs := Stage(s, p.versions, st0), VersionsFor(c.recs, id);
    var a' := ApplyDoc(s, a, p);
    PlannedParts(c, id, doc, p);
    DocObjects(s, a, p);
    forall k: Key | k.doc == id
      ensures
        var comes := doc.Live() && Last(c, doc.Live(), c.recs, RowOf(k)).Some?;
        && (k in c.inst.r2 ==>
              && (k in a'.inst.r2 <==> id in a'.failed || (!comes && (NewHere(c, id) || First(c.recs, RowOf(k)).Some?)))
              && (k in a'.inst.r2 ==> a'.inst.r2[k] == c.inst.r2[k]))
        && (k in a'.inst.r2 && k !in c.inst.r2 ==> id !in a'.failed && comes)
    {
      OfTheDocument(c, doc.Live(), c.recs, RowOf(k));
      StoresIs(c, doc.Live(), vs, p.versions, RowOf(k));
      KeysAreStaged(s, c, doc.Live(), vs, p.versions, st0, k);
      ExtraIs(c, id, doc, p, k);
      if k in st.newKeys {
        FreshEarlier(s, k, a.inst.minted, c.inst.minted);
      }
    }
  }

  lemma PlannedParts(c: Ctx, id: string, doc: Doc, p: DocPlan)
    requires Planned(c, id, doc, p) && p.action.Writes()
    ensures p.id == id && AllTold(c, doc.Live(), VersionsFor(c.recs, id), p.versions)
  {
    hide AllTold;
  }

  // ---- what is not about a document ------------------------------------------

  lemma {:induction false} StoresOwn(id: string, plans: seq<VersionPlan>, vid: VerId)
    requires Own(id, plans) && Stores(plans, vid)
    ensures vid.doc == id
    decreases plans
  {
    if !(plans[0].rec.vid == vid && plans[0].prep.Some?) {
      assert Own(id, plans[1..]);
      StoresOwn(id, plans[1..], vid);
    }
  }

  /** Staging the versions of one document is not about another's objects. */
  lemma OthersKey(s: Setup, c: Ctx, live: bool, owner: string, vs: seq<VersionRec>, plans: seq<VersionPlan>, st: Staged, k: Key)
    requires Tidy(c.inst) && AllTold(c, live, vs, plans) && Own(owner, plans) && k.doc != owner && st.newKeys == {} && st.oldKeys == {}
    ensures
      var st' := Stage(s, plans, st);
      && k !in st'.newKeys && k !in st'.oldKeys && st.minted <= st'.minted
      && (k in st'.r2 <==> k in st.r2) && (k in st.r2 ==> st'.r2[k] == st.r2[k])
  {
    hide AllTold, Stage, Own, Fresh, WasIts, Tidy;
    KeysAreStaged(s, c, live, vs, plans, st, k);
    if Stores(plans, RowOf(k)) {
      StoresOwn(owner, plans, RowOf(k));
    }
  }

  lemma PlannedOwn(c: Ctx, id: string, doc: Doc, p: DocPlan)
    requires Planned(c, id, doc, p) && p.action.Writes()
    ensures Own(id, p.versions)
  {
    hide Told, NameAsRecorded, Comes, Agrees;
    RestoreRender.VersionsAreOf(c.recs, id);
  }

  lemma DocKeepsObjects(s: Setup, c: Ctx, a: Applied, p: DocPlan, id: string)
    requires Tidy(c.inst) && Planned(c, p.id, p.doc, p) && p.action.Writes() && p.id != id
    ensures SameObjects(a.inst.r2, ApplyDoc(s, a, p).inst.r2, id) && a.inst.minted <= ApplyDoc(s, a, p).inst.minted
  {
    hide Stage, ApplyDoc, Own, Unique, DocFor, Planned, Tidy, AllTold, VersionsFor;
    PlannedParts(c, p.id, p.doc, p);
    PlannedOwn(c, p.id, p.doc, p);
    DocObjects(s, a, p);
    var vs, st := VersionsFor(c.recs, p.id), Stage(s, p.versions, Unstaged(a.inst));
    forall k: Key | k.doc == id
      ensures k !in st.newKeys && k !in st.oldKeys && k !in p.extraKeys && st.minted >= a.inst.minted
      ensures (k in st.r2 <==> k in a.inst.r2) && (k in a.inst.r2 ==> st.r2[k] == a.inst.r2[k])
    {
      OthersKey(s, c, p.doc.Live(), p.id, vs, p.versions, Unstaged(a.inst), k);
      ExtraIs(c, p.id, p.doc, p, k);
    }
    assert st.minted >= a.inst.minted by {
      OthersKey(s, c, p.doc.Live(), p.id, vs, p.versions, Unstaged(a.inst), Key(id, 0, "", false));
    }
  }

  lemma {:induction false} DocsKeepObjects(s: Setup, c: Ctx, a: Applied, plans: seq<DocPlan>, id: string)
    requires Tidy(c.inst)
    requires forall i | 0 <= i < |plans| :: Planned(c, plans[i].id, plans[i].doc, plans[i]) && (plans[i].action.Writes() ==> plans[i].id != id)
    ensures SameObjects(a.inst.r2, ApplyDocs(s, a, plans).inst.r2, id) && a.inst.minted <= ApplyDocs(s, a, plans).inst.minted
    decreases plans
  {
    hide Tidy, ApplyDoc, Planned, SameObjects;
    if plans == [] {
      SameObjectsSelf(a.inst.r2, id);
    } else {
      var a' := ApplyDoc(s, a, plans[0]);
      if plans[0].action.Writes() {
        DocKeepsObjects(s, c, a, plans[0], id);
      } else {
        NotApplied(s, a, plans[0]);
        SameObjectsSelf(a.inst.r2, id);
      }
      DocsKeepObjects(s, c, a', plans[1..], id);
      SameObjectsTwice(a.inst.r2, a'.inst.r2, ApplyDocs(s, a', plans[1..]).inst.r2, id);
    }
  }

  lemma SameObjectsSelf(r2: map<Key, string>, id: string)
    ensures SameObjects(r2, r2, id)
  {
  }

  /** What a batch of versions does to R2. */
  lemma BatchObjects(s: Setup, a: Applied, b: Restore.Batch)
    ensures
      var a', st := ApplyBatch(s, a, b), Stage(s, b.plans, Unstaged(a.inst));
      && a'.inst.minted == st.minted
      && (a'.inst.r2 == st.r2 - st.newKeys || a'.inst.r2 == st.r2 - st.oldKeys || a'.inst.r2 == st.r2 - st.oldKeys - st.newKeys)
  {
    hide Stage;
    var st := Stage(s, b.plans, Unstaged(a.inst));
    assert st.r2 - st.oldKeys - {} == st.r2 - st.oldKeys;
  }

  lemma BatchKeepsObjects(s: Setup, c: Ctx, a: Applied, b: Restore.Batch, id: string)
    requires Tidy(c.inst) && Carries(c, b) && b.doc != id
    ensures SameObjects(a.inst.r2, ApplyBatch(s, a, b).inst.r2, id)
  {
    hide Stage, ApplyBatch, Own, Tidy, AllTold;
    CarriesOwn(c, b);
    BatchObjects(s, a, b);
    forall k: Key | k.doc == id
      ensures
        var st := Stage(s, b.plans, Unstaged(a.inst));
        && k !in st.newKeys && k !in st.oldKeys
        && (k in st.r2 <==> k in a.inst.r2) && (k in a.inst.r2 ==> st.r2[k] == a.inst.r2[k])
    {
      OthersKey(s, c, c.inst.db.docs[b.doc].Live(), b.doc, VersionsFor(c.recs, b.doc), b.plans, Unstaged(a.inst), k);
    }
  }

  lemma {:induction false} BatchesKeepObjects(s: Setup, c: Ctx, a: Applied, bs: seq<Restore.Batch>, id: string)
    requires Tidy(c.inst) && forall i | 0 <= i < |bs| :: Carries(c, bs[i]) && bs[i].doc != id
    ensures SameObjects(a.inst.r2, ApplyBatches(s, a, bs).inst.r2, id)
    decreases bs
  {
    hide Tidy, ApplyBatch, Carries, SameObjects;
    if bs == [] {
      SameObjectsSelf(a.inst.r2, id);
    } else {
      var a' := ApplyBatch(s, a, bs[0]);
      BatchKeepsObjects(s, c, a, bs[0], id);
      BatchesKeepObjects(s, c, a', bs[1..], id);
      SameObjectsTwice(a.inst.r2, a'.inst.r2, ApplyBatches(s, a', bs[1..]).inst.r2, id);
    }
  }

  // ---- the page --------------------------------------------------------------

  lemma {:induction false} AllPlanned(c: Ctx, recs: seq<Record>, used: nat, plans: seq<DocPlan>)
    requires Underway(c, recs, used, plans) && forall p | p in plans :: Planned(c, p.id, p.doc, p)
    ensures forall p | p in PlanDocs(c, recs, used, plans) :: Planned(c, p.id, p.doc, p)
    decreases recs
  {
    hide PlanDoc, Underway, Planned, Held, Spending;
    if recs != [] {
      if recs[0].DocRecord? {
        OnePlanned(c, recs, used, plans);
        var p := PlanDoc(c, recs[0].id, recs[0].doc, used + Spending(plans), Held(plans));
        RestoreNames.PlanHasId(c, recs[0].id, recs[0].doc, used + Spending(plans), Held(plans));
        AllPlanned(c, recs[1..], used, plans + [p]);
      } else {
        NoDocUnderway(c, recs, used, plans);
        AllPlanned(c, recs[1..], used, plans);
      }
    }
  }

  lemma {:induction false} GainsCarry(c: Ctx, plans: seq<DocPlan>)
    requires forall i | 0 <= i < |plans| :: Planned(c, plans[i].id, plans[i].doc, plans[i])
    ensures forall b | b in Gains(plans) :: Carries(c, b)
    decreases plans
  {
    hide Planned, Carries;
    if plans != [] {
      GainsCarry(c, plans[1..]);
      if plans[0].action.Skip? {
        SkipCarries(c, plans[0]);
      }
    }
  }

  lemma SkipCarries(c: Ctx, p: DocPlan)
    requires Planned(c, p.id, p.doc, p) && p.action.Skip?
    ensures Carries(c, Restore.Batch(p.id, p.versions))
  {
    hide AllTold, Agrees, Comes, NameAsRecorded;
  }

  /** All batches of a page carry versions of documents that stay. */
  lemma PageCarries(c: Ctx)
    requires Room(c) && RestoreNames.PageOk(c.recs)
    ensures forall i | 0 <= i < |Plans(c)| :: Planned(c, Plans(c)[i].id, Plans(c)[i].doc, Plans(c)[i])
    ensures
      var bs := StrayBatches(c) + Gains(Plans(c));
      forall i | 0 <= i < |bs| :: Carries(c, bs[i])
  {
    hide PlanDocs, StrayBatches, Gains, Carries, Planned, Underway, Room, RestoreNames.PageOk, RestoreNames.PlansOk, RestoreRender.PlanSound,
      RestoreRender.SkipSound, EachOnce, Serial.UsedBytes;
    PageUnderway(c);
    AllPlanned(c, c.recs, Serial.UsedBytes(c.inst.db), []);
    var plans := Plans(c);
    forall i | 0 <= i < |plans|
      ensures Planned(c, plans[i].id, plans[i].doc, plans[i])
    {
      assert plans[i] in plans;
    }
    PageParts(c);
    GainsCarry(c, plans);
    var strays, gains := StrayBatches(c), Gains(plans);
    forall i | 0 <= i < |strays + gains|
      ensures Carries(c, (strays + gains)[i])
    {
      if i >= |strays| {
        assert (strays + gains)[i] in gains;
      }
    }
  }

  lemma TombsTouchNoObject(s: Setup, c: Ctx)
    requires c.env == s.env
    ensures RestorePage(s, c.inst, c.recs, c.replace).inst.r2 ==
            ApplyBatches(s, ApplyDocs(s, Start(c), Plans(c)), StrayBatches(c) + Gains(Plans(c))).inst.r2
  {
    hide PlanDocs, PlanStrays, ApplyDocs, ApplyBatches, RestoreTombs, Serial.UsedBytes, Gains, Held, Strays;
  }

  lemma ObjectsTurn(s: Setup, c: Ctx, k: nat, id: string)
    requires s.env == c.env && Room(c) && RestoreNames.PageOk(c.recs) && Tidy(c.inst) && k < |Plans(c)| && Plans(c)[k].id == id
    requires id in DocIds(c.recs) && Plans(c)[k].action.Writes()
    ensures
      var plans := Plans(c);
      var a := ApplyDocs(s, Start(c), plans[..k]);
      && SameObjects(c.inst.r2, a.inst.r2, id) && c.inst.minted <= a.inst.minted
      && SameObjects(ApplyDoc(s, a, plans[k]).inst.r2, RestorePage(s, c.inst, c.recs, c.replace).inst.r2, id)
  {
    hide Plans, StrayBatches, Gains, Carries, Planned, Room, RestoreNames.PageOk, RestoreNames.NameFree, RestoreRender.PlanSound,
      RestoreRender.SkipSound, EachOnce, SameObjects, Tidy, ApplyDoc, ApplyDocs, ApplyBatches, RestorePage, RestoreAgents, RestoreKeys,
      RestoreClients, Own;
    var plans, bs := Plans(c), StrayBatches(c) + Gains(Plans(c));
    PageCarries(c);
    PageParts(c);
    NoBatchOfIt(c, k);
    var a := ApplyDocs(s, Start(c), plans[..k]);
    DocsKeepObjects(s, c, Start(c), plans[..k], id);
    DocsAround(s, Start(c), plans, k);
    var mid := ApplyDocs(s, Start(c), plans);
    DocsKeepObjects(s, c, ApplyDoc(s, a, plans[k]), plans[k + 1..], id);
    BatchesKeepObjects(s, c, mid, bs, id);
    TombsTouchNoObject(s, c);
    SameObjectsTwice(ApplyDoc(s, a, plans[k]).inst.r2, mid.inst.r2, RestorePage(s, c.inst, c.recs, c.replace).inst.r2, id);
  }

  lemma ObjectsCarryOver(c: Ctx, id: string, live: bool, failed: bool, r2: map<Key, string>, r2': map<Key, string>)
    requires ObjectsAfter(c, id, live, failed, r2) && SameObjects(r2, r2', id)
    ensures ObjectsAfter(c, id, live, failed, r2')
  {
    hide First, Last;
  }

  /** The objects of a document that was to come in: when it failed, those it had;
      when not, new ones only for versions that came in with their bytes, and of the
      old ones just those of rows the page mentions without storing bytes for. */
  lemma ObjectsOfTheDocument(s: Setup, inst: Instance, recs: seq<Record>, replace: bool, id: string, doc: Doc)
    requires Tidy(inst) && RestoreRender.Spent(s, inst.r2.Keys, inst.minted)
    requires RestoreNames.PageOk(recs) && DocRecord(id, doc) in recs
    requires Room(Ctx(s.env, inst, recs, replace)) && Comes(Ctx(s.env, inst, recs, replace), id, doc)
    ensures
      var r := RestorePage(s, inst, recs, replace);
      ObjectsAfter(Ctx(s.env, inst, recs, replace), id, doc.Live(), id in r.failed, r.inst.r2)
  {
    hide RestorePage, Room, RestoreNames.PageOk, Same, Agrees, Brings, AllTold, Dropped, Plans, ApplyDoc, ApplyDocs, Start, NameAsRecorded, Tidy,
      ObjectsAfter, SameObjects, RestoreRender.Spent;
    var c := Ctx(s.env, inst, recs, replace);
    var p, a, k := PageLeaves(s, c, id, doc);
    ObjectsTurn(s, c, k, id);
    OneDocsObjects(s, c, a, id, doc, p);
    ObjectsCarryOver(c, id, doc.Live(), id in ApplyDoc(s, a, p).failed, ApplyDoc(s, a, p).inst.r2, RestorePage(s, inst, recs, replace).inst.r2);
  }

  /** Replacing a live document by the record of its revoked self does not purge it:
      every object of a version the page mentions stays, although the document is
      revoked afterwards and no row names it. */
  lemma RevokedRecordKeepsObjects(s: Setup, inst: Instance, recs: seq<Record>, id: string, doc: Doc, k: Key, v: VersionRec)
    requires Tidy(inst) && RestoreRender.Spent(s, inst.r2.Keys, inst.minted)
    requires RestoreNames.PageOk(recs) && DocRecord(id, doc) in recs && !doc.Live() && Serial.IsLive(inst.db, id)
    requires Room(Ctx(s.env, inst, recs, true)) && Comes(Ctx(s.env, inst, recs, true), id, doc)
    requires id !in RestorePage(s, inst, recs, true).failed
    requires k in inst.r2 && k.doc == id && VersionRecord(v) in recs && v.vid == RowOf(k) && k !in v.row.Keys()
    requires (forall r | r in recs && r.VersionRecord? && r.version.vid == v.vid :: r.version == v)
    requires v.row.authorAgent.Some? ==> Known(Ctx(s.env, inst, recs, true), v.row.authorAgent.value)
    ensures
      var after := RestorePage(s, inst, recs, true).inst;
      && !Serial.IsLive(after.db, id) && k in after.r2 && after.r2[k] == inst.r2[k]
      && RowOf(k) in after.db.vers && k !in after.db.vers[RowOf(k)].Keys()
  {
    hide RestorePage, Room, RestoreNames.PageOk, Agrees, Brings, Tidy, RestoreRender.Spent, NameClear, Known, First, Last;
    var c := Ctx(s.env, inst, recs, true);
    ObjectsOfTheDocument(s, inst, recs, true, id, doc);
    DocumentComesAsRecorded(s, inst, recs, true, id, doc);
    SoleRecord(c, false, recs, v);
    assert RowAfter(c, false, NewHere(c, id), RestorePage(s, inst, recs, true).inst.db.vers, RowOf(k));
  }

  // ---- a document that stays -------------------------------------------------

  /** Of a document that stays, nothing is purged but what a version that came in
      replaced, and there is nothing new unless the document did not fail. */
  ghost predicate ObjectsGained(s: Setup, c: Ctx, id: string, failed: bool, r2: map<Key, string>)
    requires id in c.inst.db.docs
  {
    forall k: Key | k.doc == id ::
      var live := c.inst.db.docs[id].Live();
      var comes := live && Last(c, live, c.recs, RowOf(k)).Some?;
      && (k in c.inst.r2 ==> (k in r2 <==> !s.up(id) || !comes) && (k in r2 ==> r2[k] == c.inst.r2[k]))
      && (k in r2 && k !in c.inst.r2 ==> !failed && comes)
  }

  /** Which of the three outcomes of a batch leaves what in R2. */
  lemma BatchOutcome(s: Setup, a: Applied, b: Restore.Batch)
    requires b.doc in a.inst.db.docs && b.doc !in a.failed
    ensures
      var a', st := ApplyBatch(s, a, b), Stage(s, b.plans, Unstaged(a.inst));
      var lands, failed := st.rows == map[] || s.up(b.doc), b.doc in a'.failed;
      a'.inst.r2 == if !lands then st.r2 - st.newKeys else if failed then st.r2 - st.oldKeys - st.newKeys else st.r2 - st.oldKeys
  {
    hide Stage;
    var st := Stage(s, b.plans, Unstaged(a.inst));
    assert st.r2 - st.oldKeys - {} == st.r2 - st.oldKeys;
  }

  lemma OneBatchsObjects(s: Setup, c: Ctx, a: Applied, b: Restore.Batch)
    requires s.env == c.env && Tidy(c.inst) && Carries(c, b) && Same(c.inst.db, a.inst.db, b.doc) && b.doc !in a.failed
    requires SameObjects(c.inst.r2, a.inst.r2, b.doc) && c.inst.minted <= a.inst.minted && RestoreRender.Spent(s, c.inst.r2.Keys, c.inst.minted)
    ensures ObjectsGained(s, c, b.doc, b.doc in ApplyBatch(s, a, b).failed, ApplyBatch(s, a, b).inst.r2)
  {
    hide Stage, AllTold, First, Last, ApplyBatch, VersionsFor, LastOf, AsRecorded;
    var st0, live, vs := Unstaged(a.inst), c.inst.db.docs[b.doc].Live(), VersionsFor(c.recs, b.doc);
    var st, a' := Stage(s, b.plans, st0), ApplyBatch(s, a, b);
    BatchOutcome(s, a, b);
    forall k: Key | k.doc == b.doc
      ensures
        var comes := live && Last(c, live, c.recs, RowOf(k)).Some?;
        && (k in c.inst.r2 ==> (k in a'.inst.r2 <==> !s.up(b.doc) || !comes) && (k in a'.inst.r2 ==> a'.inst.r2[k] == c.inst.r2[k]))
        && (k in a'.inst.r2 && k !in c.inst.r2 ==> b.doc !in a'.failed && comes)
    {
      OfTheDocument(c, live, c.recs, RowOf(k));
      StoresIs(c, live, vs, b.plans, RowOf(k));
      KeysAreStaged(s, c, live, vs, b.plans, st0, k);
      BatchRow(s, c, a, b, RowOf(k));
      if k in st.newKeys {
        FreshEarlier(s, k, a.inst.minted, c.inst.minted);
      }
      if st.rows != map[] && !s.up(b.doc) {
        Refused(s, a, b);
      }
    }
  }

  lemma Refused(s: Setup, a: Applied, b: Restore.Batch)
    requires Stage(s, b.plans, Unstaged(a.inst)).rows != map[] && !s.up(b.doc)
    ensures b.doc in ApplyBatch(s, a, b).failed
  {
    hide Stage;
  }

  lemma GainedCarryOver(s: Setup, c: Ctx, id: string, failed: bool, r2: map<Key, string>, r2': map<Key, string>)
    requires id in c.inst.db.docs && ObjectsGained(s, c, id, failed, r2) && SameObjects(r2, r2', id)
    ensures ObjectsGained(s, c, id, failed, r2')
  {
    hide Last;
  }

  lemma NothingGainedNothingStored(s: Setup, c: Ctx, id: string, failed: bool, r2: map<Key, string>)
    requires id in c.inst.db.docs && SameObjects(c.inst.r2, r2, id) && !Gaining(c, id, c.inst.db.docs[id].Live())
    ensures ObjectsGained(s, c, id, failed, r2)
  {
    hide Last;
    forall k: Key | k.doc == id
      ensures Last(c, c.inst.db.docs[id].Live(), c.recs, RowOf(k)).None?
    {
      assert RowOf(k).doc == id;
    }
  }

  lemma CarriesApart(c: Ctx, bs: seq<Restore.Batch>, part: seq<Restore.Batch>, id: string)
    requires (forall i | 0 <= i < |bs| :: Carries(c, bs[i])) && (forall b | b in part :: b in bs) && NotOf(part, id)
    ensures forall i | 0 <= i < |part| :: Carries(c, part[i]) && part[i].doc != id
  {
    hide Carries, Own;
    forall i | 0 <= i < |part|
      ensures Carries(c, part[i])
    {
      assert part[i] in bs;
    }
  }

  lemma OneBatchsTurn(s: Setup, c: Ctx, a: Applied, before: seq<Restore.Batch>, b: Restore.Batch, after: seq<Restore.Batch>)
    requires s.env == c.env && Tidy(c.inst) && Carries(c, b) && Same(c.inst.db, a.inst.db, b.doc) && b.doc !in a.failed
    requires SameObjects(c.inst.r2, a.inst.r2, b.doc) && c.inst.minted <= a.inst.minted && RestoreRender.Spent(s, c.inst.r2.Keys, c.inst.minted)
    requires NotOf(before, b.doc) && NotOf(after, b.doc)
    requires forall i | 0 <= i < |before| :: Carries(c, before[i]) && before[i].doc != b.doc
    requires forall i | 0 <= i < |after| :: Carries(c, after[i]) && after[i].doc != b.doc
    ensures
      var all := ApplyBatches(s, a, before + [b] + after);
      ObjectsGained(s, c, b.doc, b.doc in all.failed, all.inst.r2)
  {
    assert b.doc in c.inst.db.docs;
    hide Same, NotOf, ApplyBatches, ApplyBatch, Carries, SameObjects, ObjectsGained, Tidy, RestoreRender.Spent;
    BatchesAround(s, a, before, b, after);
    var one := ApplyBatches(s, a, before);
    OtherBatches(s, c, a, before, b.doc);
    SameTwice(c.inst.db, a.inst.db, one.inst.db, b.doc);
    BatchesKeepObjects(s, c, a, before, b.doc);
    BatchesMint(s, c, a, before);
    SameObjectsTwice(c.inst.r2, a.inst.r2, one.inst.r2, b.doc);
    OneBatchsObjects(s, c, one, b);
    var two := ApplyBatch(s, one, b);
    OtherBatches(s, c, two, after, b.doc);
    BatchesKeepObjects(s, c, two, after, b.doc);
    GainedCarryOver(s, c, b.doc, b.doc in two.failed, two.inst.r2, ApplyBatches(s, two, after).inst.r2);
  }

  lemma {:induction false} BatchesMint(s: Setup, c: Ctx, a: Applied, bs: seq<Restore.Batch>)
    requires Tidy(c.inst) && forall i | 0 <= i < |bs| :: Carries(c, bs[i])
    ensures a.inst.minted <= ApplyBatches(s, a, bs).inst.minted
    decreases bs
  {
    hide Tidy, ApplyBatch, Carries, Stage;
    if bs != [] {
      BatchMints(s, c, a, bs[0]);
      BatchesMint(s, c, ApplyBatch(s, a, bs[0]), bs[1..]);
    }
  }

  lemma BatchMints(s: Setup, c: Ctx, a: Applied, b: Restore.Batch)
    requires Tidy(c.inst) && Carries(c, b)
    ensures a.inst.minted <= ApplyBatch(s, a, b).inst.minted
  {
    hide Stage, ApplyBatch, Tidy, AllTold, WasIts;
    BatchObjects(s, a, b);
    KeysAreStaged(s, c, c.inst.db.docs[b.doc].Live(), VersionsFor(c.recs, b.doc), b.plans, Unstaged(a.inst), Key("", 0, "", false));
  }

  /** The objects of a document that stays: those it had, but for what a version
      that came in replaced, and new ones only for versions that came in, and none
      when it failed. */
  lemma ObjectsOfOneThatStays(s: Setup, inst: Instance, recs: seq<Record>, replace: bool, id: string, doc: Doc)
    requires Tidy(inst) && RestoreRender.Spent(s, inst.r2.Keys, inst.minted)
    requires RestoreNames.PageOk(recs) && Room(Ctx(s.env, inst, recs, replace)) && id in inst.db.docs
    requires Stays(Ctx(s.env, inst, recs, replace), id, doc)
    ensures
      var r := RestorePage(s, inst, recs, replace);
      ObjectsGained(s, Ctx(s.env, inst, recs, replace), id, id in r.failed, r.inst.r2)
  {
    hide RestorePage, Room, RestoreNames.PageOk, Same, Stays, ApplyBatches, ApplyDocs, PlanDocs, StrayBatches, Gains, NotOf,
      RestoreNames.PlansOk, RestoreRender.PlanSound, RestoreRender.SkipSound, Carries, Serial.UsedBytes, RestoreAgents, RestoreKeys,
      RestoreClients, Gaining, SameObjects, ObjectsGained, Tidy, RestoreRender.Spent, Planned, EachOnce;
    var c := Ctx(s.env, inst, recs, replace);
    PageParts(c);
    PageCarries(c);
    var before, own, after := ItsBatch(c, id, doc);
    var bs := before + own + after;
    DocsElsewhere(s, c, Start(c), Plans(c), id);
    DocsKeepObjects(s, c, Start(c), Plans(c), id);
    var mid := ApplyDocs(s, Start(c), Plans(c));
    CarriesApart(c, bs, before, id);
    CarriesApart(c, bs, after, id);
    var all := ApplyBatches(s, mid, bs);
    if own == [] {
      assert bs == before + after;
      BatchesKeepObjects(s, c, mid, before + after, id);
      SameObjectsTwice(inst.r2, mid.inst.r2, all.inst.r2, id);
      NothingGainedNothingStored(s, c, id, id in all.failed, all.inst.r2);
    } else {
      assert own == [own[0]];
      OneBatchsTurn(s, c, mid, before, own[0], after);
    }
    TombsLast(s, c, id);
    TombsTouchNoObject(s, c);
  }
}
