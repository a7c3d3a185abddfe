/** A document that comes back from a backup can be served: its versions have
    their rows and both objects, the source is the one whose digest the file
    recorded, and the render was made from that source, not read from the file. */
module RestoreRender {
  import opened Records
  import opened D1
  import opened Writes
  import opened Restore
  import RestoreNames
  import Serial

  ghost predicate Minting(s: Setup) {
    forall i: nat, j: nat | i != j :: s.mint(i) != s.mint(j)
  }

  /** None of the keys carries a nonce still to be minted. */
  ghost predicate Spent(s: Setup, keys: set<Key>, next: nat) {
    forall k, n: nat | k in keys && n >= next :: k.nonce != s.mint(n)
  }

  ghost function AllKeys(db: Db): set<Key> {
    set v, k | v in db.vers && k in db.vers[v].Keys() :: k
  }

  /** Both objects of a row are there under keys minted in the range, and they are
      what its digest and format call for. */
  ghost predicate Backed(s: Setup, r2: map<Key, string>, row: Version, lo: nat, hi: nat) {
    exists n: nat :: lo <= n < hi && BackedBy(s, r2, row, n)
  }

  ghost predicate BackedBy(s: Setup, r2: map<Key, string>, row: Version, n: nat) {
    && row.hKey.nonce == s.mint(n) && row.sKey.Some? && row.sKey.value.nonce == s.mint(n)
    && row.hKey in r2 && row.sKey.value in r2
    && row.sha == Some(Digest(r2[row.sKey.value]))
    && r2[row.hKey] == s.env.RenderOf(r2[row.sKey.value], row.format)
  }

  /** Objects survive, except old ones given up and ones not yet minted. */
  ghost predicate Survive(s: Setup, r2: map<Key, string>, r2': map<Key, string>, given: set<Key>, next: nat) {
    forall k | k in r2 && k !in given && (forall n: nat | n >= next :: k.nonce != s.mint(n)) ::
      k in r2' && r2'[k] == r2[k]
  }

  lemma BackedSurvives(s: Setup, r2: map<Key, string>, r2': map<Key, string>, given: set<Key>, row: Version, lo: nat, hi: nat, next: nat, hi': nat)
    requires Minting(s) && Backed(s, r2, row, lo, hi) && hi <= next && hi <= hi'
    requires Survive(s, r2, r2', given, next) && Spent(s, given, lo)
    ensures Backed(s, r2', row, lo, hi')
  {
    var n :| lo <= n < hi && BackedBy(s, r2, row, n);
    assert row.hKey !in given && row.sKey.value !in given;
    assert BackedBy(s, r2', row, n);
  }

  lemma SurviveTwice(s: Setup, a: map<Key, string>, b: map<Key, string>, d: map<Key, string>, given: set<Key>, next: nat, later: nat)
    requires Survive(s, a, b, given, next) && Survive(s, b, d, given, later) && next <= later
    ensures Survive(s, a, d, given, next)
  {
    forall k | k in a && k !in given && (forall n: nat | n >= next :: k.nonce != s.mint(n))
      ensures k in d && d[k] == a[k]
    {
      assert k in b && b[k] == a[k];
      assert forall n: nat | n >= later :: k.nonce != s.mint(n);
    }
  }

  // ---- planned versions ------------------------------------------------------

  /** What a plan will store is the recorded source and its own render, and what it
      gives up was in the database. */
  ghost predicate Sound(c: Ctx, vp: VersionPlan) {
    && (vp.prep.Some? ==>
          && vp.action.Writes() && vp.rec.source.Some? && vp.rec.row.sha == Some(Digest(vp.rec.source.value))
          && vp.prep.value == Prep(c.env.RenderOf(vp.rec.source.value, vp.rec.row.format), vp.rec.source.value, vp.rec.row.format))
    && (vp.was.Some? ==> vp.rec.vid in c.inst.db.vers && vp.was.value == c.inst.db.vers[vp.rec.vid])
    && (!c.replace && vp.action.Writes() ==> vp.was.None?)
  }

  lemma PlanIsSound(c: Ctx, v: VersionRec, docLive: bool, used: nat)
    ensures
      var vp := PlanVersion(c, v, docLive, used);
      Sound(c, vp) && vp.rec == v && (docLive && vp.action.Writes() ==> vp.prep.Some?)
  {
    if v.source.Some? {
      var r := ScreenAndPrepare(c.env, v.source.value, v.row.format);
      assert r.Prepared? ==> r.prep == Prep(c.env.RenderOf(v.source.value, v.row.format), v.source.value, v.row.format);
    }
    hide ScreenAndPrepare;
  }

  ghost predicate AllSound(c: Ctx, doc: string, docLive: bool, plans: seq<VersionPlan>) {
    forall i | 0 <= i < |plans| ::
      && Sound(c, plans[i]) && plans[i].rec.vid.doc == doc
      && (docLive && plans[i].action.Writes() ==> plans[i].prep.Some?)
  }

  lemma {:induction false} VersionsAreOf(recs: seq<Record>, doc: string)
    ensures forall i | 0 <= i < |VersionsFor(recs, doc)| :: VersionsFor(recs, doc)[i].vid.doc == doc
    decreases recs
  {
    if recs != [] {
      VersionsAreOf(recs[1..], doc);
    }
  }

  lemma {:induction false} VersionsAreSound(c: Ctx, doc: string, vs: seq<VersionRec>, docLive: bool, used: nat, plans: seq<VersionPlan>)
    requires AllSound(c, doc, docLive, plans) && forall i | 0 <= i < |vs| :: vs[i].vid.doc == doc
    ensures AllSound(c, doc, docLive, PlanVersions(c, vs, docLive, used, plans))
    decreases vs
  {
    hide PlanVersion, Sound;
    if vs != [] {
      PlanIsSound(c, vs[0], docLive, used + SpentBy(plans));
      VersionsAreSound(c, doc, vs[1..], docLive, used, plans + [PlanVersion(c, vs[0], docLive, used + SpentBy(plans))]);
    }
  }

  // ---- staging ---------------------------------------------------------------

  /** What staging keeps: keys are minted in order, old keys come from old rows. */
  ghost predicate StagedOk(s: Setup, doc: string, st0: Staged, st: Staged, given: set<Key>) {
    && st0.minted <= st.minted
    && (forall k | k in st.newKeys :: exists n: nat :: st0.minted <= n < st.minted && k.nonce == s.mint(n))
    && st.oldKeys <= given
    && Survive(s, st0.r2, st.r2, {}, st0.minted)
    && (forall k | k in st.r2 :: k in st0.r2 || k in st.newKeys)
    && (forall v | v in st.rows :: v.doc == doc)
  }

  /** What staging one re-rendered version touches. */
  lemma StagedParts(s: Setup, st: Staged, vp: VersionPlan)
    requires vp.action.Writes() && vp.prep.Some?
    ensures
      var vid := vp.rec.vid;
      var st', h, k := StageOne(s, st, vp), Key(vid.doc, vid.no, s.mint(st.minted), false), Key(vid.doc, vid.no, s.mint(st.minted), true);
      && st'.r2 == st.r2[h := vp.prep.value.html][k := vp.prep.value.source] && st'.minted == st.minted + 1
      && st'.newKeys == st.newKeys + {h, k} && st'.rows.Keys == st.rows.Keys + {vid}
      && st'.oldKeys == st.oldKeys + (if vp.was.Some? then vp.was.value.Keys() else {})
  {
    hide Utf8Size;
  }

  lemma OneStagedOk(s: Setup, c: Ctx, doc: string, docLive: bool, st0: Staged, st: Staged, vp: VersionPlan)
    requires Minting(s) && StagedOk(s, doc, st0, st, AllKeys(c.inst.db)) && Sound(c, vp) && vp.rec.vid.doc == doc
    ensures StagedOk(s, doc, st0, StageOne(s, st, vp), AllKeys(c.inst.db))
  {
    hide Sound, AllKeys, RowFor, Minting;
    if vp.action.Writes() && vp.prep.Some? {
      StagedParts(s, st, vp);
      OldKeysWereThere(c, vp);
      BytesStagedOk(s, doc, st0, st, StageOne(s, st, vp), vp, AllKeys(c.inst.db));
    }
  }

  lemma BytesStagedOk(s: Setup, doc: string, st0: Staged, st: Staged, st': Staged, vp: VersionPlan, given: set<Key>)
    requires Minting(s) && StagedOk(s, doc, st0, st, given) && vp.rec.vid.doc == doc && vp.prep.Some?
    requires vp.was.Some? ==> vp.was.value.Keys() <= given
    requires
      var vid := vp.rec.vid;
      var h, k := Key(vid.doc, vid.no, s.mint(st.minted), false), Key(vid.doc, vid.no, s.mint(st.minted), true);
      && st'.r2 == st.r2[h := vp.prep.value.html][k := vp.prep.value.source] && st'.minted == st.minted + 1
      && st'.newKeys == st.newKeys + {h, k} && st'.rows.Keys == st.rows.Keys + {vid}
      && st'.oldKeys == st.oldKeys + (if vp.was.Some? then vp.was.value.Keys() else {})
    ensures StagedOk(s, doc, st0, st', given)
  {
    MintedInOrder(s, st0, st, st', st.minted);
    assert Survive(s, st.r2, st'.r2, {}, st.minted);
    SurviveTwice(s, st0.r2, st.r2, st'.r2, {}, st0.minted, st.minted);
  }

  lemma MintedInOrder(s: Setup, st0: Staged, st: Staged, st': Staged, n: nat)
    requires forall k | k in st.newKeys :: exists m: nat :: st0.minted <= m < st.minted && k.nonce == s.mint(m)
    requires st0.minted <= n == st.minted < st'.minted && forall k | k in st'.newKeys :: k in st.newKeys || k.nonce == s.mint(n)
    ensures forall k | k in st'.newKeys :: exists m: nat :: st0.minted <= m < st'.minted && k.nonce == s.mint(m)
  {
    forall k | k in st'.newKeys
      ensures exists m: nat :: st0.minted <= m < st'.minted && k.nonce == s.mint(m)
    {
      if k in st.newKeys {
        var m: nat :| st0.minted <= m < st.minted && k.nonce == s.mint(m);
      }
    }
  }

  lemma OldKeysWereThere(c: Ctx, vp: VersionPlan)
    requires Sound(c, vp)
    ensures vp.was.Some? ==> vp.was.value.Keys() <= AllKeys(c.inst.db)
  {
  }

  lemma OneStagedBacked(s: Setup, c: Ctx, st: Staged, vp: VersionPlan, lo: nat)
    requires Minting(s) && c.env == s.env && Sound(c, vp) && (vp.action.Writes() ==> vp.prep.Some?) && lo <= st.minted
    requires forall v | v in st.rows :: Backed(s, st.r2, st.rows[v], lo, st.minted)
    ensures
      var st' := StageOne(s, st, vp);
      && (forall v | v in st'.rows :: Backed(s, st'.r2, st'.rows[v], lo, st'.minted))
      && (vp.action.Writes() ==> vp.rec.vid in st'.rows && st'.rows[vp.rec.vid].sha == vp.rec.row.sha)
      && (forall v | v in st.rows :: v in st'.rows)
  {
    hide Backed;
    var st' := StageOne(s, st, vp);
    if vp.action.Writes() {
      assert Survive(s, st.r2, st'.r2, {}, st.minted);
      forall v | v in st.rows
        ensures Backed(s, st'.r2, st.rows[v], lo, st'.minted)
      {
        BackedSurvives(s, st.r2, st'.r2, {}, st.rows[v], lo, st.minted, st.minted, st'.minted);
      }
      assert BackedBy(s, st'.r2, st'.rows[vp.rec.vid], st.minted);
      BackedIs(s, st'.r2, st'.rows[vp.rec.vid], lo, st'.minted, st.minted);
    }
  }

  lemma BackedIs(s: Setup, r2: map<Key, string>, row: Version, lo: nat, hi: nat, n: nat)
    requires lo <= n < hi && BackedBy(s, r2, row, n)
    ensures Backed(s, r2, row, lo, hi)
  {
  }

  lemma {:induction false} StageIsOk(s: Setup, c: Ctx, doc: string, docLive: bool, st0: Staged, st: Staged, plans: seq<VersionPlan>)
    requires Minting(s) && StagedOk(s, doc, st0, st, AllKeys(c.inst.db)) && AllSound(c, doc, docLive, plans)
    ensures StagedOk(s, doc, st0, Stage(s, plans, st), AllKeys(c.inst.db))
    decreases plans
  {
    hide StagedOk, StageOne, Sound;
    if plans != [] {
      OneStagedOk(s, c, doc, docLive, st0, st, plans[0]);
      StageIsOk(s, c, doc, docLive, st0, StageOne(s, st, plans[0]), plans[1..]);
    }
  }

  /** Some version the page carries for this row, whose digest the row has. */
  ghost predicate Recorded(plans: seq<VersionPlan>, vid: VerId, row: Version) {
    exists i :: 0 <= i < |plans| && plans[i].rec.vid == vid && plans[i].action.Writes() && row.sha == plans[i].rec.row.sha
  }

  lemma {:induction false} StageBacks(s: Setup, c: Ctx, doc: string, st: Staged, plans: seq<VersionPlan>, lo: nat)
    requires Minting(s) && c.env == s.env && AllSound(c, doc, true, plans) && lo <= st.minted
    requires forall v | v in st.rows :: Backed(s, st.r2, st.rows[v], lo, st.minted)
    ensures
      var st' := Stage(s, plans, st);
      && (forall v | v in st'.rows :: Backed(s, st'.r2, st'.rows[v], lo, st'.minted))
      && (forall v | v in st'.rows :: (v in st.rows && st'.rows[v] == st.rows[v]) || Recorded(plans, v, st'.rows[v]))
      && (forall i | 0 <= i < |plans| && plans[i].action.Writes() :: plans[i].rec.vid in st'.rows)
      && (forall v | v in st.rows :: v in st'.rows)
    decreases plans
  {
    hide Backed, StageOne, Sound;
    if plans != [] {
      var one := StageOne(s, st, plans[0]);
      OneStagedBacked(s, c, st, plans[0], lo);
      OnlyItsRow(s, st, plans[0]);
      StageBacks(s, c, doc, one, plans[1..], lo);
      var st' := Stage(s, plans, st);
      forall v | v in st'.rows
        ensures (v in st.rows && st'.rows[v] == st.rows[v]) || Recorded(plans, v, st'.rows[v])
      {
        if v in one.rows && st'.rows[v] == one.rows[v] {
          if v == plans[0].rec.vid && plans[0].action.Writes() {
            assert Recorded(plans, v, st'.rows[v]);
          }
        } else {
          var i :| 0 <= i < |plans[1..]| && plans[1..][i].rec.vid == v && plans[1..][i].action.Writes() && st'.rows[v].sha == plans[1..][i].rec.row.sha;
          assert plans[i + 1] == plans[1..][i];
        }
      }
    }
  }

  lemma OnlyItsRow(s: Setup, st: Staged, vp: VersionPlan)
    ensures
      var st' := StageOne(s, st, vp);
      && st'.minted >= st.minted
      && forall v | v in st'.rows && !(v == vp.rec.vid && vp.action.Writes()) :: v in st.rows && st'.rows[v] == st.rows[v]
  {
  }

  // ---- documents -------------------------------------------------------------

  ghost predicate PlanSound(c: Ctx, p: DocPlan) {
    && p.extraKeys <= AllKeys(c.inst.db) && (forall v | v in p.extra :: v.doc == p.id)
    && (p.action.Writes() ==> AllSound(c, p.id, p.doc.Live(), p.versions))
    && (p.action.Writes() && p.doc.Live() ==> Renderable(p.doc, p.versions))
    && (!c.replace ==> p.extraKeys == {} && p.extra == {})
  }

  lemma DocPlanIsSound(c: Ctx, id: string, doc: Doc, used: nat, held: set<string>)
    ensures PlanSound(c, PlanDoc(c, id, doc, used, held)) && PlanDoc(c, id, doc, used, held).id == id
  {
    hide PlanVersions, VersionsFor, IdentityConflict, SlugGranted, Demoted, SpentBy, Sound, Renderable;
    var vs := VersionsFor(c.recs, id);
    VersionsAreOf(c.recs, id);
    VersionsAreSound(c, id, vs, doc.Live(), used, []);
  }

  lemma {:induction false} DocPlansAreSound(c: Ctx, recs: seq<Record>, used: nat, plans: seq<DocPlan>)
    requires forall i | 0 <= i < |plans| :: PlanSound(c, plans[i])
    ensures forall i | 0 <= i < |PlanDocs(c, recs, used, plans)| :: PlanSound(c, PlanDocs(c, recs, used, plans)[i])
    decreases recs
  {
    hide PlanSound, PlanDoc;
    if recs != [] {
      if recs[0].DocRecord? {
        DocPlanIsSound(c, recs[0].id, recs[0].doc, used + Spending(plans), Held(plans));
        DocPlansAreSound(c, recs[1..], used, plans + [PlanDoc(c, recs[0].id, recs[0].doc, used + Spending(plans), Held(plans))]);
      } else {
        DocPlansAreSound(c, recs[1..], used, plans);
      }
    }
  }

  /** A document is back, with all its written versions backed, among them the ones
      it points to. */
  ghost predicate Back(s: Setup, inst: Instance, p: DocPlan, lo: nat) {
    && p.id in inst.db.docs && inst.db.docs[p.id] == DocFor(s.env, p)
    && (forall i | 0 <= i < |p.versions| && p.versions[i].action.Writes() ::
          var vid := p.versions[i].rec.vid;
          && vid in inst.db.vers && Backed(s, inst.r2, inst.db.vers[vid], lo, inst.minted)
          && Recorded(p.versions, vid, inst.db.vers[vid]))
  }

  lemma AppliedIsBack(s: Setup, c: Ctx, a: Applied, p: DocPlan, lo: nat)
    requires Minting(s) && c.env == s.env && lo <= a.inst.minted && Spent(s, AllKeys(c.inst.db), lo)
    requires PlanSound(c, p) && p.action.Writes() && p.doc.Live()
    requires s.up(p.id) && Unique(a.inst.db, p.id, DocFor(s.env, p))
    ensures Back(s, ApplyDoc(s, a, p).inst, p, lo)
  {
    hide Unique, DocFor, Sound, Recorded, Backed, Renderable, AllKeys;
    var st0 := Unstaged(a.inst);
    var st := Stage(s, p.versions, st0);
    StagedStart(s, p.id, st0, AllKeys(c.inst.db));
    StageIsOk(s, c, p.id, true, st0, st0, p.versions);
    StageBacks(s, c, p.id, st0, p.versions, lo);
    hide Stage;
    var inst' := ApplyDoc(s, a, p).inst;
    assert Survive(s, st.r2, inst'.r2, AllKeys(c.inst.db), st.minted);
    forall v | v in st.rows
      ensures Backed(s, inst'.r2, st.rows[v], lo, st.minted)
    {
      BackedSurvives(s, st.r2, inst'.r2, AllKeys(c.inst.db), st.rows[v], lo, st.minted, st.minted, st.minted);
    }
  }

  lemma StagedStart(s: Setup, doc: string, st: Staged, given: set<Key>)
    requires st.rows == map[] && st.newKeys == {} && st.oldKeys == {}
    ensures StagedOk(s, doc, st, st, given)
  {
  }

  /** What one batch may do to everything it is not about. */
  ghost predicate Apart(s: Setup, c: Ctx, inst: Instance, inst': Instance, doc: string) {
    && inst.minted <= inst'.minted
    && Survive(s, inst.r2, inst'.r2, AllKeys(c.inst.db), inst.minted)
    && (forall d | d in inst.db.docs && d != doc :: d in inst'.db.docs && inst'.db.docs[d] == inst.db.docs[d])
    && (forall v | v in inst.db.vers && v.doc != doc :: v in inst'.db.vers && inst'.db.vers[v] == inst.db.vers[v])
  }

  lemma DocApart(s: Setup, c: Ctx, a: Applied, p: DocPlan)
    requires Minting(s) && PlanSound(c, p)
    ensures Apart(s, c, a.inst, ApplyDoc(s, a, p).inst, p.id)
  {
    hide Unique, DocFor, Sound, Renderable, AllKeys;
    if p.action.Writes() {
      var st0 := Unstaged(a.inst);
      StagedStart(s, p.id, st0, AllKeys(c.inst.db));
      StageIsOk(s, c, p.id, p.doc.Live(), st0, st0, p.versions);
      hide Stage, AllSound;
      StageApart(s, c, a.inst, Stage(s, p.versions, st0), p.id, p.extraKeys);
    }
  }

  lemma StageApart(s: Setup, c: Ctx, inst: Instance, st: Staged, doc: string, extra: set<Key>)
    requires StagedOk(s, doc, Unstaged(inst), st, AllKeys(c.inst.db)) && extra <= AllKeys(c.inst.db)
    ensures Survive(s, inst.r2, st.r2 - (st.oldKeys + extra), AllKeys(c.inst.db), inst.minted)
    ensures Survive(s, inst.r2, st.r2 - st.oldKeys, AllKeys(c.inst.db), inst.minted)
    ensures Survive(s, inst.r2, st.r2 - st.newKeys, AllKeys(c.inst.db), inst.minted)
  {
    hide AllKeys;
  }

  lemma BackStays(s: Setup, c: Ctx, inst: Instance, inst': Instance, doc: string, p: DocPlan, lo: nat)
    requires Minting(s) && lo <= inst.minted && Spent(s, AllKeys(c.inst.db), lo)
    requires Apart(s, c, inst, inst', doc) && p.id != doc && Back(s, inst, p, lo)
    requires forall i | 0 <= i < |p.versions| :: p.versions[i].rec.vid.doc == p.id
    ensures Back(s, inst', p, lo)
  {
    hide Backed, Recorded, DocFor, AllKeys, Spent, Minting;
    forall i | 0 <= i < |p.versions| && p.versions[i].action.Writes()
      ensures
        var vid := p.versions[i].rec.vid;
        && vid in inst'.db.vers && Backed(s, inst'.r2, inst'.db.vers[vid], lo, inst'.minted)
        && Recorded(p.versions, vid, inst'.db.vers[vid])
    {
      var vid := p.versions[i].rec.vid;
      BackedSurvives(s, inst.r2, inst'.r2, AllKeys(c.inst.db), inst.db.vers[vid], lo, inst.minted, inst.minted, inst'.minted);
    }
  }

  /** Every live document written so far without failing is back. */
  ghost predicate AllBack(s: Setup, a: Applied, plans: seq<DocPlan>, k: nat, lo: nat)
    requires k <= |plans|
  {
    forall i | 0 <= i < k && plans[i].action.Writes() && plans[i].doc.Live() && plans[i].id !in a.failed :: Back(s, a.inst, plans[i], lo)
  }

  lemma ApplyKeepsBack(s: Setup, c: Ctx, a: Applied, plans: seq<DocPlan>, k: nat, lo: nat)
    requires Minting(s) && c.env == s.env && lo <= a.inst.minted && Spent(s, AllKeys(c.inst.db), lo)
    requires k < |plans| && RestoreNames.PlansOk(c, plans) && forall i | 0 <= i < |plans| :: PlanSound(c, plans[i])
    requires AllBack(s, a, plans, k, lo) && forall i | k <= i < |plans| :: plans[i].id !in a.failed
    ensures
      var a' := ApplyDoc(s, a, plans[k]);
      && lo <= a'.inst.minted && AllBack(s, a', plans, k + 1, lo)
      && forall i | k < i < |plans| :: plans[i].id !in a'.failed
  {
    hide Back, PlanSound, Unique, DocFor, Spent, Minting, Apart, RestoreNames.NameFree;
    var a' := ApplyDoc(s, a, plans[k]);
    Outcome(s, a, plans[k]);
    DocApart(s, c, a, plans[k]);
    ApartMints(s, c, a.inst, a'.inst, plans[k].id);
    forall i | 0 <= i < k + 1 && plans[i].action.Writes() && plans[i].doc.Live() && plans[i].id !in a'.failed
      ensures Back(s, a'.inst, plans[i], lo)
    {
      if i < k {
        SoundParts(c, plans[i]);
        BackStays(s, c, a.inst, a'.inst, plans[k].id, plans[i], lo);
      } else {
        AppliedIsBack(s, c, a, plans[k], lo);
      }
    }
  }

  lemma Outcome(s: Setup, a: Applied, p: DocPlan)
    ensures
      var a' := ApplyDoc(s, a, p);
      if p.action.Writes() && !(s.up(p.id) && Unique(a.inst.db, p.id, DocFor(s.env, p))) then a'.failed == a.failed + {p.id}
      else a'.failed == a.failed
  {
    hide Unique, DocFor, Stage;
  }

  lemma ApartMints(s: Setup, c: Ctx, inst: Instance, inst': Instance, doc: string)
    requires Apart(s, c, inst, inst', doc)
    ensures inst.minted <= inst'.minted
  {
  }

  lemma SoundParts(c: Ctx, p: DocPlan)
    requires PlanSound(c, p) && p.action.Writes()
    ensures forall i | 0 <= i < |p.versions| :: p.versions[i].rec.vid.doc == p.id
    ensures p.doc.Live() ==> Renderable(p.doc, p.versions)
  {
  }

  lemma {:induction false} DocsAreBack(s: Setup, c: Ctx, a: Applied, plans: seq<DocPlan>, k: nat, lo: nat)
    requires Minting(s) && c.env == s.env && lo <= a.inst.minted && Spent(s, AllKeys(c.inst.db), lo)
    requires k <= |plans| && RestoreNames.PlansOk(c, plans) && forall i | 0 <= i < |plans| :: PlanSound(c, plans[i])
    requires AllBack(s, a, plans, k, lo) && forall i | k <= i < |plans| :: plans[i].id !in a.failed
    ensures
      var a' := ApplyDocs(s, a, plans[k..]);
      lo <= a'.inst.minted && AllBack(s, a', plans, |plans|, lo)
    decreases |plans| - k
  {
    hide AllBack, PlanSound, ApplyDoc, Spent, Minting, RestoreNames.PlansOk;
    if k < |plans| {
      ApplyKeepsBack(s, c, a, plans, k, lo);
      assert plans[k..][1..] == plans[k + 1..];
      DocsAreBack(s, c, ApplyDoc(s, a, plans[k]), plans, k + 1, lo);
    }
  }

  // ---- versions of documents not on the page ---------------------------------

  ghost predicate BatchSound(c: Ctx, plans: seq<DocPlan>, b: Restore.Batch) {
    && (exists live: bool :: AllSound(c, b.doc, live, b.plans))
    && forall i | 0 <= i < |plans| && plans[i].action.Writes() :: plans[i].id != b.doc
  }

  ghost predicate BatchesSound(c: Ctx, plans: seq<DocPlan>, bs: seq<Restore.Batch>) {
    forall i | 0 <= i < |bs| :: BatchSound(c, plans, bs[i])
  }

  lemma BatchApart(s: Setup, c: Ctx, a: Applied, plans: seq<DocPlan>, b: Restore.Batch)
    requires Minting(s) && BatchSound(c, plans, b)
    ensures Apart(s, c, a.inst, ApplyBatch(s, a, b).inst, b.doc)
    ensures ApplyBatch(s, a, b).failed <= a.failed + {b.doc}
  {
    hide AllSound, AllKeys;
    var live :| AllSound(c, b.doc, live, b.plans);
    var st0 := Unstaged(a.inst);
    StagedStart(s, b.doc, st0, AllKeys(c.inst.db));
    StageIsOk(s, c, b.doc, live, st0, st0, b.plans);
    hide Stage;
    StageApart(s, c, a.inst, Stage(s, b.plans, st0), b.doc, {});
  }

  /** Every row staged for a live document has its key among the new ones. */
  lemma {:induction false} StagedRowsAreNew(s: Setup, c: Ctx, doc: string, st: Staged, plans: seq<VersionPlan>)
    requires AllSound(c, doc, true, plans) && forall v | v in st.rows :: st.rows[v].hKey in st.newKeys
    ensures
      var st' := Stage(s, plans, st);
      forall v | v in st'.rows :: st'.rows[v].hKey in st'.newKeys
    decreases plans
  {
    hide Sound;
    if plans != [] {
      var one := StageOne(s, st, plans[0]);
      assert forall v | v in one.rows :: one.rows[v].hKey in one.newKeys;
      StagedRowsAreNew(s, c, doc, one, plans[1..]);
      assert Stage(s, plans, st) == Stage(s, plans[1..], one);
    }
  }

  /** Versions restored into a live document that is already there are all backed,
      exactly unless what is derived from it cannot be written after their rows went
      in: then each of these rows is left without its objects, and the document is
      reported as failed. */
  lemma StrayVersionsAreBackedUnless(s: Setup, c: Ctx, a: Applied, b: Restore.Batch, lo: nat)
    requires Minting(s) && c.env == s.env && lo <= a.inst.minted && Spent(s, AllKeys(c.inst.db), lo)
    requires AllSound(c, b.doc, true, b.plans) && Serial.IsLive(a.inst.db, b.doc) && s.up(b.doc)
    ensures
      var r, rows := ApplyBatch(s, a, b), Stage(s, b.plans, Unstaged(a.inst)).rows;
      && rows.Keys <= r.inst.db.vers.Keys
      && ((forall v | v in rows :: Backed(s, r.inst.r2, r.inst.db.vers[v], lo, r.inst.minted)) <==>
            rows == map[] || s.derives(b.doc))
      && (rows != map[] && !s.derives(b.doc) ==>
            b.doc in r.failed && forall v | v in rows :: r.inst.db.vers[v].hKey !in r.inst.r2)
  {
    hide Sound, Recorded, Backed, AllKeys;
    var st0 := Unstaged(a.inst);
    var st := Stage(s, b.plans, st0);
    StagedStart(s, b.doc, st0, AllKeys(c.inst.db));
    StageIsOk(s, c, b.doc, true, st0, st0, b.plans);
    StageBacks(s, c, b.doc, st0, b.plans, lo);
    StagedRowsAreNew(s, c, b.doc, st0, b.plans);
    hide Stage, AllSound;
    var inst' := ApplyBatch(s, a, b).inst;
    assert forall v | v in st.rows :: inst'.db.vers[v] == st.rows[v];
    if st.rows == map[] || s.derives(b.doc) {
      assert Survive(s, st.r2, inst'.r2, AllKeys(c.inst.db), st.minted);
      forall v | v in st.rows
        ensures Backed(s, inst'.r2, st.rows[v], lo, st.minted)
      {
        BackedSurvives(s, st.r2, inst'.r2, AllKeys(c.inst.db), st.rows[v], lo, st.minted, st.minted, st.minted);
      }
    } else {
      var v :| v in st.rows;
      assert st.rows[v].hKey !in inst'.r2;
      NoKeyNotBacked(s, inst'.r2, st.rows[v], lo, st.minted);
    }
  }

  lemma NoKeyNotBacked(s: Setup, r2: map<Key, string>, row: Version, lo: nat, hi: nat)
    requires row.hKey !in r2
    ensures !Backed(s, r2, row, lo, hi)
  {
  }

  lemma {:induction false} BatchesKeepBack(s: Setup, c: Ctx, a: Applied, plans: seq<DocPlan>, bs: seq<Restore.Batch>, lo: nat)
    requires Minting(s) && lo <= a.inst.minted && Spent(s, AllKeys(c.inst.db), lo)
    requires AllBack(s, a, plans, |plans|, lo) && BatchesSound(c, plans, bs) && forall i | 0 <= i < |plans| :: PlanSound(c, plans[i])
    ensures AllBack(s, ApplyBatches(s, a, bs), plans, |plans|, lo)
    ensures forall i | 0 <= i < |plans| && plans[i].action.Writes() && plans[i].id !in a.failed ::
      plans[i].id !in ApplyBatches(s, a, bs).failed
    decreases bs
  {
    hide Back, PlanSound, ApplyBatch, Spent, Minting, Apart, AllKeys;
    if bs != [] {
      var a' := ApplyBatch(s, a, bs[0]);
      assert BatchSound(c, plans, bs[0]);
      BatchApart(s, c, a, plans, bs[0]);
      ApartMints(s, c, a.inst, a'.inst, bs[0].doc);
      forall i | 0 <= i < |plans| && plans[i].action.Writes() && plans[i].doc.Live() && plans[i].id !in a'.failed
        ensures Back(s, a'.inst, plans[i], lo)
      {
        SoundParts(c, plans[i]);
        if plans[i].id in a.failed {
          FailedStays(s, a, bs[0]);
        }
        BackStays(s, c, a.inst, a'.inst, bs[0].doc, plans[i], lo);
      }
      BatchesKeepBack(s, c, a', plans, bs[1..], lo);
    }
  }

  lemma FailedStays(s: Setup, a: Applied, b: Restore.Batch)
    ensures a.failed <= ApplyBatch(s, a, b).failed
  {
    hide Stage;
  }

  lemma {:induction false} StraysAreSound(c: Ctx, plans: seq<DocPlan>, ids: seq<string>, used: nat, bs: seq<Restore.Batch>)
    requires BatchesSound(c, plans, bs)
    requires forall i, j | 0 <= i < |ids| && 0 <= j < |plans| && plans[j].action.Writes() :: plans[j].id != ids[i]
    ensures BatchesSound(c, plans, PlanStrays(c, ids, used, bs))
    decreases ids
  {
    hide AllSound, PlanVersions, VersionsFor;
    if ids != [] {
      if ids[0] in c.inst.db.docs {
        var live := c.inst.db.docs[ids[0]].Live();
        var vs := VersionsFor(c.recs, ids[0]);
        VersionsAreOf(c.recs, ids[0]);
        NothingSound(c, ids[0], live);
        VersionsAreSound(c, ids[0], vs, live, used + Spends(bs), []);
        StraysAreSound(c, plans, ids[1..], used, bs + [Restore.Batch(ids[0], PlanVersions(c, vs, live, used + Spends(bs), []))]);
      } else {
        StraysAreSound(c, plans, ids[1..], used, bs);
      }
    }
  }

  lemma NothingSound(c: Ctx, doc: string, live: bool)
    ensures AllSound(c, doc, live, [])
  {
  }

  lemma {:induction false} StraysOffPage(recs: seq<Record>, docs: set<string>, ids: seq<string>)
    requires forall i | 0 <= i < |ids| :: ids[i] !in docs
    ensures forall i | 0 <= i < |Strays(recs, docs, ids)| :: Strays(recs, docs, ids)[i] !in docs
    decreases recs
  {
    if recs != [] {
      StraysOffPage(recs[1..], docs,
        if recs[0].VersionRecord? && recs[0].version.vid.doc !in docs && recs[0].version.vid.doc !in ids
        then ids + [recs[0].version.vid.doc] else ids);
    }
  }

  /** A skipped document's versions are planned soundly too. */
  ghost predicate SkipSound(c: Ctx, p: DocPlan) {
    p.action.Skip? ==> exists live: bool :: AllSound(c, p.id, live, p.versions)
  }

  lemma {:induction false} SkipsAreSound(c: Ctx, recs: seq<Record>, used: nat, plans: seq<DocPlan>)
    requires forall i | 0 <= i < |plans| :: SkipSound(c, plans[i])
    ensures forall i | 0 <= i < |PlanDocs(c, recs, used, plans)| :: SkipSound(c, PlanDocs(c, recs, used, plans)[i])
    decreases recs
  {
    hide SkipSound, PlanDoc;
    if recs != [] {
      if recs[0].DocRecord? {
        SkipIsSound(c, recs[0].id, recs[0].doc, used + Spending(plans), Held(plans));
        SkipsAreSound(c, recs[1..], used, plans + [PlanDoc(c, recs[0].id, recs[0].doc, used + Spending(plans), Held(plans))]);
      } else {
        SkipsAreSound(c, recs[1..], used, plans);
      }
    }
  }

  lemma SkipIsSound(c: Ctx, id: string, doc: Doc, used: nat, held: set<string>)
    ensures SkipSound(c, PlanDoc(c, id, doc, used, held))
  {
    hide PlanVersions, VersionsFor, IdentityConflict, SlugGranted, Demoted, SpentBy, AllSound, Renderable;
    if id in c.inst.db.docs {
      VersionsAreOf(c.recs, id);
      NothingSound(c, id, c.inst.db.docs[id].Live());
      VersionsAreSound(c, id, VersionsFor(c.recs, id), c.inst.db.docs[id].Live(), used, []);
    }
  }

  lemma {:induction false} GainsAreSound(c: Ctx, all: seq<DocPlan>, plans: seq<DocPlan>)
    requires forall i | 0 <= i < |plans| :: SkipSound(c, plans[i])
    requires forall i, j | 0 <= i < |plans| && 0 <= j < |all| && plans[i].action.Skip? && all[j].action.Writes() :: plans[i].id != all[j].id
    ensures BatchesSound(c, all, Gains(plans))
    decreases plans
  {
    hide AllSound;
    if plans != [] {
      GainsAreSound(c, all, plans[1..]);
      if plans[0].action.Skip? {
        assert SkipSound(c, plans[0]);
      }
    }
  }

  // ---- the page --------------------------------------------------------------

  /** A version can be served: its row and both objects are there, the source is
      that of a record of the page and hashes to what it recorded, the render is
      made from it. */
  ghost predicate Servable(s: Setup, inst: Instance, recs: seq<Record>, vid: VerId) {
    && vid in inst.db.vers
    && var row := inst.db.vers[vid];
    && row.sKey.Some? && row.hKey in inst.r2 && row.sKey.value in inst.r2
    && row.sha == Some(Digest(inst.r2[row.sKey.value]))
    && inst.r2[row.hKey] == s.env.RenderOf(inst.r2[row.sKey.value], row.format)
    && exists r :: r in recs && r.VersionRecord? && r.version.vid == vid && r.version.row.sha == row.sha
  }

  lemma {:induction false} PlannedFrom(c: Ctx, vs: seq<VersionRec>, docLive: bool, used: nat, plans: seq<VersionPlan>)
    requires forall i | 0 <= i < |plans| :: VersionRecord(plans[i].rec) in c.recs
    requires forall i | 0 <= i < |vs| :: VersionRecord(vs[i]) in c.recs
    ensures forall i | 0 <= i < |PlanVersions(c, vs, docLive, used, plans)| ::
      VersionRecord(PlanVersions(c, vs, docLive, used, plans)[i].rec) in c.recs
    decreases vs
  {
    hide PlanVersion;
    if vs != [] {
      RecKept(c, vs[0], docLive, used + SpentBy(plans));
      PlannedFrom(c, vs[1..], docLive, used, plans + [PlanVersion(c, vs[0], docLive, used + SpentBy(plans))]);
    }
  }

  lemma RecKept(c: Ctx, v: VersionRec, docLive: bool, used: nat)
    ensures PlanVersion(c, v, docLive, used).rec == v
  {
    hide ScreenAndPrepare;
  }

  lemma {:induction false} VersionsAreIn(recs: seq<Record>, doc: string)
    ensures forall i | 0 <= i < |VersionsFor(recs, doc)| :: VersionRecord(VersionsFor(recs, doc)[i]) in recs
    decreases recs
  {
    if recs != [] {
      VersionsAreIn(recs[1..], doc);
      assert forall r | r in recs[1..] :: r in recs;
    }
  }

  ghost predicate FromPage(c: Ctx, p: DocPlan) {
    p.action.Writes() ==> forall i | 0 <= i < |p.versions| :: VersionRecord(p.versions[i].rec) in c.recs
  }

  lemma {:induction false} AllFromPage(c: Ctx, recs: seq<Record>, used: nat, plans: seq<DocPlan>)
    requires forall i | 0 <= i < |plans| :: FromPage(c, plans[i])
    ensures forall i | 0 <= i < |PlanDocs(c, recs, used, plans)| :: FromPage(c, PlanDocs(c, recs, used, plans)[i])
    decreases recs
  {
    hide FromPage, PlanDoc;
    if recs != [] {
      if recs[0].DocRecord? {
        OneFromPage(c, recs[0].id, recs[0].doc, used + Spending(plans), Held(plans));
        AllFromPage(c, recs[1..], used, plans + [PlanDoc(c, recs[0].id, recs[0].doc, used + Spending(plans), Held(plans))]);
      } else {
        AllFromPage(c, recs[1..], used, plans);
      }
    }
  }

  lemma OneFromPage(c: Ctx, id: string, doc: Doc, used: nat, held: set<string>)
    ensures FromPage(c, PlanDoc(c, id, doc, used, held))
  {
    hide PlanVersions, VersionsFor, IdentityConflict, SlugGranted, Demoted, SpentBy, Renderable;
    VersionsAreIn(c.recs, id);
    PlannedFrom(c, VersionsFor(c.recs, id), doc.Live(), used, []);
  }

  lemma BackIsServable(s: Setup, c: Ctx, inst: Instance, p: DocPlan, lo: nat, no: nat)
    requires Back(s, inst, p, lo) && p.action.Writes() && PlanSound(c, p) && FromPage(c, p) && Restorable(p.versions, no)
    ensures Servable(s, inst, c.recs, VerId(p.id, no))
  {
    hide DocFor, Renderable;
    var i :| 0 <= i < |p.versions| && p.versions[i].rec.vid.no == no && p.versions[i].prep.Some?;
    assert Sound(c, p.versions[i]);
    var vid := p.versions[i].rec.vid;
    assert vid == VerId(p.id, no);
    var j :| 0 <= j < |p.versions| && p.versions[j].rec.vid == vid && p.versions[j].action.Writes()
      && inst.db.vers[vid].sha == p.versions[j].rec.row.sha;
    assert VersionRecord(p.versions[j].rec) in c.recs;
  }

  lemma PageIsBack(s: Setup, inst: Instance, recs: seq<Record>, replace: bool)
    requires Minting(s) && Spent(s, AllKeys(inst.db), inst.minted) && RestoreNames.PageOk(recs)
    ensures
      var c := Ctx(s.env, inst, recs, replace);
      && AllBack(s, RestorePage(s, inst, recs, replace), Plans(c), |Plans(c)|, inst.minted)
      && forall i | 0 <= i < |Plans(c)| :: PlanSound(c, Plans(c)[i]) && FromPage(c, Plans(c)[i])
  {
    hide PlanDocs, ApplyDocs, ApplyBatches, RestoreTombs, Serial.UsedBytes, Gains, RestoreAgents, RestoreKeys, RestoreClients,
      RestoreNames.PlansOk, Held, PlanSound, FromPage, SkipSound, Spent, Minting, AllKeys, Strays, PlanStrays, BatchSound, AllBack;
    var c := Ctx(s.env, inst, recs, replace);
    var used, plans := Serial.UsedBytes(inst.db), Plans(c);
    RestoreNames.PageAsPlanned(s, inst, recs, replace);
    DocPlansAreSound(c, recs, used, []);
    AllFromPage(c, recs, used, []);
    SkipsAreSound(c, recs, used, []);
    assert plans[0..] == plans;
    var a0 := Applied(WithPrincipals(c), {});
    NoneBack(s, a0, plans, inst.minted);
    DocsAreBack(s, c, a0, plans, 0, inst.minted);
    StraysOffPage(recs, DocIds(recs), []);
    WritesAreOnPage(c);
    StraysAreSound(c, plans, Strays(recs, DocIds(recs), []), used + Spending(plans), []);
    IdsApart(c, plans);
    GainsAreSound(c, plans, plans);
    var a1 := ApplyDocs(s, a0, plans);
    BatchesKeepBack(s, c, a1, plans, StrayBatches(c) + Gains(plans), inst.minted);
    var a2 := ApplyBatches(s, a1, StrayBatches(c) + Gains(plans));
    TombsKeepBack(s, a2, plans, inst.minted, RestoreTombs(c, Held(plans), a2.inst.db.docs.Keys, recs, a2.inst.db.tombs));
  }

  lemma NoneBack(s: Setup, a: Applied, plans: seq<DocPlan>, lo: nat)
    ensures AllBack(s, a, plans, 0, lo)
  {
  }

  lemma IdsApart(c: Ctx, plans: seq<DocPlan>)
    requires RestoreNames.PlansOk(c, plans)
    ensures forall i, j | 0 <= i < |plans| && 0 <= j < |plans| && plans[i].action.Skip? && plans[j].action.Writes() ::
      plans[i].id != plans[j].id
  {
  }

  lemma WritesAreOnPage(c: Ctx)
    ensures forall i | 0 <= i < |Plans(c)| && Plans(c)[i].action.Writes() :: Plans(c)[i].id in DocIds(c.recs)
  {
    hide PlanDocs, DocIds;
    RestoreNames.PlansAreOfPage(c, c.recs, Serial.UsedBytes(c.inst.db), []);
  }

  lemma TombsKeepBack(s: Setup, a: Applied, plans: seq<DocPlan>, lo: nat, tombs: map<string, Tomb>)
    requires AllBack(s, a, plans, |plans|, lo)
    ensures AllBack(s, a.(inst := a.inst.(db := a.inst.db.(tombs := tombs))), plans, |plans|, lo)
  {
    hide Backed, Recorded, DocFor;
  }

  /** Restored documents are renderable: a live document that was created or
      replaced, and did not fail, has its planned row, and the versions it shows,
      current and published, can be served. */
  lemma RestoredIsRenderable(s: Setup, inst: Instance, recs: seq<Record>, replace: bool, i: nat)
    requires Minting(s) && Spent(s, AllKeys(inst.db), inst.minted) && RestoreNames.PageOk(recs)
    requires
      var plans := Plans(Ctx(s.env, inst, recs, replace));
      && i < |plans| && plans[i].action.Writes() && plans[i].doc.Live()
      && plans[i].id !in RestorePage(s, inst, recs, replace).failed
    ensures
      var p := Plans(Ctx(s.env, inst, recs, replace))[i];
      var after := RestorePage(s, inst, recs, replace).inst;
      && p.id in after.db.docs && after.db.docs[p.id] == DocFor(s.env, p)
      && (p.doc.current.Some? ==> Servable(s, after, recs, VerId(p.id, p.doc.current.value)))
      && (p.doc.published.Some? ==> Servable(s, after, recs, VerId(p.id, p.doc.published.value)))
  {
    hide RestorePage, Plans, Servable, Restorable, FromPage, Minting, Spent, AllKeys, DocFor, Backed, Recorded, PlanSound;
    var c := Ctx(s.env, inst, recs, replace);
    var p, after := Plans(c)[i], RestorePage(s, inst, recs, replace).inst;
    PageIsBack(s, inst, recs, replace);
    assert Back(s, after, p, inst.minted);
    SoundParts(c, p);
    if p.doc.current.Some? {
      BackIsServable(s, c, after, p, inst.minted, p.doc.current.value);
    }
    if p.doc.published.Some? {
      BackIsServable(s, c, after, p, inst.minted, p.doc.published.value);
    }
  }
}
