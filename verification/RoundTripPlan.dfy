/** Restoring an exported page where none of it exists yet: every record is planned
    as a creation, with nothing lost. */
module RoundTripPlan {
  import opened Records
  import opened D1
  import opened Writes
  import opened Corpus
  import opened Restore
  import opened RoundTrip
  import Serial
  import Sums
  import SerialInvariant
  import SlugHistory

  // ---- the records of a page -------------------------------------------------

  /** A record says what the original holds, and its unit is on the page. */
  ghost predicate True(env: Env, orig: Instance, page: seq<Unit>, r: Record) {
    match r
    case AgentRecord(id, a) => Has(page, Agents, id) && id in orig.agents && a == orig.agents[id]
    case KeyRecord(id, k) => Has(page, AgentKeys, id) && id in orig.keys && k == orig.keys[id]
    case ClientRecord(id, c) => Has(page, OAuthClients, id) && id in orig.clients && c == orig.clients[id]
    case DocRecord(id, d) =>
      Has(page, Documents, id) && id in orig.db.docs && d == orig.db.docs[id].(tags := env.cleanTags(orig.db.docs[id].tags))
    case VersionRecord(v) =>
      && Has(page, Documents, v.vid.doc) && v.vid in orig.db.vers && v.vid.doc in orig.db.docs && v == VersionOf(orig, v.vid)
    case TombRecord(id, t) => Has(page, SlugTombstones, id) && id in orig.db.tombs && t == orig.db.tombs[id]
  }

  lemma {:induction false} VersionsAreTrue(env: Env, orig: Instance, page: seq<Unit>, rows: seq<VerId>)
    requires forall i | 0 <= i < |rows| ::
      rows[i] in orig.db.vers && rows[i].doc in orig.db.docs && Has(page, Documents, rows[i].doc)
    ensures forall i | 0 <= i < |VersionsOf(orig, rows)| :: True(env, orig, page, VersionsOf(orig, rows)[i])
    decreases rows
  {
    hide VersionOf, Has;
    if rows != [] {
      VersionOfId(orig, rows[0]);
      VersionsAreTrue(env, orig, page, rows[1..]);
    }
  }

  lemma UnitIsTrue(env: Env, orig: Instance, page: seq<Unit>, i: nat)
    requires i < |page| && Describes(orig, page[i])
    ensures forall j | 0 <= j < |Emit(env, orig, page[i])| :: True(env, orig, page, Emit(env, orig, page[i])[j])
  {
    hide VersionsOf, VersionOf;
    var u := page[i];
    assert forall p: Phase | u.In(p) :: Has(page, p, u.id);
    if u.DocUnit? {
      ListedRows(orig, u);
      assert Has(page, Documents, u.id);
      VersionsAreTrue(env, orig, page, u.rows);
    }
  }

  lemma {:induction false} PageIsTrue(env: Env, orig: Instance, page: seq<Unit>, k: nat)
    requires AllDescribe(orig, page) && k <= |page|
    ensures forall r | r in EmitAll(env, orig, page[k..]) :: True(env, orig, page, r)
    decreases |page| - k
  {
    hide True, Emit, Describes;
    if k < |page| {
      assert page[k..][1..] == page[k + 1..];
      PageIsTrue(env, orig, page, k + 1);
      UnitIsTrue(env, orig, page, k);
    }
  }

  /** The record a unit leads with. */
  ghost function Lead(env: Env, u: Unit): Record {
    match u
    case AgentUnit(id, a) => AgentRecord(id, a)
    case KeyUnit(id, k) => KeyRecord(id, k)
    case ClientUnit(id, c) => ClientRecord(id, c)
    case DocUnit(id, d, _) => DocRecord(id, d.(tags := env.cleanTags(d.tags)))
    case TombUnit(id, t) => TombRecord(id, t)
  }

  lemma {:induction false} PageLeads(env: Env, orig: Instance, page: seq<Unit>, i: nat)
    requires AllDescribe(orig, page) && i < |page|
    ensures Lead(env, page[i]) in EmitAll(env, orig, page)
    decreases page
  {
    hide VersionsOf;
    if i == 0 {
      assert Emit(env, orig, page[0])[0] == Lead(env, page[0]);
      assert EmitAll(env, orig, page)[0] == Lead(env, page[0]);
    } else {
      PageLeads(env, orig, page[1..], i - 1);
    }
  }

  // ---- versions of one document ----------------------------------------------

  ghost function VersionSeq(orig: Instance, rows: seq<VerId>): seq<VersionRec>
    requires forall i | 0 <= i < |rows| :: rows[i] in orig.db.vers && rows[i].doc in orig.db.docs
  {
    if rows == [] then [] else [VersionOf(orig, rows[0])] + VersionSeq(orig, rows[1..])
  }

  /** A document's version records, from its n-th row on. */
  ghost function RowRecs(orig: Instance, u: Unit, n: nat): seq<VersionRec>
    requires u.DocUnit? && Describes(orig, u) && n <= |u.rows|
  {
    ListedRows(orig, u);
    VersionSeq(orig, u.rows[n..])
  }

  lemma {:induction false} VersionsForPlus(a: seq<Record>, b: seq<Record>, doc: string)
    ensures VersionsFor(a + b, doc) == VersionsFor(a, doc) + VersionsFor(b, doc)
    decreases a
  {
    if a == [] {
      assert a + b == b;
    } else {
      assert (a + b)[1..] == a[1..] + b;
      VersionsForPlus(a[1..], b, doc);
    }
  }

  /** All are rows of one document the original has. */
  ghost predicate RowsThere(orig: Instance, rows: seq<VerId>, id: string) {
    id in orig.db.docs && forall i | 0 <= i < |rows| :: rows[i] in orig.db.vers && rows[i].doc == id
  }

  lemma {:induction false} VersionsForRows(orig: Instance, rows: seq<VerId>, id: string, doc: string)
    requires RowsThere(orig, rows, id)
    ensures VersionsFor(VersionsOf(orig, rows), doc) == if doc == id then VersionSeq(orig, rows) else []
    decreases rows
  {
    hide VersionOf, VersionsOf, VersionSeq, VersionsFor;
    if rows != [] {
      RowsTail(orig, rows, id);
      VersionsForRows(orig, rows[1..], id, doc);
      VersionsForPlus([VersionRecord(VersionOf(orig, rows[0]))], VersionsOf(orig, rows[1..]), doc);
      OneVersionFor(VersionOf(orig, rows[0]), doc);
      VersionOfId(orig, rows[0]);
    } else {
      NoRows(orig, doc);
    }
  }

  lemma RowsTail(orig: Instance, rows: seq<VerId>, id: string)
    requires rows != [] && RowsThere(orig, rows, id)
    ensures RowsThere(orig, rows[1..], id)
    ensures VersionsOf(orig, rows) == [VersionRecord(VersionOf(orig, rows[0]))] + VersionsOf(orig, rows[1..])
    ensures VersionSeq(orig, rows) == [VersionOf(orig, rows[0])] + VersionSeq(orig, rows[1..])
  {
    hide VersionOf;
  }

  lemma OneVersionFor(v: VersionRec, doc: string)
    ensures VersionsFor([VersionRecord(v)], doc) == if v.vid.doc == doc then [v] else []
  {
    assert [VersionRecord(v)][1..] == [];
  }

  lemma NoRows(orig: Instance, doc: string)
    ensures VersionsFor(VersionsOf(orig, []), doc) == [] && VersionSeq(orig, []) == []
  {
  }

  lemma VersionOfId(orig: Instance, vid: VerId)
    requires vid in orig.db.vers && vid.doc in orig.db.docs
    ensures VersionOf(orig, vid).vid == vid
  {
  }

  lemma VersionsForUnit(env: Env, orig: Instance, u: Unit, doc: string)
    requires Describes(orig, u)
    ensures VersionsFor(Emit(env, orig, u), doc) ==
              if u.DocUnit? && u.id == doc then RowRecs(orig, u, 0) else []
  {
    hide VersionSeq, VersionsOf;
    if u.DocUnit? {
      ListedRows(orig, u);
      VersionsForPlus([Lead(env, u)], VersionsOf(orig, u.rows), doc);
      VersionsForRows(orig, u.rows, u.id, doc);
      assert u.rows[0..] == u.rows;
      assert VersionsFor([Lead(env, u)], doc) == [];
    }
  }

  /** No two units of a page share a phase and an id. */
  ghost predicate Distinct(us: seq<Unit>) {
    forall i, j, p: Phase | 0 <= i < j < |us| && us[i].In(p) && us[j].In(p) :: us[i].id != us[j].id
  }

  lemma {:induction false} NoVersionsFor(env: Env, orig: Instance, page: seq<Unit>, doc: string)
    requires AllDescribe(orig, page) && forall i | 0 <= i < |page| && page[i].DocUnit? :: page[i].id != doc
    ensures VersionsFor(EmitAll(env, orig, page), doc) == []
    decreases page
  {
    hide Emit, Describes;
    if page != [] {
      NoVersionsFor(env, orig, page[1..], doc);
      VersionsForPlus(Emit(env, orig, page[0]), EmitAll(env, orig, page[1..]), doc);
      VersionsForUnit(env, orig, page[0], doc);
    }
  }

  /** On a page, a document's version records are its own rows, in order. */
  lemma {:induction false} VersionsForPage(env: Env, orig: Instance, page: seq<Unit>, i: nat)
    requires AllDescribe(orig, page) && Distinct(page) && i < |page| && page[i].DocUnit?
    ensures VersionsFor(EmitAll(env, orig, page), page[i].id) == RowRecs(orig, page[i], 0)
    decreases page
  {
    hide Emit, Describes, RowRecs;
    VersionsForPlus(Emit(env, orig, page[0]), EmitAll(env, orig, page[1..]), page[i].id);
    VersionsForUnit(env, orig, page[0], page[i].id);
    if i == 0 {
      forall j | 0 <= j < |page[1..]| && page[1..][j].DocUnit?
        ensures page[1..][j].id != page[0].id
      {
        assert page[1..][j] == page[j + 1] && page[0].In(Documents) && page[j + 1].In(Documents);
      }
      NoVersionsFor(env, orig, page[1..], page[0].id);
    } else {
      assert page[0].In(Documents) ==> page[0].id != page[i].id by { assert page[i].In(Documents); }
      VersionsForPage(env, orig, page[1..], i - 1);
    }
  }

  // ---- planning versions -----------------------------------------------------

  /** The version is to be created, its bytes made anew from the exported source. */
  ghost predicate GoodVersion(env: Env, orig: Instance, vp: VersionPlan) {
    && vp.rec.vid in orig.db.vers && vp.rec.vid.doc in orig.db.docs && vp.rec == VersionOf(orig, vp.rec.vid)
    && vp.action.Create? && vp.was.None?
    && var row := orig.db.vers[vp.rec.vid];
    && if orig.db.docs[vp.rec.vid.doc].Live() then
         && Faithful(env, orig, row)
         && vp.prep == Some(Prep(env.RenderOf(orig.r2[row.sKey.value], row.format), orig.r2[row.sKey.value], row.format))
       else vp.prep.None?
  }

  lemma VersionPlanned(c: Ctx, orig: Instance, vid: VerId, used: nat)
    requires vid in orig.db.vers && vid.doc in orig.db.docs && vid !in c.inst.db.vers
    requires orig.db.vers[vid].authorAgent.Some? ==> c.Available(orig.db.vers[vid].authorAgent.value)
    requires orig.db.docs[vid.doc].Live() ==>
      Faithful(c.env, orig, orig.db.vers[vid]) && used + Serial.RowBytes(orig.db.vers[vid]) <= c.env.storageCap
    ensures
      var vp := PlanVersion(c, VersionOf(orig, vid), orig.db.docs[vid.doc].Live(), used);
      && GoodVersion(c.env, orig, vp) && vp.rec.vid == vid
      && vp.Spent() == (if orig.db.docs[vid.doc].Live() then Serial.RowBytes(orig.db.vers[vid]) else 0)
  {
    hide ScreenAndPrepare, Ctx.Available;
  }

  // ---- bytes -----------------------------------------------------------------

  /** The rows of the live ones among some documents. */
  ghost function LiveRows(orig: Instance, ids: set<string>): set<VerId> {
    set v | v in Serial.Counted(orig.db) && v.doc in ids
  }

  lemma SubsetSum(orig: Instance, vs: set<VerId>)
    requires vs <= Serial.Counted(orig.db)
    ensures Serial.SumOf(orig.db.vers, vs) <= Serial.UsedBytes(orig.db)
  {
    hide Serial.SumOf, Serial.Counted;
    assert Serial.Counted(orig.db) <= orig.db.vers.Keys by { CountedAreRows(orig.db); }
    var rest := Serial.Counted(orig.db) - vs;
    SerialInvariant.SumSplits(orig.db.vers, vs, rest);
    assert vs + rest == Serial.Counted(orig.db);
  }

  lemma CountedAreRows(db: Db)
    ensures Serial.Counted(db) <= db.vers.Keys
  {
  }

  lemma {:induction false} SameBytes(a: map<VerId, Version>, b: map<VerId, Version>, vs: set<VerId>)
    requires vs <= a.Keys && vs <= b.Keys && forall v | v in vs :: Serial.RowBytes(a[v]) == Serial.RowBytes(b[v])
    ensures Serial.SumOf(a, vs) == Serial.SumOf(b, vs)
    decreases vs
  {
    if vs != {} {
      var v :| v in vs;
      Sums.Remove(a, vs, v);
      Sums.Remove(b, vs, v);
      SameBytes(a, b, vs - {v});
    }
  }

  // ---- planning a document's versions ----------------------------------------

  /** Good plans, one for each of the first rows, spending those rows' bytes. */
  ghost predicate PlannedRows(env: Env, orig: Instance, u: Unit, plans: seq<VersionPlan>)
    requires u.DocUnit? && Describes(orig, u)
  {
    && |plans| <= |u.rows|
    && (forall i | 0 <= i < |plans| :: GoodVersion(env, orig, plans[i]) && plans[i].rec.vid == u.rows[i])
  }

  ghost function RowsIn(orig: Instance, u: Unit, n: nat): set<VerId>
    requires u.DocUnit? && n <= |u.rows|
  {
    if u.doc.Live() then Sums.SetOf(u.rows[..n]) else {}
  }

  /** What has been used once the first `n` rows of a document are planned. */
  ghost predicate Budget(orig: Instance, ids: set<string>, u: Unit, n: nat, used: nat)
    requires u.DocUnit? && Describes(orig, u) && n <= |u.rows|
  {
    && LiveRows(orig, ids) + RowsIn(orig, u, n) <= orig.db.vers.Keys
    && used == Serial.SumOf(orig.db.vers, LiveRows(orig, ids) + RowsIn(orig, u, n))
  }

  lemma BudgetNext(orig: Instance, ids: set<string>, u: Unit, n: nat, used: nat)
    requires u.DocUnit? && Describes(orig, u) && n < |u.rows| && u.id !in ids && Budget(orig, ids, u, n, used)
    requires u.rows[n] in orig.db.vers
    ensures Budget(orig, ids, u, n + 1, used + if u.doc.Live() then Serial.RowBytes(orig.db.vers[u.rows[n]]) else 0)
    ensures u.doc.Live() ==> used + Serial.RowBytes(orig.db.vers[u.rows[n]]) <= Serial.UsedBytes(orig.db)
  {
    hide Serial.SumOf, Serial.UsedBytes;
    ListedRows(orig, u);
    var v := u.rows[n];
    assert u.rows[..n + 1] == u.rows[..n] + [v];
    Sums.SetOfPlus(u.rows[..n], [v]);
    assert Sums.SetOf([v]) == {v};
    if u.doc.Live() {
      var all := LiveRows(orig, ids) + RowsIn(orig, u, n + 1);
      NotYet(orig, ids, u, n);
      assert all == LiveRows(orig, ids) + RowsIn(orig, u, n) + {v};
      Sums.Remove(orig.db.vers, all, v);
      assert all - {v} == LiveRows(orig, ids) + RowsIn(orig, u, n);
      SubsetSum(orig, all);
    }
  }

  lemma NotYet(orig: Instance, ids: set<string>, u: Unit, n: nat)
    requires u.DocUnit? && Describes(orig, u) && n < |u.rows| && u.id !in ids
    ensures u.rows[n] !in LiveRows(orig, ids) + RowsIn(orig, u, n)
    ensures u.doc.Live() ==> RowsIn(orig, u, n + 1) <= Serial.Counted(orig.db)
  {
    ListedRows(orig, u);
    forall i | 0 <= i < n
      ensures u.rows[i] != u.rows[n]
    {
      assert u.rows[i].no < u.rows[n].no;
    }
  }

  /** What a row's planning needs to know of the target. */
  ghost predicate RowsClear(c: Ctx, orig: Instance, u: Unit)
    requires u.DocUnit?
  {
    && (forall v | v in orig.db.vers && v.doc == u.id :: v !in c.inst.db.vers)
    && (forall v | v in orig.db.vers && v.doc == u.id && orig.db.vers[v].authorAgent.Some? ::
          c.Available(orig.db.vers[v].authorAgent.value))
  }

  lemma RowStep(c: Ctx, orig: Instance, u: Unit, ids: set<string>, used: nat, plans: seq<VersionPlan>)
    requires u.DocUnit? && Describes(orig, u) && u.id !in ids && Exportable(c.env, orig) && RowsClear(c, orig, u)
    requires PlannedRows(c.env, orig, u, plans) && Budget(orig, ids, u, |plans|, used + SpentBy(plans)) && |plans| < |u.rows|
    ensures
      var vs := RowRecs(orig, u, |plans|);
      && |vs| > 0 && vs[1..] == RowRecs(orig, u, |plans| + 1)
      && var next := plans + [PlanVersion(c, vs[0], u.doc.Live(), used + SpentBy(plans))];
      PlannedRows(c.env, orig, u, next) && Budget(orig, ids, u, |next|, used + SpentBy(next))
  {
    hide PlanVersion, GoodVersion, Budget, Faithful, Ctx.Available, VersionOf, Settled, Referential, SlugHistory.SlugsOk,
      Serial.UsedBytes;
    ListedRows(orig, u);
    var n := |plans|;
    var v := u.rows[n];
    var vs := RowRecs(orig, u, n);
    assert vs[0] == VersionOf(orig, v);
    assert u.rows[n..][1..] == u.rows[n + 1..];
    assert vs[1..] == RowRecs(orig, u, n + 1);
    BudgetNext(orig, ids, u, n, used + SpentBy(plans));
    VersionPlanned(c, orig, v, used + SpentBy(plans));
    var next := plans + [PlanVersion(c, vs[0], u.doc.Live(), used + SpentBy(plans))];
    assert next[..n] == plans;
  }

  lemma {:induction false} RowsPlanned(c: Ctx, orig: Instance, u: Unit, ids: set<string>, used: nat, plans: seq<VersionPlan>)
    requires u.DocUnit? && Describes(orig, u) && u.id !in ids && Exportable(c.env, orig) && RowsClear(c, orig, u)
    requires PlannedRows(c.env, orig, u, plans) && Budget(orig, ids, u, |plans|, used + SpentBy(plans))
    ensures
      var all := PlanVersions(c, RowRecs(orig, u, |plans|), u.doc.Live(), used, plans);
      PlannedRows(c.env, orig, u, all) && |all| == |u.rows| && Budget(orig, ids, u, |u.rows|, used + SpentBy(all))
    decreases |u.rows| - |plans|
  {
    hide PlanVersion, GoodVersion, Budget, Exportable, RowsClear, Describes, SpentBy, RowRecs;
    var vs := RowRecs(orig, u, |plans|);
    if |plans| < |u.rows| {
      RowStep(c, orig, u, ids, used, plans);
      RowsPlanned(c, orig, u, ids, used, plans + [PlanVersion(c, vs[0], u.doc.Live(), used + SpentBy(plans))]);
    } else {
      NoRecs(orig, u);
    }
  }

  lemma NoRecs(orig: Instance, u: Unit)
    requires u.DocUnit? && Describes(orig, u)
    ensures RowRecs(orig, u, |u.rows|) == []
  {
  }
}
