/** The backup round trip: exporting an instance page by page, and restoring the
    pages in order into an empty one, rebuilds it. */
module RoundTripTheorem {
  import opened Records
  import opened D1
  import opened Writes
  import opened Corpus
  import opened Export
  import opened Restore
  import opened RoundTrip
  import opened RoundTripPlan
  import opened RoundTripDocs
  import opened RoundTripApply
  import opened RestoreRender
  import Serial
  import SlugHistory

  // ---- the walk's units ------------------------------------------------------

  lemma Segment(t: Tables, i: nat) returns (p: Phase, j: nat)
    requires i < |t.All()|
    ensures j < |t.Rows(p)| && t.All()[i] == t.Rows(p)[j] && Before(t, p) + j == i
  {
    PhasesOfAll(t);
    if i < |t.agents| {
      p, j := Agents, i;
    } else if i < |t.agents| + |t.keys| {
      p, j := AgentKeys, i - |t.agents|;
    } else if i < |t.agents| + |t.keys| + |t.clients| {
      p, j := OAuthClients, i - |t.agents| - |t.keys|;
    } else if i < |t.agents| + |t.keys| + |t.clients| + |t.docs| {
      p, j := Documents, i - |t.agents| - |t.keys| - |t.clients|;
    } else {
      p, j := SlugTombstones, i - |t.agents| - |t.keys| - |t.clients| - |t.docs|;
    }
    PhaseAt(t, p, j);
  }

  lemma OnePhase(u: Unit, p: Phase, q: Phase)
    requires u.In(p) && u.In(q)
    ensures p == q
  {
  }

  lemma SegmentOf(t: Tables, i: nat, p: Phase) returns (j: nat)
    requires t.Ordered() && i < |t.All()| && t.All()[i].In(p)
    ensures j < |t.Rows(p)| && t.All()[i] == t.Rows(p)[j] && Before(t, p) + j == i
  {
    hide Tables.All;
    var q;
    q, j := Segment(t, i);
    assert t.Rows(q)[j].In(q);
    OnePhase(t.All()[i], p, q);
  }

  lemma AllUnitsDescribed(t: Tables, orig: Instance)
    requires Lists(t, orig)
    ensures AllDescribe(orig, t.All())
  {
    hide Describes, Tables.All, Tables.Ordered;
    forall i | 0 <= i < |t.All()|
      ensures Describes(orig, t.All()[i])
    {
      var p, j := Segment(t, i);
      assert AllDescribe(orig, t.Rows(p));
    }
  }

  lemma SameIdSameKey(orig: Instance, a: Unit, b: Unit, p: Phase)
    requires Describes(orig, a) && Describes(orig, b) && a.In(p) && b.In(p) && a.id == b.id
    ensures a.At() == b.At()
  {
  }

  lemma AllDistinct(t: Tables, orig: Instance)
    requires Lists(t, orig)
    ensures Distinct(t.All())
  {
    hide Describes, Tables.All, KeyLess;
    AllUnitsDescribed(t, orig);
    forall i, j, p: Phase | 0 <= i < j < |t.All()| && t.All()[i].In(p) && t.All()[j].In(p)
      ensures t.All()[i].id != t.All()[j].id
    {
      var a := SegmentOf(t, i, p);
      var b := SegmentOf(t, j, p);
      if t.All()[i].id == t.All()[j].id {
        SameIdSameKey(orig, t.All()[i], t.All()[j], p);
        KeyLessOneWay(t.Rows(p)[a].At(), t.Rows(p)[b].At());
      }
    }
  }

  lemma PhasesInOrder(t: Tables, p: Phase, q: Phase)
    requires q.Left() > p.Left()
    ensures Before(t, q) + |t.Rows(q)| <= Before(t, p)
  {
  }

  /** A stretch of the walk that reached a phase holds all of the earlier ones. */
  lemma EarlierHeld(t: Tables, w: seq<Unit>, i: nat, p: Phase, q: Phase, j: nat)
    requires t.Ordered() && w <= t.All() && i < |w| && w[i].In(p) && q.Left() > p.Left() && j < |t.Rows(q)|
    ensures Has(w, q, t.Rows(q)[j].id)
  {
    hide Tables.All;
    var k := SegmentOf(t, i, p);
    PhasesInOrder(t, p, q);
    PhaseAt(t, q, j);
    assert w[Before(t, q) + j] == t.Rows(q)[j];
    assert t.Rows(q)[j].In(q);
  }

  // ---- one page --------------------------------------------------------------

  /** A page that continues the walk where the target stands. */
  ghost predicate Continues(s: Setup, orig: Instance, t: Tables, us: seq<Unit>, page: seq<Unit>, inst: Instance) {
    Lists(t, orig) && Exportable(s.env, orig) && us + page <= t.All() && Holds(s, orig, us, inst)
  }

  lemma HasPlus(us: seq<Unit>, page: seq<Unit>, p: Phase, id: string)
    ensures Has(us + page, p, id) <==> Has(us, p, id) || Has(page, p, id)
  {
    if Has(us, p, id) {
      var i :| 0 <= i < |us| && us[i].In(p) && us[i].id == id;
      assert (us + page)[i] == us[i];
    }
    if Has(page, p, id) {
      var i :| 0 <= i < |page| && page[i].In(p) && page[i].id == id;
      assert (us + page)[|us| + i] == page[i];
    }
  }

  lemma Pieces(orig: Instance, t: Tables, us: seq<Unit>, page: seq<Unit>)
    requires Lists(t, orig) && us + page <= t.All()
    ensures AllDescribe(orig, page) && Distinct(page)
    ensures forall p: Phase, id | Has(page, p, id) :: !Has(us, p, id)
  {
    hide Describes, Tables.All, Lists;
    AllUnitsDescribed(t, orig);
    AllDistinct(t, orig);
    forall i | 0 <= i < |page|
      ensures page[i] == t.All()[|us| + i]
    {
      assert (us + page)[|us| + i] == page[i];
    }
    forall p: Phase, id | Has(page, p, id)
      ensures !Has(us, p, id)
    {
      var j :| 0 <= j < |page| && page[j].In(p) && page[j].id == id;
      forall i | 0 <= i < |us| && us[i].In(p)
        ensures us[i].id != id
      {
        assert (us + page)[i] == us[i] && t.All()[i] == us[i];
      }
    }
  }

  lemma PageHasAgent(env: Env, orig: Instance, page: seq<Unit>, id: string)
    requires AllDescribe(orig, page) && Has(page, Agents, id)
    ensures id in AgentIds(EmitAll(env, orig, page))
  {
    hide Describes;
    var i :| 0 <= i < |page| && page[i].In(Agents) && page[i].id == id;
    PageLeads(env, orig, page, i);
  }

  lemma PageHasDoc(env: Env, orig: Instance, page: seq<Unit>, id: string)
    requires AllDescribe(orig, page) && Has(page, Documents, id)
    ensures id in DocIds(EmitAll(env, orig, page))
  {
    hide Describes;
    var i :| 0 <= i < |page| && page[i].In(Documents) && page[i].id == id;
    PageLeads(env, orig, page, i);
  }

  /** Whoever a page refers to is there already or on the page. */
  lemma AgentThere(s: Setup, orig: Instance, t: Tables, us: seq<Unit>, page: seq<Unit>, inst: Instance, i: nat, p: Phase, agent: string)
    requires Continues(s, orig, t, us, page, inst) && i < |page| && page[i].In(p) && !p.Agents? && agent in orig.agents
    requires AllDescribe(orig, page)
    ensures Ctx(s.env, inst, EmitAll(s.env, orig, page), false).Available(agent)
  {
    hide Describes, Exportable, HoldsDocs, HoldsRows, HoldsTombs, HoldsKeys, HoldsClients, Tables.All, EmitAll, AgentIds;
    var j :| 0 <= j < |t.agents| && t.agents[j].id == agent;
    assert t.Rows(Agents)[j].id == agent;
    assert (us + page)[|us| + i] == page[i];
    EarlierHeld(t, us + page, |us| + i, p, Agents, j);
    HasPlus(us, page, Agents, agent);
    if Has(page, Agents, agent) {
      PageHasAgent(s.env, orig, page, agent);
    }
  }

  lemma DocThere(s: Setup, orig: Instance, t: Tables, us: seq<Unit>, page: seq<Unit>, i: nat, doc: string)
    requires Lists(t, orig) && us + page <= t.All() && i < |page| && page[i].TombUnit? && doc in orig.db.docs
    ensures Has(us + page, Documents, doc)
  {
    hide Describes, Tables.All;
    var j :| 0 <= j < |t.docs| && t.docs[j].id == doc;
    assert t.Rows(Documents)[j].id == doc;
    assert (us + page)[|us| + i] == page[i] && page[i].In(SlugTombstones);
    EarlierHeld(t, us + page, |us| + i, SlugTombstones, Documents, j);
  }

  lemma DocIsClear(s: Setup, orig: Instance, t: Tables, us: seq<Unit>, page: seq<Unit>, inst: Instance, i: nat)
    requires Continues(s, orig, t, us, page, inst) && i < |page| && page[i].DocUnit? && AllDescribe(orig, page)
    requires !Has(us, Documents, page[i].id)
    ensures DocClear(Ctx(s.env, inst, EmitAll(s.env, orig, page), false), orig, page[i])
  {
    hide Exportable, HoldsPrincipals, HoldsTombs, Tables.All, EmitAll, Lists, Ctx.Available, Has;
    var c := Ctx(s.env, inst, EmitAll(s.env, orig, page), false);
    var u := page[i];
    ExportParts(s.env, orig);
    assert u.In(Documents) && Describes(orig, u);
    forall v | v in orig.db.vers && v.doc == u.id
      ensures v !in inst.db.vers
      ensures orig.db.vers[v].authorAgent.Some? ==> c.Available(orig.db.vers[v].authorAgent.value)
    {
      if orig.db.vers[v].authorAgent.Some? {
        AgentThere(s, orig, t, us, page, inst, i, Documents, orig.db.vers[v].authorAgent.value);
      }
    }
    if u.doc.createdBy.Some? {
      AgentThere(s, orig, t, us, page, inst, i, Documents, u.doc.createdBy.value);
    }
  }

  lemma ExportParts(env: Env, orig: Instance)
    requires Exportable(env, orig)
    ensures Referential(orig) && Settled(env, orig) && SlugHistory.SlugsOk(orig.db)
  {
    hide Faithful, Serial.UsedBytes;
  }

  lemma PageIsClear(s: Setup, orig: Instance, t: Tables, us: seq<Unit>, page: seq<Unit>, inst: Instance)
    requires Continues(s, orig, t, us, page, inst)
    ensures PageClear(Ctx(s.env, inst, EmitPage(s.env, orig, t, us, page), false), orig, page)
  {
    hide Exportable, HoldsPrincipals, HoldsRows, Tables.All, EmitAll, Lists, DocClear, Describes;
    Pieces(orig, t, us, page);
    forall i | 0 <= i < |page| && page[i].DocUnit?
      ensures DocClear(Ctx(s.env, inst, EmitAll(s.env, orig, page), false), orig, page[i])
    {
      assert page[i].In(Documents);
      assert Has(page, Documents, page[i].id);
      DocIsClear(s, orig, t, us, page, inst, i);
    }
  }

  /** The records of a page of the walk. */
  ghost function EmitPage(env: Env, orig: Instance, t: Tables, us: seq<Unit>, page: seq<Unit>): seq<Record>
    requires Lists(t, orig) && us + page <= t.All()
  {
    Pieces(orig, t, us, page);
    EmitAll(env, orig, page)
  }

  // ---- accounts --------------------------------------------------------------

  lemma AccountStart(s: Setup, orig: Instance, us: seq<Unit>, inst: Instance, c: Ctx)
    requires HoldsDocs(orig, us, inst.db) && HoldsRows(s, orig, us, inst) && c.inst == inst
    ensures Account(c, orig, [])
  {
    hide Serial.SumOf, Has, Backed;
    var live := LiveRows(orig, inst.db.docs.Keys);
    assert inst.db.docs.Keys + PlanIds([]) == inst.db.docs.Keys;
    forall v
      ensures v in Serial.Counted(inst.db) <==> v in live
    {
    }
    assert Serial.Counted(inst.db) == live;
    forall v | v in live
      ensures Serial.RowBytes(inst.db.vers[v]) == Serial.RowBytes(orig.db.vers[v])
    {
      assert RowHeld(s, orig, v, inst);
    }
    SameBytes(inst.db.vers, orig.db.vers, live);
  }

  // ---- the page restored -----------------------------------------------------

  /** What the records of a page carry is what its units are. */
  lemma PageCarries(env: Env, orig: Instance, page: seq<Unit>)
    requires AllDescribe(orig, page)
    ensures
      var recs := EmitAll(env, orig, page);
      && (forall r | r in recs :: True(env, orig, page, r))
      && (forall id :: id in AgentIds(recs) <==> Has(page, Agents, id))
      && (forall id :: KeyOn(recs, id) <==> Has(page, AgentKeys, id))
      && (forall id :: ClientOn(recs, id) <==> Has(page, OAuthClients, id))
      && (forall id :: TombOn(recs, id) <==> Has(page, SlugTombstones, id))
  {
    hide Describes, VersionOf, EmitAll;
    var recs := EmitAll(env, orig, page);
    assert page[0..] == page;
    PageIsTrue(env, orig, page, 0);
    forall i | 0 <= i < |page|
      ensures Lead(env, page[i]) in recs
    {
      PageLeads(env, orig, page, i);
    }
    forall id
      ensures Has(page, Agents, id) ==> id in AgentIds(recs)
      ensures Has(page, AgentKeys, id) ==> KeyOn(recs, id)
      ensures Has(page, OAuthClients, id) ==> ClientOn(recs, id)
      ensures Has(page, SlugTombstones, id) ==> TombOn(recs, id)
    {
      LeadsHas(env, page, recs, id);
    }
  }

  lemma LeadsHas(env: Env, page: seq<Unit>, recs: seq<Record>, id: string)
    requires forall i | 0 <= i < |page| :: Lead(env, page[i]) in recs
    ensures Has(page, Agents, id) ==> id in AgentIds(recs)
    ensures Has(page, AgentKeys, id) ==> KeyOn(recs, id)
    ensures Has(page, OAuthClients, id) ==> ClientOn(recs, id)
    ensures Has(page, SlugTombstones, id) ==> TombOn(recs, id)
  {
    forall i | 0 <= i < |page|
      ensures Lead(env, page[i]).AgentRecord? <==> page[i].In(Agents)
      ensures Lead(env, page[i]).KeyRecord? <==> page[i].In(AgentKeys)
      ensures Lead(env, page[i]).ClientRecord? <==> page[i].In(OAuthClients)
      ensures Lead(env, page[i]).TombRecord? <==> page[i].In(SlugTombstones)
      ensures Lead(env, page[i]).id == page[i].id || Lead(env, page[i]).VersionRecord?
    {
    }
  }

  lemma RefersThere(s: Setup, orig: Instance, t: Tables, us: seq<Unit>, page: seq<Unit>, inst: Instance)
    requires Continues(s, orig, t, us, page, inst) && AllDescribe(orig, page)
    ensures
      var recs := EmitAll(s.env, orig, page);
      var c := Ctx(s.env, inst, recs, false);
      && (forall r | r in recs && r.KeyRecord? :: c.Available(r.key.agentId))
      && (forall r | r in recs && r.ClientRecord? :: c.Available(r.client.agentId))
  {
    hide Describes, VersionOf, EmitAll, HoldsPrincipals, HoldsDocs, HoldsRows, HoldsTombs, Tables.All, Ctx.Available, Lists, Exportable;
    var recs := EmitAll(s.env, orig, page);
    ExportParts(s.env, orig);
    PageCarries(s.env, orig, page);
    forall r | r in recs && (r.KeyRecord? || r.ClientRecord?)
      ensures Ctx(s.env, inst, recs, false).Available(if r.KeyRecord? then r.key.agentId else r.client.agentId)
    {
      assert True(s.env, orig, page, r);
      var p := if r.KeyRecord? then AgentKeys else OAuthClients;
      var i :| 0 <= i < |page| && page[i].In(p) && page[i].id == r.id;
      AgentThere(s, orig, t, us, page, inst, i, p, if r.KeyRecord? then r.key.agentId else r.client.agentId);
    }
  }

  lemma PrincipalsHeld(s: Setup, orig: Instance, t: Tables, us: seq<Unit>, page: seq<Unit>, inst: Instance)
    requires Continues(s, orig, t, us, page, inst) && AllDescribe(orig, page)
    requires forall p: Phase, id | Has(page, p, id) :: !Has(us, p, id)
    ensures HoldsPrincipals(orig, us + page, WithPrincipals(Ctx(s.env, inst, EmitAll(s.env, orig, page), false)))
  {
    hide Describes, VersionOf, EmitAll, HoldsDocs, HoldsRows, HoldsTombs, Tables.All, Ctx.Available, Lists, Exportable, Has,
      RestoreAgents, RestoreKeys, RestoreClients, AgentIds, KeyOn, ClientOn, TombOn;
    var recs := EmitAll(s.env, orig, page);
    var c := Ctx(s.env, inst, recs, false);
    ExportParts(s.env, orig);
    PageCarries(s.env, orig, page);
    RefersThere(s, orig, t, us, page, inst);
    forall p: Phase, id
      ensures Has(us + page, p, id) <==> Has(us, p, id) || Has(page, p, id)
    {
      HasPlus(us, page, p, id);
    }
    assert HoldsAgents(orig, us + page, RestoreAgents(c, recs, inst.agents)) by {
      AgentsRestored(c, orig, page, recs, inst.agents);
    }
    assert HoldsKeys(orig, us + page, RestoreKeys(c, recs, inst.keys)) by {
      KeysRestored(c, orig, page, recs, inst.keys);
    }
    assert HoldsClients(orig, us + page, RestoreClients(c, recs, inst.clients)) by {
      forall r | r in recs && r.ClientRecord?
        ensures r.id !in inst.clients
      {
        assert True(s.env, orig, page, r);
      }
      ClientsRestored(c, orig, page, recs, inst.clients);
    }
  }

  /** Documents held by name and by unit are the same thing. */
  lemma HeldByIds(s: Setup, orig: Instance, us: seq<Unit>, ids: set<string>, inst: Instance)
    requires forall id :: id in ids <==> Has(us, Documents, id)
    ensures DocsHeld(orig, ids, inst.db) <==> HoldsDocs(orig, us, inst.db)
    ensures RowsHeld(s, orig, ids, inst) <==> HoldsRows(s, orig, us, inst)
  {
    hide Has, RowHeld;
  }

  lemma DocsOfHas(page: seq<Unit>, id: string)
    ensures id in DocsOf(page) <==> Has(page, Documents, id)
  {
    if id in DocsOf(page) {
      var u :| u in page && u.DocUnit? && u.id == id;
      var i :| 0 <= i < |page| && page[i] == u;
      assert page[i].In(Documents);
    }
  }

  lemma DocsRestored(s: Setup, orig: Instance, t: Tables, us: seq<Unit>, page: seq<Unit>, inst: Instance)
    requires Continues(s, orig, t, us, page, inst) && AllDescribe(orig, page)
    requires Minting(s) && (forall d :: s.up(d)) && forall p: Phase, id | Has(page, p, id) :: !Has(us, p, id)
    ensures
      var c := Ctx(s.env, inst, EmitAll(s.env, orig, page), false);
      var a := ApplyDocs(s, Applied(WithPrincipals(c), {}), Plans(c));
      && HoldsDocs(orig, us + page, a.inst.db) && HoldsRows(s, orig, us + page, a.inst) && a.failed == {}
      && a.inst == WithPrincipals(c).(db := a.inst.db, r2 := a.inst.r2, minted := a.inst.minted)
      && a.inst.db.tombs == inst.db.tombs
      && PlannedSoFar(c, orig, page, Plans(c))
  {
    hide Describes, EmitAll, HoldsPrincipals, HoldsTombs, Tables.All, Lists, Exportable, Has, RestoreAgents, RestoreKeys,
      RestoreClients, Account, HoldsRows, HoldsDocs, DocsHeld, RowsHeld, GoodPlan, PlanDocs, ApplyDocs, Minting, Serial.UsedBytes, DocsOf;
    var recs := EmitAll(s.env, orig, page);
    var c := Ctx(s.env, inst, recs, false);
    PageIsClear(s, orig, t, us, page, inst);
    AccountStart(s, orig, us, inst, c);
    assert DocsOf([]) == {} by { NoDocs(); }
    assert page[..0] == [] && page[0..] == page;
    PagePlanned(c, orig, page, 0, []);
    var plans := Plans(c);
    forall id
      ensures id in DocsOf(page) <==> Has(page, Documents, id)
      ensures Has(us + page, Documents, id) <==> Has(us, Documents, id) || Has(page, Documents, id)
    {
      DocsOfHas(page, id);
      HasPlus(us, page, Documents, id);
    }
    var ids := inst.db.docs.Keys;
    IdsAre(orig, us, inst.db);
    HeldByIds(s, orig, us, ids, inst);
    HeldByIds(s, orig, us, ids, WithPrincipals(c));
    var a := ApplyDocs(s, Applied(WithPrincipals(c), {}), plans);
    SameRows(s, orig, ids, inst, WithPrincipals(c));
    DocsApplied(s, c, orig, Applied(WithPrincipals(c), {}), plans, ids);
    HeldByIds(s, orig, us + page, ids + DocsOf(page), a.inst);
  }

  lemma NoDocs()
    ensures DocsOf([]) == {}
  {
  }

  lemma IdsAre(orig: Instance, us: seq<Unit>, db: Db)
    requires HoldsDocs(orig, us, db)
    ensures forall id :: id in db.docs.Keys <==> Has(us, Documents, id)
  {
    hide Has;
  }

  lemma SameRows(s: Setup, orig: Instance, ids: set<string>, inst: Instance, inst': Instance)
    requires RowsHeld(s, orig, ids, inst) && inst'.db == inst.db && inst'.r2 == inst.r2 && inst'.minted == inst.minted
    ensures RowsHeld(s, orig, ids, inst')
  {
    hide RowRebuilt, Backed;
    forall v | v in inst.db.vers
      ensures RowHeld(s, orig, v, inst')
    {
      assert RowHeld(s, orig, v, inst);
    }
  }

  lemma NothingStray(s: Setup, orig: Instance, page: seq<Unit>, c: Ctx)
    requires AllDescribe(orig, page) && c.recs == EmitAll(s.env, orig, page) && c.env == s.env
    requires PlannedSoFar(c, orig, page, Plans(c))
    ensures StrayBatches(c) + Gains(Plans(c)) == []
  {
    hide Describes, EmitAll, PlanDocs, GoodPlan, Account, Has, VersionOf, Serial.UsedBytes, Strays;
    PageCarries(s.env, orig, page);
    forall r | r in c.recs && r.VersionRecord?
      ensures r.version.vid.doc in DocIds(c.recs)
    {
      assert True(s.env, orig, page, r);
      PageHasDoc(s.env, orig, page, r.version.vid.doc);
    }
    NoStrays(c.recs, DocIds(c.recs));
    NoGains(s.env, orig, Plans(c));
  }

  /** No tombstone of the page is a name in use, there or on the page. */
  lemma TombsFree(s: Setup, orig: Instance, t: Tables, us: seq<Unit>, page: seq<Unit>, inst: Instance, db: Db, plans: seq<DocPlan>)
    requires Continues(s, orig, t, us, page, inst) && AllDescribe(orig, page)
    requires forall p: Phase, id | Has(page, p, id) :: !Has(us, p, id)
    requires GoodPlans(s.env, orig, plans) && HoldsDocs(orig, us + page, db)
    ensures forall r | r in EmitAll(s.env, orig, page) && r.TombRecord? ::
      && r.id !in inst.db.tombs && r.id !in Held(plans)
      && (forall d | d in inst.db.docs :: inst.db.docs[d].slug != Some(r.id))
      && (r.tomb.doc.Some? ==>
            r.tomb.doc.value in db.docs
            && (r.tomb.doc.value in inst.db.docs || r.tomb.doc.value in DocIds(EmitAll(s.env, orig, page))))
  {
    hide Describes, EmitAll, HoldsPrincipals, HoldsRows, Tables.All, Lists, Exportable, VersionOf, GoodVersion, DocIds;
    var recs := EmitAll(s.env, orig, page);
    ExportParts(s.env, orig);
    PageCarries(s.env, orig, page);
    forall r | r in recs && r.TombRecord?
      ensures r.id !in inst.db.tombs && r.id !in Held(plans)
      ensures forall d | d in inst.db.docs :: inst.db.docs[d].slug != Some(r.id)
      ensures r.tomb.doc.Some? ==>
        r.tomb.doc.value in db.docs && (r.tomb.doc.value in inst.db.docs || r.tomb.doc.value in DocIds(recs))
    {
      assert True(s.env, orig, page, r);
      forall p | p in plans && p.action.Writes()
        ensures p.slug != Some(r.id)
      {
        assert GoodPlan(s.env, orig, p);
      }
      if r.tomb.doc.Some? {
        var i :| 0 <= i < |page| && page[i].In(SlugTombstones) && page[i].id == r.id;
        DocThere(s, orig, t, us, page, i, r.tomb.doc.value);
        HasPlus(us, page, Documents, r.tomb.doc.value);
        if Has(page, Documents, r.tomb.doc.value) {
          PageHasDoc(s.env, orig, page, r.tomb.doc.value);
        }
      }
    }
  }

  lemma TombsHeld(s: Setup, orig: Instance, t: Tables, us: seq<Unit>, page: seq<Unit>, inst: Instance, db: Db, plans: seq<DocPlan>)
    requires Continues(s, orig, t, us, page, inst) && AllDescribe(orig, page)
    requires forall p: Phase, id | Has(page, p, id) :: !Has(us, p, id)
    requires GoodPlans(s.env, orig, plans) && HoldsDocs(orig, us + page, db)
    ensures
      var recs := EmitAll(s.env, orig, page);
      HoldsTombs(orig, us + page, RestoreTombs(Ctx(s.env, inst, recs, false), Held(plans), db.docs.Keys, recs, inst.db.tombs))
  {
    hide Describes, EmitAll, HoldsPrincipals, HoldsRows, HoldsDocs, Tables.All, Lists, Exportable, VersionOf, GoodVersion, DocIds, Has,
      RestoreTombs, Held, GoodPlans, AgentIds, KeyOn, ClientOn, TombOn;
    var recs := EmitAll(s.env, orig, page);
    PageCarries(s.env, orig, page);
    TombsFree(s, orig, t, us, page, inst, db, plans);
    TombsRestored(Ctx(s.env, inst, recs, false), orig, page, Held(plans), db.docs.Keys, recs, inst.db.tombs);
    forall id
      ensures Has(us + page, SlugTombstones, id) <==> Has(us, SlugTombstones, id) || Has(page, SlugTombstones, id)
    {
      HasPlus(us, page, SlugTombstones, id);
    }
  }

  /** Restoring the next page of the walk: nothing fails, and the target holds the
      page's units as well. */
  lemma PageRestored(s: Setup, orig: Instance, t: Tables, us: seq<Unit>, page: seq<Unit>, inst: Instance)
    requires Continues(s, orig, t, us, page, inst) && Minting(s) && (forall d :: s.up(d))
    ensures
      var r := RestorePage(s, inst, EmitPage(s.env, orig, t, us, page), false);
      r.failed == {} && Holds(s, orig, us + page, r.inst)
  {
    hide Describes, EmitAll, HoldsPrincipals, HoldsRows, HoldsDocs, HoldsTombs, Tables.All, Lists, Exportable, Has,
      RestoreTombs, Held, GoodPlans, Account, Plans, ApplyDocs, StrayBatches, Gains, Minting;
    Pieces(orig, t, us, page);
    var recs := EmitAll(s.env, orig, page);
    var c := Ctx(s.env, inst, recs, false);
    PrincipalsHeld(s, orig, t, us, page, inst);
    DocsRestored(s, orig, t, us, page, inst);
    NothingStray(s, orig, page, c);
    var a := ApplyDocs(s, Applied(WithPrincipals(c), {}), Plans(c));
    assert ApplyBatches(s, a, StrayBatches(c) + Gains(Plans(c))) == a;
    TombsHeld(s, orig, t, us, page, inst, a.inst.db, Plans(c));
    var r := RestorePage(s, inst, recs, false);
    assert r == a.(inst := a.inst.(db := a.inst.db.(tombs := r.inst.db.tombs)));
    OtherTables(s, orig, us + page, WithPrincipals(c), a.inst, r.inst);
  }

  lemma OtherTables(s: Setup, orig: Instance, us: seq<Unit>, p: Instance, a: Instance, r: Instance)
    requires HoldsPrincipals(orig, us, p) && HoldsDocs(orig, us, a.db) && HoldsRows(s, orig, us, a)
    requires r == a.(db := a.db.(tombs := r.db.tombs)) && a.agents == p.agents && a.keys == p.keys && a.clients == p.clients
    ensures HoldsPrincipals(orig, us, r) && HoldsDocs(orig, us, r.db) && HoldsRows(s, orig, us, r)
  {
    hide Has, RowRebuilt, Backed;
    forall v | v in a.db.vers
      ensures v in orig.db.vers && RowHeld(s, orig, v, r)
    {
      assert RowHeld(s, orig, v, a);
    }
  }

  // ---- the whole trip --------------------------------------------------------

  /** Pages restored one after the other, skipping what exists. */
  ghost function RestoreAll(s: Setup, orig: Instance, pages: seq<Page>, inst: Instance): Instance
    requires forall i | 0 <= i < |pages| :: AllDescribe(orig, pages[i].units)
    decreases pages
  {
    if pages == [] then inst
    else RestoreAll(s, orig, pages[1..], RestorePage(s, inst, EmitAll(s.env, orig, pages[0].units), false).inst)
  }

  lemma {:induction false} UnitsAreInPages(orig: Instance, pages: seq<Page>)
    requires AllDescribe(orig, UnitsOf(pages))
    ensures forall i | 0 <= i < |pages| :: AllDescribe(orig, pages[i].units)
    decreases pages
  {
    hide Describes;
    if pages != [] {
      forall i | 0 <= i < |pages[0].units|
        ensures Describes(orig, pages[0].units[i])
      {
        assert UnitsOf(pages)[i] == pages[0].units[i];
      }
      forall i | 0 <= i < |UnitsOf(pages[1..])|
        ensures Describes(orig, UnitsOf(pages[1..])[i])
      {
        assert UnitsOf(pages)[|pages[0].units| + i] == UnitsOf(pages[1..])[i];
      }
      UnitsAreInPages(orig, pages[1..]);
    }
  }

  lemma {:induction false} PagesRestored(s: Setup, orig: Instance, t: Tables, us: seq<Unit>, pages: seq<Page>, inst: Instance)
    requires Lists(t, orig) && Exportable(s.env, orig) && us + UnitsOf(pages) == t.All() && Holds(s, orig, us, inst)
    requires Minting(s) && (forall d :: s.up(d)) && forall i | 0 <= i < |pages| :: AllDescribe(orig, pages[i].units)
    ensures Holds(s, orig, t.All(), RestoreAll(s, orig, pages, inst))
    decreases pages
  {
    hide Describes, EmitAll, Holds, Tables.All, Lists, Exportable, RestorePage, Minting;
    if pages == [] {
      assert us + [] == us;
    } else {
      var page := pages[0].units;
      assert us + page + UnitsOf(pages[1..]) == us + UnitsOf(pages);
      assert us + page <= t.All();
      PageRestored(s, orig, t, us, page, inst);
      PagesRestored(s, orig, t, us + page, pages[1..], RestorePage(s, inst, EmitAll(s.env, orig, page), false).inst);
    }
  }

  lemma BlankHoldsNothing(s: Setup, orig: Instance)
    ensures Holds(s, orig, [], BLANK)
  {
  }

  /** The round trip: any walk over any exportable instance, with any page limit,
      restored page by page into an empty instance with the same pipeline, rebuilds
      every agent, key, client binding, tombstone and document exactly, and every
      version with its source and its render. */
  lemma BackupRoundTrip(s: Setup, orig: Instance, t: Tables, limit: nat, pages: seq<Page>)
    requires Lists(t, orig) && Exportable(s.env, orig) && IsWalk(t, None, limit, pages)
    requires Minting(s) && forall d :: s.up(d)
    ensures forall i | 0 <= i < |pages| :: AllDescribe(orig, pages[i].units)
    ensures Rebuilt(s.env, orig, RestoreAll(s, orig, pages, BLANK))
  {
    hide AllDescribe, Lists, Exportable, Holds, Rebuilt, IsWalk, Tables.All, Minting;
    WalkCoversEachUnitOnce(t, None, limit, pages);
    AllUnitsDescribed(t, orig);
    UnitsAreInPages(orig, pages);
    BlankHoldsNothing(s, orig);
    assert [] + UnitsOf(pages) == t.All();
    PagesRestored(s, orig, t, [], pages, BLANK);
    HoldingAllIsRebuilt(s, orig, t, RestoreAll(s, orig, pages, BLANK));
  }
}
