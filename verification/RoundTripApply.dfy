/** Applying the plans of an exported page, and its other records: afterwards the
    target holds the page's units as well. */
module RoundTripApply {
  import opened Records
  import opened D1
  import opened Writes
  import opened Corpus
  import opened Restore
  import opened RoundTrip
  import opened RoundTripPlan
  import opened RoundTripDocs
  import opened RestoreRender
  import Serial
  import SlugHistory

  ghost predicate DocsHeld(orig: Instance, ids: set<string>, db: Db) {
    forall id :: (id in db.docs <==> id in ids) && (id in db.docs ==> id in orig.db.docs && db.docs[id] == orig.db.docs[id])
  }

  ghost predicate RowsHeld(s: Setup, orig: Instance, ids: set<string>, inst: Instance) {
    forall v: VerId ::
      && (v in inst.db.vers <==> v in orig.db.vers && v.doc in ids)
      && (v in inst.db.vers ==> RowHeld(s, orig, v, inst))
  }

  // ---- one document ----------------------------------------------------------

  lemma GoodIsSound(c: Ctx, orig: Instance, vp: VersionPlan)
    requires GoodVersion(c.env, orig, vp) && !c.replace
    ensures Sound(c, vp) && (orig.db.docs[vp.rec.vid.doc].Live() ==> vp.prep.Some?)
  {
    hide ScreenAndPrepare;
  }

  lemma GoodPlanIsSound(c: Ctx, orig: Instance, p: DocPlan)
    requires GoodPlan(c.env, orig, p) && !c.replace
    ensures AllSound(c, p.id, p.doc.Live(), p.versions)
  {
    hide GoodVersion, Sound;
    forall i | 0 <= i < |p.versions|
      ensures Sound(c, p.versions[i]) && (p.doc.Live() ==> p.versions[i].prep.Some?)
    {
      GoodIsSound(c, orig, p.versions[i]);
      VidIsThere(c.env, orig, p.versions[i]);
    }
  }

  lemma VidIsThere(env: Env, orig: Instance, vp: VersionPlan)
    requires GoodVersion(env, orig, vp)
    ensures vp.rec.vid in orig.db.vers && vp.rec.vid.doc in orig.db.docs && vp.action.Create? && vp.was.None?
  {
  }

  lemma RowIsRebuilt(s: Setup, orig: Instance, vp: VersionPlan, nonce: string)
    requires GoodVersion(s.env, orig, vp) && Settled(s.env, orig)
    ensures RowRebuilt(s.env, orig.db.vers[vp.rec.vid], RowFor(s.env, vp, nonce), Serial.IsLive(orig.db, vp.rec.vid.doc))
  {
    hide ScreenAndPrepare;
  }

  /** Rows staged so far are rebuilt ones, and nothing old is given up. */
  ghost predicate StagedRows(s: Setup, orig: Instance, doc: string, plans: seq<VersionPlan>, st: Staged) {
    && st.oldKeys == {}
    && (forall v | v in st.rows ::
          && v in orig.db.vers && v.doc == doc
          && RowRebuilt(s.env, orig.db.vers[v], st.rows[v], Serial.IsLive(orig.db, v.doc)))
    && (forall i | 0 <= i < |plans| :: plans[i].rec.vid in st.rows)
  }

  lemma OneStaged(s: Setup, orig: Instance, doc: string, done: seq<VersionPlan>, st: Staged, vp: VersionPlan)
    requires StagedRows(s, orig, doc, done, st) && GoodVersion(s.env, orig, vp) && vp.rec.vid.doc == doc && Settled(s.env, orig)
    ensures StagedRows(s, orig, doc, done + [vp], StageOne(s, st, vp))
  {
    hide GoodVersion, RowRebuilt, RowFor, Settled;
    VidIsThere(s.env, orig, vp);
    RowIsRebuilt(s, orig, vp, s.mint(st.minted));
  }

  lemma {:induction false} AllStaged(s: Setup, orig: Instance, doc: string, plans: seq<VersionPlan>, k: nat, st: Staged)
    requires k <= |plans| && StagedRows(s, orig, doc, plans[..k], st) && Settled(s.env, orig)
    requires forall i | 0 <= i < |plans| :: GoodVersion(s.env, orig, plans[i]) && plans[i].rec.vid.doc == doc
    ensures StagedRows(s, orig, doc, plans, Stage(s, plans[k..], st))
    decreases |plans| - k
  {
    hide StagedRows, GoodVersion, StageOne, Settled;
    if k < |plans| {
      OneStaged(s, orig, doc, plans[..k], st, plans[k]);
      assert plans[..k] + [plans[k]] == plans[..k + 1];
      assert plans[k..][1..] == plans[k + 1..];
      AllStaged(s, orig, doc, plans, k + 1, StageOne(s, st, plans[k]));
    } else {
      assert plans[..k] == plans;
    }
  }

  lemma IsUnique(s: Setup, orig: Instance, ids: set<string>, db: Db, p: DocPlan)
    requires GoodPlan(s.env, orig, p) && Exportable(s.env, orig) && DocsHeld(orig, ids, db) && p.id !in ids
    ensures DocFor(s.env, p) == orig.db.docs[p.id] && Unique(db, p.id, DocFor(s.env, p))
  {
    hide GoodVersion, Faithful, Serial.UsedBytes;
    var doc := orig.db.docs[p.id];
    assert s.env.cleanTags(doc.tags) == doc.tags;
  }

  lemma StagedForDoc(s: Setup, c: Ctx, orig: Instance, inst: Instance, p: DocPlan)
    requires Minting(s) && c.env == s.env && !c.replace && GoodPlan(s.env, orig, p) && Settled(s.env, orig)
    ensures
      var st := Stage(s, p.versions, Unstaged(inst));
      && st.oldKeys == {} && inst.minted <= st.minted && Survive(s, inst.r2, st.r2, {}, inst.minted)
      && forall v: VerId ::
           && (v in st.rows <==> v in orig.db.vers && v.doc == p.id)
           && (v in st.rows ==>
                 && RowRebuilt(s.env, orig.db.vers[v], st.rows[v], Serial.IsLive(orig.db, v.doc))
                 && (Serial.IsLive(orig.db, v.doc) ==> Backed(s, st.r2, st.rows[v], 0, st.minted)))
  {
    hide Sound, GoodVersion, StageOne, Settled, Backed, RowRebuilt, Recorded, AllKeys;
    var st0 := Unstaged(inst);
    var st := Stage(s, p.versions, st0);
    GoodPlanIsSound(c, orig, p);
    StagedStart(s, p.id, st0, AllKeys(c.inst.db));
    StageIsOk(s, c, p.id, p.doc.Live(), st0, st0, p.versions);
    assert p.versions[..0] == [] && p.versions[0..] == p.versions;
    AllStaged(s, orig, p.id, p.versions, 0, st0);
    if p.doc.Live() {
      StageBacks(s, c, p.id, st0, p.versions, 0);
    }
    hide Stage;
    forall v | v in orig.db.vers && v.doc == p.id
      ensures v in st.rows
    {
      var i :| 0 <= i < |p.versions| && p.versions[i].rec.vid == v;
    }
  }

  lemma DocApplied(s: Setup, c: Ctx, orig: Instance, a: Applied, p: DocPlan, ids: set<string>)
    requires Minting(s) && c.env == s.env && !c.replace && s.up(p.id) && GoodPlan(s.env, orig, p) && Exportable(s.env, orig)
    requires DocsHeld(orig, ids, a.inst.db) && RowsHeld(s, orig, ids, a.inst) && p.id !in ids
    ensures
      var a' := ApplyDoc(s, a, p);
      && DocsHeld(orig, ids + {p.id}, a'.inst.db) && RowsHeld(s, orig, ids + {p.id}, a'.inst)
      && a'.failed == a.failed && a'.inst == a.inst.(db := a'.inst.db, r2 := a'.inst.r2, minted := a'.inst.minted)
      && a'.inst.db.tombs == a.inst.db.tombs
  {
    hide GoodVersion, Exportable, Backed, RowRebuilt, Unique, Minting, DocFor, Stage, GoodPlan, RowsHeld, Settled, Survive, ApplyDoc;
    ExportSettled(s.env, orig);
    StagedForDoc(s, c, orig, a.inst, p);
    IsUnique(s, orig, ids, a.inst.db, p);
    var st := Stage(s, p.versions, Unstaged(a.inst));
    DocEffect(s, orig, a, p, st);
    RowsApplied(s, orig, ids, a.inst, ApplyDoc(s, a, p).inst, st, p.id);
  }

  lemma ExportSettled(env: Env, orig: Instance)
    requires Exportable(env, orig)
    ensures Settled(env, orig)
  {
    hide Settled;
  }

  /** A good plan whose batch goes through. */
  lemma DocEffect(s: Setup, orig: Instance, a: Applied, p: DocPlan, st: Staged)
    requires GoodPlan(s.env, orig, p) && s.up(p.id) && Unique(a.inst.db, p.id, DocFor(s.env, p))
    requires st == Stage(s, p.versions, Unstaged(a.inst)) && st.oldKeys == {}
    ensures ApplyDoc(s, a, p) ==
              Applied(a.inst.(db := Db(a.inst.db.docs[p.id := DocFor(s.env, p)], a.inst.db.vers + st.rows, a.inst.db.tombs),
                              r2 := st.r2, minted := st.minted), a.failed)
    ensures p.id in orig.db.docs
  {
    hide GoodVersion, Unique, DocFor, Stage;
    assert st.r2 - ({} + {}) == st.r2;
    assert a.inst.db.vers - {} == a.inst.db.vers;
  }

  lemma RowsApplied(s: Setup, orig: Instance, ids: set<string>, inst: Instance, inst': Instance, st: Staged, doc: string)
    requires Minting(s) && RowsHeld(s, orig, ids, inst) && doc !in ids
    requires inst'.r2 == st.r2 && inst'.db.vers == inst.db.vers + st.rows && inst'.minted == st.minted
    requires inst.minted <= st.minted && Survive(s, inst.r2, st.r2, {}, inst.minted)
    requires forall v: VerId ::
      && (v in st.rows <==> v in orig.db.vers && v.doc == doc)
      && (v in st.rows ==>
            && RowRebuilt(s.env, orig.db.vers[v], st.rows[v], Serial.IsLive(orig.db, v.doc))
            && (Serial.IsLive(orig.db, v.doc) ==> Backed(s, st.r2, st.rows[v], 0, st.minted)))
    ensures RowsHeld(s, orig, ids + {doc}, inst')
  {
    hide Backed, RowRebuilt;
    forall v | v in inst.db.vers && Serial.IsLive(orig.db, v.doc)
      ensures Backed(s, st.r2, inst.db.vers[v], 0, st.minted)
    {
      assert RowHeld(s, orig, v, inst);
      BackedSurvives(s, inst.r2, st.r2, {}, inst.db.vers[v], 0, inst.minted, inst.minted, st.minted);
    }
  }

  lemma {:induction false} DocsApplied(s: Setup, c: Ctx, orig: Instance, a: Applied, plans: seq<DocPlan>, ids: set<string>)
    requires Minting(s) && c.env == s.env && !c.replace && (forall d :: s.up(d)) && GoodPlans(s.env, orig, plans) && Exportable(s.env, orig)
    requires DocsHeld(orig, ids, a.inst.db) && RowsHeld(s, orig, ids, a.inst) && ids !! PlanIds(plans)
    requires forall i, j | 0 <= i < j < |plans| :: plans[i].id != plans[j].id
    ensures
      var a' := ApplyDocs(s, a, plans);
      && DocsHeld(orig, ids + PlanIds(plans), a'.inst.db) && RowsHeld(s, orig, ids + PlanIds(plans), a'.inst)
      && a'.failed == a.failed && a'.inst == a.inst.(db := a'.inst.db, r2 := a'.inst.r2, minted := a'.inst.minted)
      && a'.inst.db.tombs == a.inst.db.tombs
    decreases plans
  {
    hide GoodPlan, Exportable, DocsHeld, RowsHeld, ApplyDoc, Minting;
    if plans == [] {
      assert ids + PlanIds(plans) == ids;
    } else {
      assert plans[0] in plans;
      DocApplied(s, c, orig, a, plans[0], ids);
      forall p | p in plans[1..]
        ensures p in plans && p.id != plans[0].id
      {
      }
      DocsApplied(s, c, orig, ApplyDoc(s, a, plans[0]), plans[1..], ids + {plans[0].id});
      assert ids + {plans[0].id} + PlanIds(plans[1..]) == ids + PlanIds(plans) by { HeadId(plans); }
    }
  }

  lemma HeadId(plans: seq<DocPlan>)
    requires plans != []
    ensures PlanIds(plans) == {plans[0].id} + PlanIds(plans[1..])
  {
    assert plans == [plans[0]] + plans[1..];
  }

  // ---- nothing stray ---------------------------------------------------------

  lemma {:induction false} NoStrays(recs: seq<Record>, docs: set<string>)
    requires forall r | r in recs && r.VersionRecord? :: r.version.vid.doc in docs
    ensures Strays(recs, docs, []) == []
    decreases recs
  {
    if recs != [] {
      assert recs[0] in recs;
      NoStrays(recs[1..], docs);
    }
  }

  lemma {:induction false} NoGains(env: Env, orig: Instance, plans: seq<DocPlan>)
    requires GoodPlans(env, orig, plans)
    ensures Gains(plans) == []
    decreases plans
  {
    hide GoodVersion;
    if plans != [] {
      assert GoodPlan(env, orig, plans[0]);
      NoGains(env, orig, plans[1..]);
    }
  }

  // ---- principals and tombstones ---------------------------------------------

  lemma {:induction false} AgentsRestored(c: Ctx, orig: Instance, page: seq<Unit>, recs: seq<Record>, agents: map<string, Agent>)
    requires !c.replace && forall r | r in recs :: True(c.env, orig, page, r)
    requires forall id | id in agents :: id in orig.agents && agents[id] == orig.agents[id]
    ensures
      var after := RestoreAgents(c, recs, agents);
      forall id ::
        && (id in after <==> id in agents || (id !in c.inst.agents && id in AgentIds(recs)))
        && (id in after ==> id in orig.agents && after[id] == orig.agents[id])
    decreases recs
  {
    hide VersionOf, Has;
    if recs != [] {
      assert recs[0] in recs && True(c.env, orig, page, recs[0]);
      AgentsRestored(c, orig, page, recs[1..], if recs[0].AgentRecord? && recs[0].id !in c.inst.agents then agents[recs[0].id := recs[0].agent] else agents);
      forall id
        ensures id in AgentIds(recs) <==> (recs[0].AgentRecord? && recs[0].id == id) || id in AgentIds(recs[1..])
      {
        assert recs == [recs[0]] + recs[1..];
      }
    }
  }

  ghost predicate KeyOn(recs: seq<Record>, id: string) { exists r :: r in recs && r.KeyRecord? && r.id == id }
  ghost predicate ClientOn(recs: seq<Record>, id: string) { exists r :: r in recs && r.ClientRecord? && r.id == id }
  ghost predicate TombOn(recs: seq<Record>, id: string) { exists r :: r in recs && r.TombRecord? && r.id == id }

  lemma {:induction false} KeysRestored(c: Ctx, orig: Instance, page: seq<Unit>, recs: seq<Record>, keys: map<string, AgentKey>)
    requires !c.replace && forall r | r in recs :: True(c.env, orig, page, r)
    requires forall r | r in recs && r.KeyRecord? :: c.Available(r.key.agentId)
    requires forall id | id in keys :: id in orig.keys && keys[id] == orig.keys[id]
    ensures
      var after := RestoreKeys(c, recs, keys);
      forall id ::
        && (id in after <==> id in keys || (id !in c.inst.keys && KeyOn(recs, id)))
        && (id in after ==> id in orig.keys && after[id] == orig.keys[id])
    decreases recs
  {
    hide VersionOf, Has, Ctx.Available;
    if recs != [] {
      assert recs[0] in recs && True(c.env, orig, page, recs[0]);
      KeysRestored(c, orig, page, recs[1..], if recs[0].KeyRecord? && recs[0].id !in c.inst.keys then keys[recs[0].id := recs[0].key] else keys);
      forall id
        ensures KeyOn(recs, id) <==> (recs[0].KeyRecord? && recs[0].id == id) || KeyOn(recs[1..], id)
      {
        assert recs == [recs[0]] + recs[1..];
      }
    }
  }

  lemma {:induction false} ClientsRestored(c: Ctx, orig: Instance, page: seq<Unit>, recs: seq<Record>, clients: map<string, Client>)
    requires !c.replace && forall r | r in recs :: True(c.env, orig, page, r)
    requires forall r | r in recs && r.ClientRecord? :: c.Available(r.client.agentId) && r.id !in c.inst.clients
    requires forall a, b | a in orig.clients && b in orig.clients && a != b :: orig.clients[a].agentId != orig.clients[b].agentId
    requires forall id | id in c.inst.clients :: id in orig.clients && c.inst.clients[id] == orig.clients[id]
    requires forall id | id in clients :: id in orig.clients && clients[id] == orig.clients[id]
    ensures
      var after := RestoreClients(c, recs, clients);
      forall id ::
        && (id in after <==> id in clients || ClientOn(recs, id))
        && (id in after ==> id in orig.clients && after[id] == orig.clients[id])
    decreases recs
  {
    hide VersionOf, Has, Ctx.Available, WritesClient, True;
    if recs != [] {
      assert recs[0] in recs;
      if recs[0].ClientRecord? {
        ClientWritten(c, orig, page, recs[0], clients);
      }
      ClientsRestored(c, orig, page, recs[1..], if recs[0].ClientRecord? then clients[recs[0].id := recs[0].client] else clients);
      forall id
        ensures ClientOn(recs, id) <==> (recs[0].ClientRecord? && recs[0].id == id) || ClientOn(recs[1..], id)
      {
        assert recs == [recs[0]] + recs[1..];
      }
    }
  }

  lemma ClientWritten(c: Ctx, orig: Instance, page: seq<Unit>, r: Record, clients: map<string, Client>)
    requires r.ClientRecord? && True(c.env, orig, page, r) && c.Available(r.client.agentId) && r.id !in c.inst.clients
    requires forall a, b | a in orig.clients && b in orig.clients && a != b :: orig.clients[a].agentId != orig.clients[b].agentId
    requires forall id | id in c.inst.clients :: id in orig.clients && c.inst.clients[id] == orig.clients[id]
    requires forall id | id in clients :: id in orig.clients && clients[id] == orig.clients[id]
    ensures WritesClient(c, clients, r) && r.id in orig.clients && orig.clients[r.id] == r.client
  {
    hide VersionOf, Has, Ctx.Available;
  }

  lemma {:induction false} TombsRestored(c: Ctx, orig: Instance, page: seq<Unit>, held: set<string>, docs: set<string>,
                                         recs: seq<Record>, tombs: map<string, Tomb>)
    requires !c.replace && forall r | r in recs :: True(c.env, orig, page, r)
    requires forall r | r in recs && r.TombRecord? ::
      && r.id !in c.inst.db.tombs && r.id !in held
      && (forall d | d in c.inst.db.docs :: c.inst.db.docs[d].slug != Some(r.id))
      && (r.tomb.doc.Some? ==>
            r.tomb.doc.value in docs && (r.tomb.doc.value in c.inst.db.docs || r.tomb.doc.value in DocIds(c.recs)))
    requires forall id | id in tombs :: id in orig.db.tombs && tombs[id] == orig.db.tombs[id]
    ensures
      var after := RestoreTombs(c, held, docs, recs, tombs);
      forall id ::
        && (id in after <==> id in tombs || TombOn(recs, id))
        && (id in after ==> id in orig.db.tombs && after[id] == orig.db.tombs[id])
    decreases recs
  {
    hide VersionOf, Has, DocIds;
    if recs != [] {
      assert recs[0] in recs && True(c.env, orig, page, recs[0]);
      TombsRestored(c, orig, page, held, docs, recs[1..], if recs[0].TombRecord? then tombs[recs[0].id := recs[0].tomb] else tombs);
      forall id
        ensures TombOn(recs, id) <==> (recs[0].TombRecord? && recs[0].id == id) || TombOn(recs[1..], id)
      {
        assert recs == [recs[0]] + recs[1..];
      }
    }
  }
}
