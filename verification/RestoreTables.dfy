/** The small tables of a restored page, told of its records: agents, keys, OAuth
    clients and tombstones (src/backup.ts). */
module RestoreTables {
  import opened Records
  import opened D1
  import opened Writes
  import opened Corpus
  import opened Restore
  import opened RestoreContents
  import RestoreNames
  import RestoreOutcome
  import Serial
  import SlugHistory

  /** A table holds this under `id`, or what it held before. */
  ghost predicate Holds<T(!new)>(table: map<string, T>, id: string, value: T) {
    id in table && table[id] == value
  }

  ghost predicate Keeps<T(!new)>(was: map<string, T>, table: map<string, T>, id: string) {
    (id in was <==> id in table) && (id in was ==> table[id] == was[id])
  }

  // ---- agents and keys -------------------------------------------------------

  lemma {:induction false} AgentsAfter(c: Ctx, recs: seq<Record>, agents: map<string, Agent>, id: string, agent: Agent)
    requires forall r | r in recs && r.AgentRecord? && r.id == id :: r.agent == agent
    ensures
      if AgentRecord(id, agent) in recs && (id in c.inst.agents ==> c.replace) then Holds(RestoreAgents(c, recs, agents), id, agent)
      else Keeps(agents, RestoreAgents(c, recs, agents), id)
    decreases recs
  {
    if recs != [] {
      assert recs == [recs[0]] + recs[1..];
      var next := if recs[0].AgentRecord? && (c.replace || recs[0].id !in c.inst.agents) then agents[recs[0].id := recs[0].agent] else agents;
      AgentsAfter(c, recs[1..], next, id, agent);
      if AgentRecord(id, agent) in recs && AgentRecord(id, agent) !in recs[1..] {
        assert recs[0] == AgentRecord(id, agent);
      }
    }
  }

  lemma {:induction false} KeysAfter(c: Ctx, recs: seq<Record>, keys: map<string, AgentKey>, id: string, key: AgentKey)
    requires forall r | r in recs && r.KeyRecord? && r.id == id :: r.key == key
    ensures
      if KeyRecord(id, key) in recs && Known(c, key.agentId) && (id in c.inst.keys ==> c.replace) then Holds(RestoreKeys(c, recs, keys), id, key)
      else Keeps(keys, RestoreKeys(c, recs, keys), id)
    decreases recs
  {
    hide Known, Ctx.Available;
    KnownIsAvailable(c, key.agentId);
    if recs != [] {
      assert recs == [recs[0]] + recs[1..];
      var next := if recs[0].KeyRecord? && c.Available(recs[0].key.agentId) && (c.replace || recs[0].id !in c.inst.keys)
                  then keys[recs[0].id := recs[0].key] else keys;
      KeysAfter(c, recs[1..], next, id, key);
      if KeyRecord(id, key) in recs && KeyRecord(id, key) !in recs[1..] {
        assert recs[0] == KeyRecord(id, key);
      }
    }
  }

  // ---- clients ---------------------------------------------------------------

  /** No client other than this one is bound to the agent, here or on the page. */
  ghost predicate Unbound(clients: map<string, Client>, recs: seq<Record>, id: string, agent: string) {
    && (forall d | d in clients && d != id :: clients[d].agentId != agent)
    && (forall r | r in recs && r.ClientRecord? && r.id != id :: r.client.agentId != agent)
  }

  lemma {:induction false} ClientsAfter(c: Ctx, recs: seq<Record>, clients: map<string, Client>, id: string, client: Client)
    requires forall r | r in recs && r.ClientRecord? && r.id == id :: r.client == client
    requires Unbound(clients, recs, id, client.agentId) && Unbound(c.inst.clients, recs, id, client.agentId)
    ensures
      if ClientRecord(id, client) in recs && Known(c, client.agentId) && (id in c.inst.clients ==> c.replace) then
        Holds(RestoreClients(c, recs, clients), id, client)
      else Keeps(clients, RestoreClients(c, recs, clients), id)
    decreases recs
  {
    hide Known, Ctx.Available;
    KnownIsAvailable(c, client.agentId);
    if recs != [] {
      assert recs == [recs[0]] + recs[1..];
      var next := if recs[0].ClientRecord? && WritesClient(c, clients, recs[0]) then clients[recs[0].id := recs[0].client] else clients;
      ClientsAfter(c, recs[1..], next, id, client);
      if ClientRecord(id, client) in recs && ClientRecord(id, client) !in recs[1..] {
        assert recs[0] == ClientRecord(id, client);
      }
    }
  }

  /** An agent is bound to one client. */
  ghost predicate OneClientEach(clients: map<string, Client>) {
    forall a, b | a in clients && b in clients && a != b :: clients[a].agentId != clients[b].agentId
  }

  lemma {:induction false} ClientsStayApart(c: Ctx, recs: seq<Record>, clients: map<string, Client>)
    requires OneClientEach(clients)
    ensures OneClientEach(RestoreClients(c, recs, clients))
    decreases recs
  {
    hide Ctx.Available;
    if recs != [] {
      var next := if recs[0].ClientRecord? && WritesClient(c, clients, recs[0]) then clients[recs[0].id := recs[0].client] else clients;
      ClientsStayApart(c, recs[1..], next);
    }
  }

  /** Whoever is bound elsewhere, and stays so, is not bound again. */
  lemma {:induction false} NeverBoundAgain(c: Ctx, recs: seq<Record>, clients: map<string, Client>, id: string, other: string)
    requires other in clients && id != other && forall r | r in recs && r.ClientRecord? :: r.id != other
    requires forall r | r in recs && r.ClientRecord? && r.id == id :: r.client.agentId == clients[other].agentId
    ensures Keeps(clients, RestoreClients(c, recs, clients), id)
    decreases recs
  {
    hide Ctx.Available;
    if recs != [] {
      assert recs == [recs[0]] + recs[1..];
      var next := if recs[0].ClientRecord? && WritesClient(c, clients, recs[0]) then clients[recs[0].id := recs[0].client] else clients;
      NeverBoundAgain(c, recs[1..], next, id, other);
    }
  }

  // ---- tombstones ------------------------------------------------------------

  /** The document a tombstone names, forgotten when no one knows it. */
  ghost function Owner(c: Ctx, t: Tomb): Option<string> {
    if t.doc.Some? && t.doc.value !in c.inst.db.docs && (forall r | r in c.recs && r.DocRecord? :: r.id != t.doc.value) then None else t.doc
  }

  ghost predicate Buries(c: Ctx, held: set<string>, docs: set<string>, name: string, t: Tomb) {
    && !RestoreNames.InUse(c.inst.db, name) && name !in held && (name in c.inst.db.tombs ==> c.replace)
    && (Owner(c, t).Some? ==> Owner(c, t).value in docs)
  }

  lemma OneTomb(c: Ctx, held: set<string>, docs: set<string>, tombs: map<string, Tomb>, r: Record)
    requires r.TombRecord?
    ensures TombAfter(c, held, docs, tombs, r) ==
              if Buries(c, held, docs, r.id, r.tomb) then tombs[r.id := r.tomb.(doc := Owner(c, r.tomb))] else tombs
  {
  }

  lemma {:induction false} TombsAfterwards(c: Ctx, held: set<string>, docs: set<string>, recs: seq<Record>, tombs: map<string, Tomb>, name: string, t: Tomb)
    requires forall r | r in recs && r.TombRecord? && r.id == name :: r.tomb == t
    ensures
      var after := RestoreTombs(c, held, docs, recs, tombs);
      if TombRecord(name, t) in recs && Buries(c, held, docs, name, t) then Holds(after, name, t.(doc := Owner(c, t)))
      else Keeps(tombs, after, name)
    decreases recs
  {
    hide TombAfter, Buries, Owner;
    if recs != [] {
      assert recs == [recs[0]] + recs[1..];
      if recs[0].TombRecord? {
        OneTomb(c, held, docs, tombs, recs[0]);
      }
      TombsAfterwards(c, held, docs, recs[1..], if recs[0].TombRecord? then TombAfter(c, held, docs, tombs, recs[0]) else tombs, name, t);
      if TombRecord(name, t) in recs && TombRecord(name, t) !in recs[1..] {
        assert recs[0] == TombRecord(name, t);
      }
    }
  }

  // ---- the page --------------------------------------------------------------

  lemma {:induction false} DocsKeepTables(s: Setup, a: Applied, plans: seq<DocPlan>)
    ensures
      var i := ApplyDocs(s, a, plans).inst;
      i.agents == a.inst.agents && i.keys == a.inst.keys && i.clients == a.inst.clients && i.db.tombs == a.inst.db.tombs
    decreases plans
  {
    hide Unique, DocFor, Stage;
    if plans != [] {
      DocsKeepTables(s, ApplyDoc(s, a, plans[0]), plans[1..]);
    }
  }

  lemma {:induction false} BatchesKeepTables(s: Setup, a: Applied, bs: seq<Restore.Batch>)
    ensures
      var i := ApplyBatches(s, a, bs).inst;
      i.agents == a.inst.agents && i.keys == a.inst.keys && i.clients == a.inst.clients && i.db.tombs == a.inst.db.tombs
    decreases bs
  {
    hide Stage;
    if bs != [] {
      BatchesKeepTables(s, ApplyBatch(s, a, bs[0]), bs[1..]);
    }
  }

  lemma PageTables(s: Setup, inst: Instance, recs: seq<Record>, replace: bool)
    ensures
      var c, after := Ctx(s.env, inst, recs, replace), RestorePage(s, inst, recs, replace).inst;
      && after.agents == RestoreAgents(c, recs, inst.agents) && after.keys == RestoreKeys(c, recs, inst.keys)
      && after.clients == RestoreClients(c, recs, inst.clients)
      && after.db.tombs == RestoreTombs(c, Held(Plans(c)), after.db.docs.Keys, recs, inst.db.tombs)
  {
    hide PlanDocs, PlanStrays, ApplyDocs, ApplyBatches, RestoreTombs, Serial.UsedBytes, Gains, Held, Strays, RestoreAgents, RestoreKeys, RestoreClients;
    var c := Ctx(s.env, inst, recs, replace);
    DocsKeepTables(s, Applied(WithPrincipals(c), {}), Plans(c));
    BatchesKeepTables(s, ApplyDocs(s, Applied(WithPrincipals(c), {}), Plans(c)), StrayBatches(c) + Gains(Plans(c)));
  }

  /** An agent or key recorded once comes in as recorded, unless one is there that
      is not to be replaced, or a key's agent is neither here nor on the page; the
      rest of both tables stays. */
  lemma AgentsAndKeysCome(s: Setup, inst: Instance, recs: seq<Record>, replace: bool, id: string, agent: Agent, key: AgentKey)
    requires forall r | r in recs && r.AgentRecord? && r.id == id :: r.agent == agent
    requires forall r | r in recs && r.KeyRecord? && r.id == id :: r.key == key
    ensures
      var c, after := Ctx(s.env, inst, recs, replace), RestorePage(s, inst, recs, replace).inst;
      && (if AgentRecord(id, agent) in recs && (id in inst.agents ==> replace) then Holds(after.agents, id, agent)
          else Keeps(inst.agents, after.agents, id))
      && (if KeyRecord(id, key) in recs && Known(c, key.agentId) && (id in inst.keys ==> replace) then Holds(after.keys, id, key)
          else Keeps(inst.keys, after.keys, id))
  {
    hide RestorePage, Known, RestoreAgents, RestoreKeys, RestoreClients, RestoreTombs, Plans, Held;
    var c := Ctx(s.env, inst, recs, replace);
    PageTables(s, inst, recs, replace);
    AgentsAfter(c, recs, inst.agents, id, agent);
    KeysAfter(c, recs, inst.keys, id, key);
  }

  /** A client whose agent no other client is bound to comes in the same way; one
      whose agent is bound to a client the page does not mention never does; and no
      agent is ever bound to two. */
  lemma ClientsCome(s: Setup, inst: Instance, recs: seq<Record>, replace: bool, id: string, client: Client)
    requires OneClientEach(inst.clients) && forall r | r in recs && r.ClientRecord? && r.id == id :: r.client == client
    ensures
      var c, after := Ctx(s.env, inst, recs, replace), RestorePage(s, inst, recs, replace).inst.clients;
      && OneClientEach(after)
      && (Unbound(inst.clients, recs, id, client.agentId) ==>
            if ClientRecord(id, client) in recs && Known(c, client.agentId) && (id in inst.clients ==> replace) then Holds(after, id, client)
            else Keeps(inst.clients, after, id))
      && (forall other | other in inst.clients && other != id && inst.clients[other].agentId == client.agentId
             && (forall r | r in recs && r.ClientRecord? :: r.id != other) :: Keeps(inst.clients, after, id))
  {
    hide RestorePage, Known, RestoreAgents, RestoreKeys, RestoreClients, RestoreTombs, Plans, Held, Keeps, OneClientEach, Unbound;
    var c := Ctx(s.env, inst, recs, replace);
    PageTables(s, inst, recs, replace);
    ClientsStayApart(c, recs, inst.clients);
    if Unbound(inst.clients, recs, id, client.agentId) {
      ClientsAfter(c, recs, inst.clients, id, client);
    }
    forall other | other in inst.clients && other != id && inst.clients[other].agentId == client.agentId
             && (forall r | r in recs && r.ClientRecord? :: r.id != other)
      ensures Keeps(inst.clients, RestorePage(s, inst, recs, replace).inst.clients, id)
    {
      NeverBoundAgain(c, recs, inst.clients, id, other);
    }
  }

  lemma {:induction false} PromisedAreAsked(c: Ctx, recs: seq<Record>, used: nat, plans: seq<DocPlan>)
    requires (forall r | r in recs :: r in c.recs) && forall p | p in plans :: Binds(c, p)
    ensures forall p | p in PlanDocs(c, recs, used, plans) :: Binds(c, p)
    decreases recs
  {
    hide PlanDoc, Held, Spending, Binds;
    if recs != [] {
      assert recs[0] in recs && forall r | r in recs[1..] :: r in recs;
      if recs[0].DocRecord? {
        PlanBinds(c, recs[0].id, recs[0].doc, used + Spending(plans), Held(plans));
        PromisedAreAsked(c, recs[1..], used, plans + [PlanDoc(c, recs[0].id, recs[0].doc, used + Spending(plans), Held(plans))]);
      } else {
        PromisedAreAsked(c, recs[1..], used, plans);
      }
    }
  }

  lemma UnaskedIsNotHeld(c: Ctx, name: string)
    requires forall r | r in c.recs && r.DocRecord? :: r.doc.slug != Some(name)
    ensures name !in Held(Plans(c))
  {
    hide PlanDocs, Serial.UsedBytes;
    PromisedAreAsked(c, c.recs, Serial.UsedBytes(c.inst.db), []);
    forall p | p in Plans(c) && p.action.Writes() && p.slug.Some?
      ensures p.slug.value != name
    {
      assert Binds(c, p);
    }
  }

  /** A tombstone recorded once comes in as recorded when no live document has the
      name, no document of the page asks for it, and there is none that is not to be
      replaced; it forgets a document no one knows, and is left out when its
      document is not there in the end. A name in use is never buried. */
  lemma TombstonesCome(s: Setup, inst: Instance, recs: seq<Record>, replace: bool, name: string, t: Tomb)
    requires forall r | r in recs && r.TombRecord? && r.id == name :: r.tomb == t
    ensures
      var c, after := Ctx(s.env, inst, recs, replace), RestorePage(s, inst, recs, replace).inst.db;
      && (RestoreNames.InUse(c.inst.db, name) || TombRecord(name, t) !in recs || (name in inst.db.tombs && !replace) ==> Keeps(inst.db.tombs, after.tombs, name))
      && (!RestoreNames.InUse(c.inst.db, name) && (forall r | r in recs && r.DocRecord? :: r.doc.slug != Some(name))
          && TombRecord(name, t) in recs && (name in inst.db.tombs ==> replace) ==>
            if Owner(c, t).Some? && Owner(c, t).value !in after.docs then Keeps(inst.db.tombs, after.tombs, name)
            else Holds(after.tombs, name, t.(doc := Owner(c, t))))
  {
    hide RestorePage, RestoreAgents, RestoreKeys, RestoreClients, RestoreTombs, Plans, Held, Owner, RestoreNames.InUse, Holds, Keeps;
    var c := Ctx(s.env, inst, recs, replace);
    PageTables(s, inst, recs, replace);
    var after := RestorePage(s, inst, recs, replace).inst.db;
    TombsAfterwards(c, Held(Plans(c)), after.docs.Keys, recs, inst.db.tombs, name, t);
    if forall r | r in recs && r.DocRecord? :: r.doc.slug != Some(name) {
      UnaskedIsNotHeld(c, name);
    }
  }

  // ---- names given up in a replacement ---------------------------------------

  lemma HolderAsked(s: Setup, c: Ctx, d: string, name: string)
    requires s.env == c.env && RestoreNames.PageOk(c.recs)
    requires forall r | r in c.recs && r.DocRecord? :: r.doc.slug != Some(name)
    ensures
      var docs := RestorePage(s, c.inst, c.recs, c.replace).inst.db.docs;
      d in docs && docs[d].slug == Some(name) ==> d in c.inst.db.docs && c.inst.db.docs[d].slug == Some(name)
  {
    hide PlanDocs, RestorePage, Serial.UsedBytes, RestoreTombs, Held, RestoreNames.PlansOk;
    RestoreNames.PageAsPlanned(s, c.inst, c.recs, c.replace);
    PromisedAreAsked(c, c.recs, Serial.UsedBytes(c.inst.db), []);
    forall i | 0 <= i < |Plans(c)| && Plans(c)[i].action.Writes()
      ensures Plans(c)[i].slug != Some(name)
    {
      assert Plans(c)[i] in Plans(c) && Binds(c, Plans(c)[i]);
    }
  }

  /** Restoring with replace is the one way a name is shed without being spent: the
      name a document had and its record has not is held by no one afterwards and
      not retired either, unless the page itself asks for it or retires it. */
  lemma ReplacedNameIsFree(s: Setup, inst: Instance, recs: seq<Record>, id: string, doc: Doc, name: string)
    requires SlugHistory.SlugsOk(inst.db) && id in inst.db.docs && inst.db.docs[id].slug == Some(name)
    requires RestoreNames.PageOk(recs) && DocRecord(id, doc) in recs
    requires Room(Ctx(s.env, inst, recs, true)) && Comes(Ctx(s.env, inst, recs, true), id, doc)
    requires id !in RestorePage(s, inst, recs, true).failed
    requires forall r | r in recs && r.DocRecord? :: r.doc.slug != Some(name)
    requires forall r | r in recs && r.TombRecord? :: r.id != name
    ensures
      var db := RestorePage(s, inst, recs, true).inst.db;
      name !in db.tombs && forall d | d in db.docs :: db.docs[d].slug != Some(name)
  {
    hide RestorePage, Room, RestoreNames.PageOk, Comes, RowsAfter, NameClear, Owner, RestoreNames.InUse;
    var c := Ctx(s.env, inst, recs, true);
    var db := RestorePage(s, inst, recs, true).inst.db;
    RestoreOutcome.DocumentComesAsRecorded(s, inst, recs, true, id, doc);
    TombstonesCome(s, inst, recs, true, name, Tomb(None, "", Revoked, None));
    forall d | d in db.docs
      ensures db.docs[d].slug != Some(name)
    {
      HolderAsked(s, c, d, name);
      if d == id {
        assert DocAsRecorded(c, id, doc, db.docs[id]);
      }
    }
  }
}
