/** What an exported unit becomes in the file, which instances export faithfully,
    and what it means for another instance to have been rebuilt from the file. */
module RoundTrip {
  import opened Records
  import opened D1
  import opened Writes
  import opened Corpus
  import opened Restore
  import Serial
  import Sums
  import SlugHistory
  import RestoreRender

  // ---- the file --------------------------------------------------------------

  /** A version with its blobs inline. A revoked document's are gone; a row without
      a digest gets its source's; the writing client is not exported. */
  function VersionOf(inst: Instance, vid: VerId): VersionRec
    requires vid in inst.db.vers && vid.doc in inst.db.docs
  {
    var row := inst.db.vers[vid];
    var live := inst.db.docs[vid.doc].Live();
    var html := if live && row.hKey in inst.r2 then Some(inst.r2[row.hKey]) else None;
    var source := if live && row.sKey.Some? && row.sKey.value in inst.r2 then Some(inst.r2[row.sKey.value]) else None;
    VersionRec(vid,
               row.(authorClient := None,
                    sha := if row.sha.None? && source.Some? then Some(Digest(source.value)) else row.sha),
               html, source)
  }

  function VersionsOf(inst: Instance, rows: seq<VerId>): seq<Record>
    requires forall i | 0 <= i < |rows| :: rows[i] in inst.db.vers && rows[i].doc in inst.db.docs
  {
    if rows == [] then [] else [VersionRecord(VersionOf(inst, rows[0]))] + VersionsOf(inst, rows[1..])
  }

  /** The unit is what the instance holds under its id. */
  ghost predicate Describes(inst: Instance, u: Unit) {
    match u
    case AgentUnit(id, a) => id in inst.agents && inst.agents[id] == a
    case KeyUnit(id, k) => id in inst.keys && inst.keys[id] == k
    case ClientUnit(id, c) => id in inst.clients && inst.clients[id] == c
    case DocUnit(id, d, rows) =>
      && id in inst.db.docs && inst.db.docs[id] == d
      && Sums.SetOf(rows) == Serial.RowsOf(inst.db, id) && Sums.Ascending(rows)
    case TombUnit(id, t) => id in inst.db.tombs && inst.db.tombs[id] == t
  }

  /** The records of one unit: a document goes with all its versions. */
  ghost function Emit(env: Env, inst: Instance, u: Unit): seq<Record>
    requires Describes(inst, u)
  {
    match u
    case AgentUnit(id, a) => [AgentRecord(id, a)]
    case KeyUnit(id, k) => [KeyRecord(id, k)]
    case ClientUnit(id, c) => [ClientRecord(id, c)]
    case DocUnit(id, d, rows) =>
      ListedRows(inst, u);
      [DocRecord(id, d.(tags := env.cleanTags(d.tags)))] + VersionsOf(inst, rows)
    case TombUnit(id, t) => [TombRecord(id, t)]
  }

  /** One unit's lines, the version rows read and written out in turn. */
  method EmitUnit(env: Env, inst: Instance, u: Unit) returns (recs: seq<Record>)
    requires Describes(inst, u)
    ensures recs == Emit(env, inst, u)
  {
    hide VersionOf;
    match u {
      case AgentUnit(id, a) => recs := [AgentRecord(id, a)];
      case KeyUnit(id, k) => recs := [KeyRecord(id, k)];
      case ClientUnit(id, c) => recs := [ClientRecord(id, c)];
      case TombUnit(id, t) => recs := [TombRecord(id, t)];
      case DocUnit(id, d, rows) =>
        ListedRows(inst, u);
        recs := [DocRecord(id, d.(tags := env.cleanTags(d.tags)))];
        assert rows[0..] == rows;
        for i := 0 to |rows|
          invariant recs + VersionsOf(inst, rows[i..]) == Emit(env, inst, u)
        {
          assert rows[i..][1..] == rows[i + 1..];
          recs := recs + [VersionRecord(VersionOf(inst, rows[i]))];
        }
    }
  }

  /** What the file says of a version: the row but for the client, and the digest of
      its source where the row has none; source and render just as they are stored
      when the document is live, and no bytes at all when it is revoked. */
  ghost predicate AsStored(inst: Instance, vid: VerId, v: VersionRec)
    requires vid in inst.db.vers && vid.doc in inst.db.docs
  {
    var row, live := inst.db.vers[vid], inst.db.docs[vid.doc].Live();
    && v.vid == vid && v.row == row.(authorClient := None, sha := v.row.sha)
    && (row.sha.Some? ==> v.row.sha == row.sha)
    && (row.sha.None? ==> v.row.sha == if v.source.Some? then Some(Digest(v.source.value)) else None)
    && (v.html.Some? <==> live && row.hKey in inst.r2) && (v.html.Some? ==> v.html.value == inst.r2[row.hKey])
    && (v.source.Some? <==> live && row.sKey.Some? && row.sKey.value in inst.r2)
    && (v.source.Some? ==> v.source.value == inst.r2[row.sKey.value])
  }

  lemma {:induction false} VersionsAsStored(inst: Instance, rows: seq<VerId>, i: nat)
    requires (forall j | 0 <= j < |rows| :: rows[j] in inst.db.vers && rows[j].doc in inst.db.docs) && i < |rows|
    ensures
      var recs := VersionsOf(inst, rows);
      |recs| == |rows| && recs[i].VersionRecord? && AsStored(inst, rows[i], recs[i].version)
    decreases rows
  {
    if |rows| > 1 {
      VersionsAsStored(inst, rows[1..], if i > 0 then i - 1 else 0);
    }
  }

  /** A document's lines: the document, with its tags cleaned, then each of its
      versions, lowest number first. */
  lemma DocumentIsExported(env: Env, inst: Instance, u: Unit, i: nat)
    requires u.DocUnit? && Describes(inst, u)
    ensures
      var recs := Emit(env, inst, u);
      && recs != [] && recs[0] == DocRecord(u.id, inst.db.docs[u.id].(tags := env.cleanTags(inst.db.docs[u.id].tags)))
      && |recs| == 1 + |Serial.RowsOf(inst.db, u.id)|
      && (1 <= i < |recs| ==>
            && recs[i].VersionRecord? && recs[i].version.vid in inst.db.vers && recs[i].version.vid.doc == u.id
            && AsStored(inst, recs[i].version.vid, recs[i].version)
            && (i + 1 < |recs| && recs[i + 1].VersionRecord? ==> recs[i].version.vid.no < recs[i + 1].version.vid.no))
  {
    hide VersionOf, AsStored, VersionsOf;
    ListedRows(inst, u);
    var rows := u.rows;
    Sums.AscendingCount(rows);
    if rows == [] {
      assert VersionsOf(inst, []) == [] by { NoVersions(inst); }
    } else {
      VersionsAsStored(inst, rows, 0);
      StoredIs(inst, rows[0], VersionsOf(inst, rows)[0].version);
    }
    if 1 <= i <= |rows| {
      VersionsAsStored(inst, rows, i - 1);
      StoredIs(inst, rows[i - 1], VersionsOf(inst, rows)[i - 1].version);
      if i < |rows| {
        VersionsAsStored(inst, rows, i);
        StoredIs(inst, rows[i], VersionsOf(inst, rows)[i].version);
      }
    }
  }

  lemma NoVersions(inst: Instance)
    ensures VersionsOf(inst, []) == []
  {
  }

  lemma StoredIs(inst: Instance, vid: VerId, v: VersionRec)
    requires vid in inst.db.vers && vid.doc in inst.db.docs && AsStored(inst, vid, v)
    ensures v.vid == vid
  {
  }

  lemma ListedRows(inst: Instance, u: Unit)
    requires u.DocUnit? && Describes(inst, u)
    ensures forall i | 0 <= i < |u.rows| :: u.rows[i] in inst.db.vers && u.rows[i].doc == u.id && u.rows[i].doc in inst.db.docs
  {
    forall i | 0 <= i < |u.rows|
      ensures u.rows[i] in inst.db.vers && u.rows[i].doc == u.id
    {
      assert u.rows[i] in Sums.SetOf(u.rows);
    }
  }

  ghost predicate AllDescribe(inst: Instance, us: seq<Unit>) {
    forall i | 0 <= i < |us| :: Describes(inst, us[i])
  }

  ghost function EmitAll(env: Env, inst: Instance, us: seq<Unit>): seq<Record>
    requires AllDescribe(inst, us)
  {
    if us == [] then [] else Emit(env, inst, us[0]) + EmitAll(env, inst, us[1..])
  }

  // ---- what is exported ------------------------------------------------------

  /** The tables list the instance, row for row. */
  ghost predicate Lists(t: Tables, inst: Instance) {
    && t.Ordered() && (forall p: Phase :: AllDescribe(inst, t.Rows(p)))
    && (forall id | id in inst.agents :: exists i :: 0 <= i < |t.agents| && t.agents[i].id == id)
    && (forall id | id in inst.keys :: exists i :: 0 <= i < |t.keys| && t.keys[i].id == id)
    && (forall id | id in inst.clients :: exists i :: 0 <= i < |t.clients| && t.clients[i].id == id)
    && (forall id | id in inst.db.docs :: exists i :: 0 <= i < |t.docs| && t.docs[i].id == id)
    && (forall id | id in inst.db.tombs :: exists i :: 0 <= i < |t.tombs| && t.tombs[i].id == id)
  }

  /** The version of a live document as the pipeline of `env` would store it. */
  ghost predicate Faithful(env: Env, inst: Instance, row: Version) {
    && row.sKey.Some? && row.sKey.value in inst.r2 && row.hKey in inst.r2
    && var source := inst.r2[row.sKey.value];
    && row.sha == Some(Digest(source))
    && inst.r2[row.hKey] == env.RenderOf(source, row.format)
    && ScreenAndPrepare(env, source, row.format) == Prepared(Prep(env.RenderOf(source, row.format), source, row.format))
    && row.size == Utf8Size(env.RenderOf(source, row.format)) && row.sourceSize == Some(Utf8Size(source))
  }

  /** References name rows, identities are unique. */
  ghost predicate Referential(inst: Instance) {
    && (forall k | k in inst.keys :: inst.keys[k].agentId in inst.agents)
    && (forall k | k in inst.clients :: inst.clients[k].agentId in inst.agents)
    && (forall a, b | a in inst.clients && b in inst.clients && a != b :: inst.clients[a].agentId != inst.clients[b].agentId)
    && (forall a, b | a in inst.db.docs && b in inst.db.docs && a != b :: inst.db.docs[a].publicId != inst.db.docs[b].publicId)
    && (forall d | d in inst.db.docs && inst.db.docs[d].createdBy.Some? :: inst.db.docs[d].createdBy.value in inst.agents)
    && (forall v | v in inst.db.vers :: v.doc in inst.db.docs)
    && (forall v | v in inst.db.vers && inst.db.vers[v].authorAgent.Some? :: inst.db.vers[v].authorAgent.value in inst.agents)
    && (forall n | n in inst.db.tombs && inst.db.tombs[n].doc.Some? :: inst.db.tombs[n].doc.value in inst.db.docs)
  }

  /** Titles and descriptions that normalise to themselves. */
  ghost predicate SettledTexts(env: Env, db: Db) {
    forall v | v in db.vers ::
      && Normal(env.cleanTitle, db.vers[v].title) == db.vers[v].title
      && Normal(env.cleanDescription, db.vers[v].description) == db.vers[v].description
  }

  /** Tags that do. */
  ghost predicate SettledTags(env: Env, db: Db) {
    forall d | d in db.docs :: env.cleanTags(db.docs[d].tags) == db.docs[d].tags
  }

  ghost predicate Settled(env: Env, inst: Instance) {
    SettledTexts(env, inst.db) && SettledTags(env, inst.db)
  }

  ghost predicate Exportable(env: Env, inst: Instance) {
    && Referential(inst) && Settled(env, inst) && SlugHistory.SlugsOk(inst.db)
    && (forall v | v in inst.db.vers && Serial.IsLive(inst.db, v.doc) :: Faithful(env, inst, inst.db.vers[v]))
    && (forall d | d in inst.db.docs && inst.db.docs[d].Live() ::
          && (inst.db.docs[d].current.Some? ==> VerId(d, inst.db.docs[d].current.value) in inst.db.vers)
          && (inst.db.docs[d].published.Some? ==> VerId(d, inst.db.docs[d].published.value) in inst.db.vers))
    && Serial.WithinCap(env, inst.db)
  }

  // ---- what is rebuilt -------------------------------------------------------

  ghost predicate Has(us: seq<Unit>, p: Phase, id: string) {
    exists i :: 0 <= i < |us| && us[i].In(p) && us[i].id == id
  }

  /** A row after the trip: everything but its keys, its client and, for a live
      document, the measures of a render made anew. */
  ghost predicate RowRebuilt(env: Env, was: Version, row: Version, live: bool) {
    && row.sha == was.sha && row.format == was.format && row.title == was.title && row.description == was.description
    && row.authorKind == was.authorKind && row.authorAgent == was.authorAgent && row.createdAt == was.createdAt
    && row.authorClient == None
    && row.size == was.size && row.sourceSize == was.sourceSize
    && if live then row.sanitizer == env.sanitizerVersion
       else row.hKey == was.hKey && row.sKey == was.sKey && row.sanitizer == was.sanitizer
  }

  /** The instance holds exactly the units `us` of the original. */
  ghost predicate Holds(s: Setup, orig: Instance, us: seq<Unit>, inst: Instance) {
    && HoldsPrincipals(orig, us, inst)
    && HoldsDocs(orig, us, inst.db)
    && HoldsRows(s, orig, us, inst)
    && HoldsTombs(orig, us, inst.db.tombs)
  }

  ghost predicate HoldsAgents(orig: Instance, us: seq<Unit>, agents: map<string, Agent>) {
    forall id :: (id in agents <==> Has(us, Agents, id)) && (id in agents ==> id in orig.agents && agents[id] == orig.agents[id])
  }

  ghost predicate HoldsKeys(orig: Instance, us: seq<Unit>, keys: map<string, AgentKey>) {
    forall id :: (id in keys <==> Has(us, AgentKeys, id)) && (id in keys ==> id in orig.keys && keys[id] == orig.keys[id])
  }

  ghost predicate HoldsClients(orig: Instance, us: seq<Unit>, clients: map<string, Client>) {
    forall id :: (id in clients <==> Has(us, OAuthClients, id)) && (id in clients ==> id in orig.clients && clients[id] == orig.clients[id])
  }

  ghost predicate HoldsPrincipals(orig: Instance, us: seq<Unit>, inst: Instance) {
    HoldsAgents(orig, us, inst.agents) && HoldsKeys(orig, us, inst.keys) && HoldsClients(orig, us, inst.clients)
  }

  ghost predicate HoldsDocs(orig: Instance, us: seq<Unit>, db: Db) {
    forall id :: (id in db.docs <==> Has(us, Documents, id)) && (id in db.docs ==> id in orig.db.docs && db.docs[id] == orig.db.docs[id])
  }

  ghost predicate HoldsTombs(orig: Instance, us: seq<Unit>, tombs: map<string, Tomb>) {
    forall id :: (id in tombs <==> Has(us, SlugTombstones, id)) && (id in tombs ==> id in orig.db.tombs && tombs[id] == orig.db.tombs[id])
  }

  ghost predicate HoldsRows(s: Setup, orig: Instance, us: seq<Unit>, inst: Instance) {
    forall v: VerId ::
      && (v in inst.db.vers <==> v in orig.db.vers && Has(us, Documents, v.doc))
      && (v in inst.db.vers ==> RowHeld(s, orig, v, inst))
  }

  ghost predicate RowHeld(s: Setup, orig: Instance, v: VerId, inst: Instance)
    requires v in inst.db.vers && v in orig.db.vers
  {
    && RowRebuilt(s.env, orig.db.vers[v], inst.db.vers[v], Serial.IsLive(orig.db, v.doc))
    && (Serial.IsLive(orig.db, v.doc) ==> RestoreRender.Backed(s, inst.r2, inst.db.vers[v], 0, inst.minted))
  }

  /** Everything is back: principals, documents, tombstones and versions, and every
      live version serves the same source and the same render. */
  ghost predicate Rebuilt(env: Env, orig: Instance, inst: Instance) {
    && inst.agents == orig.agents && inst.keys == orig.keys && inst.clients == orig.clients
    && inst.db.docs == orig.db.docs && inst.db.tombs == orig.db.tombs
    && inst.db.vers.Keys == orig.db.vers.Keys
    && forall v | v in orig.db.vers ::
         var was, row := orig.db.vers[v], inst.db.vers[v];
         && RowRebuilt(env, was, row, Serial.IsLive(orig.db, v.doc))
         && (Serial.IsLive(orig.db, v.doc) ==>
               && was.sKey.Some? && was.sKey.value in orig.r2 && was.hKey in orig.r2
               && row.sKey.Some? && row.sKey.value in inst.r2 && row.hKey in inst.r2
               && inst.r2[row.sKey.value] == orig.r2[was.sKey.value]
               && inst.r2[row.hKey] == orig.r2[was.hKey])
  }

  /** Holding every unit of the tables is being rebuilt. */
  lemma HoldingAllIsRebuilt(s: Setup, orig: Instance, t: Tables, inst: Instance)
    requires Lists(t, orig) && Exportable(s.env, orig) && Holds(s, orig, t.All(), inst)
    ensures Rebuilt(s.env, orig, inst)
  {
    hide HoldsRows, HoldsDocs, HoldsTombs, HoldsAgents, HoldsKeys, HoldsClients, Lists, Exportable, Tables.All, RowRebuilt;
    AllHas(orig, t);
    RowsRebuilt(s, orig, t, inst);
    SameTables(orig, t.All(), inst);
  }

  lemma SameTables(orig: Instance, us: seq<Unit>, inst: Instance)
    requires HoldsPrincipals(orig, us, inst) && HoldsDocs(orig, us, inst.db) && HoldsTombs(orig, us, inst.db.tombs)
    requires forall id | id in orig.agents :: Has(us, Agents, id)
    requires forall id | id in orig.keys :: Has(us, AgentKeys, id)
    requires forall id | id in orig.clients :: Has(us, OAuthClients, id)
    requires forall id | id in orig.db.docs :: Has(us, Documents, id)
    requires forall id | id in orig.db.tombs :: Has(us, SlugTombstones, id)
    ensures inst.agents == orig.agents && inst.keys == orig.keys && inst.clients == orig.clients
    ensures inst.db.docs == orig.db.docs && inst.db.tombs == orig.db.tombs
  {
    hide Has;
  }

  lemma RowsRebuilt(s: Setup, orig: Instance, t: Tables, inst: Instance)
    requires Exportable(s.env, orig) && HoldsRows(s, orig, t.All(), inst)
    requires forall id | id in orig.db.docs :: Has(t.All(), Documents, id)
    ensures inst.db.vers.Keys == orig.db.vers.Keys
    ensures forall v | v in orig.db.vers ::
         var was, row := orig.db.vers[v], inst.db.vers[v];
         && RowRebuilt(s.env, was, row, Serial.IsLive(orig.db, v.doc))
         && (Serial.IsLive(orig.db, v.doc) ==>
               && was.sKey.Some? && was.sKey.value in orig.r2 && was.hKey in orig.r2
               && row.sKey.Some? && row.sKey.value in inst.r2 && row.hKey in inst.r2
               && inst.r2[row.sKey.value] == orig.r2[was.sKey.value]
               && inst.r2[row.hKey] == orig.r2[was.hKey])
  {
    hide Has, Tables.All, RestoreRender.Backed, Settled, Serial.UsedBytes, SlugHistory.SlugsOk, Faithful;
    forall v | v in orig.db.vers
      ensures v in inst.db.vers && RowHeld(s, orig, v, inst)
    {
      assert v.doc in orig.db.docs;
    }
    forall v | v in orig.db.vers && Serial.IsLive(orig.db, v.doc)
      ensures
        var was, row := orig.db.vers[v], inst.db.vers[v];
        && was.sKey.Some? && was.sKey.value in orig.r2 && was.hKey in orig.r2
        && row.sKey.Some? && row.sKey.value in inst.r2 && row.hKey in inst.r2
        && inst.r2[row.sKey.value] == orig.r2[was.sKey.value]
        && inst.r2[row.hKey] == orig.r2[was.hKey]
    {
      BackedParts(s, inst.r2, inst.db.vers[v], inst.minted);
      FaithfulParts(s.env, orig, orig.db.vers[v]);
    }
  }

  lemma FaithfulParts(env: Env, inst: Instance, row: Version)
    requires Faithful(env, inst, row)
    ensures row.sKey.Some? && row.sKey.value in inst.r2 && row.hKey in inst.r2
    ensures row.sha == Some(Digest(inst.r2[row.sKey.value])) && inst.r2[row.hKey] == env.RenderOf(inst.r2[row.sKey.value], row.format)
  {
    hide ScreenAndPrepare;
  }

  lemma BackedParts(s: Setup, r2: map<Key, string>, row: Version, hi: nat)
    requires RestoreRender.Backed(s, r2, row, 0, hi)
    ensures row.sKey.Some? && row.hKey in r2 && row.sKey.value in r2
    ensures row.sha == Some(Digest(r2[row.sKey.value])) && r2[row.hKey] == s.env.RenderOf(r2[row.sKey.value], row.format)
  {
  }

  lemma AllHas(orig: Instance, t: Tables)
    requires Lists(t, orig)
    ensures forall id | id in orig.agents :: Has(t.All(), Agents, id)
    ensures forall id | id in orig.keys :: Has(t.All(), AgentKeys, id)
    ensures forall id | id in orig.clients :: Has(t.All(), OAuthClients, id)
    ensures forall id | id in orig.db.docs :: Has(t.All(), Documents, id)
    ensures forall id | id in orig.db.tombs :: Has(t.All(), SlugTombstones, id)
  {
    PhasesOfAll(t);
    forall p: Phase, i | 0 <= i < |t.Rows(p)|
      ensures Has(t.All(), p, t.Rows(p)[i].id)
    {
      PhaseInAll(t, p, i);
    }
    assert t.Rows(Agents) == t.agents && t.Rows(AgentKeys) == t.keys && t.Rows(OAuthClients) == t.clients;
    assert t.Rows(Documents) == t.docs && t.Rows(SlugTombstones) == t.tombs;
  }

  lemma PhasesOfAll(t: Tables)
    ensures t.All() == t.agents + (t.keys + (t.clients + (t.docs + (t.tombs + []))))
  {
    assert t.Later(Documents) == t.tombs + t.Later(SlugTombstones);
    assert t.Later(OAuthClients) == t.docs + t.Later(Documents);
    assert t.Later(AgentKeys) == t.clients + t.Later(OAuthClients);
    assert t.Later(Agents) == t.keys + t.Later(AgentKeys);
  }

  /** How many units come before a phase. */
  function Before(t: Tables, p: Phase): nat {
    match p
    case Agents => 0
    case AgentKeys => |t.agents|
    case OAuthClients => |t.agents| + |t.keys|
    case Documents => |t.agents| + |t.keys| + |t.clients|
    case SlugTombstones => |t.agents| + |t.keys| + |t.clients| + |t.docs|
  }

  lemma PhaseAt(t: Tables, p: Phase, i: nat)
    requires i < |t.Rows(p)|
    ensures Before(t, p) + i < |t.All()| && t.All()[Before(t, p) + i] == t.Rows(p)[i]
  {
    PhasesOfAll(t);
  }

  lemma PhaseInAll(t: Tables, p: Phase, i: nat)
    requires t.Ordered() && i < |t.Rows(p)|
    ensures Has(t.All(), p, t.Rows(p)[i].id)
  {
    PhaseAt(t, p, i);
    assert t.Rows(p)[i].In(p);
  }
}
