/** Restoring one backup page into an instance: every record is planned against
    what the database holds, then the plans are applied (restoreBackupCore in
    src/backup.ts). */
module Restore {
  import opened Records
  import opened D1
  import opened Writes
  import opened Corpus
  import Serial

  /** `minted` counts the blob nonces handed out so far. */
  datatype Instance = Instance(
    agents: map<string, Agent>,
    keys: map<string, AgentKey>,
    clients: map<string, Client>,
    db: Db,
    r2: map<Key, string>,
    minted: nat)

  const BLANK := Instance(map[], map[], map[], EMPTY, map[], 0)

  /** A version with both blobs inline; `html` travels but is never read. */
  datatype VersionRec = VersionRec(vid: VerId, row: Version, html: Option<string>, source: Option<string>)

  datatype Record =
    | AgentRecord(id: string, agent: Agent)
    | KeyRecord(id: string, key: AgentKey)
    | ClientRecord(id: string, client: Client)
    | DocRecord(id: string, doc: Doc)
    | VersionRecord(version: VersionRec)
    | TombRecord(id: string, tomb: Tomb)

  /** The target's pipeline, its nonce supply, which documents' batches D1 is there
      for, and for which the derived rows that follow a batch can be written. */
  datatype Setup = Setup(env: Env, mint: nat -> string, up: string -> bool, derives: string -> bool)

  // ---- reading the page ------------------------------------------------------

  function AgentIds(recs: seq<Record>): set<string> {
    set r | r in recs && r.AgentRecord? :: r.id
  }

  function DocIds(recs: seq<Record>): set<string> {
    set r | r in recs && r.DocRecord? :: r.id
  }

  /** The version records of one document, in the order of the page. */
  function VersionsFor(recs: seq<Record>, doc: string): seq<VersionRec> {
    if recs == [] then []
    else
      (if recs[0].VersionRecord? && recs[0].version.vid.doc == doc then [recs[0].version] else [])
      + VersionsFor(recs[1..], doc)
  }

  /** What planning looks at: the instance before, the page, the conflict mode. */
  datatype Ctx = Ctx(env: Env, inst: Instance, recs: seq<Record>, replace: bool)
  {
    predicate Available(agent: string) { agent in inst.agents || agent in AgentIds(recs) }
  }

  // ---- agents, keys, clients -------------------------------------------------

  function RestoreAgents(c: Ctx, recs: seq<Record>, agents: map<string, Agent>): map<string, Agent> {
    if recs == [] then agents
    else
      RestoreAgents(c, recs[1..],
        if recs[0].AgentRecord? && (c.replace || recs[0].id !in c.inst.agents)
        then agents[recs[0].id := recs[0].agent] else agents)
  }

  function RestoreKeys(c: Ctx, recs: seq<Record>, keys: map<string, AgentKey>): map<string, AgentKey> {
    if recs == [] then keys
    else
      RestoreKeys(c, recs[1..],
        if recs[0].KeyRecord? && c.Available(recs[0].key.agentId) && (c.replace || recs[0].id !in c.inst.keys)
        then keys[recs[0].id := recs[0].key] else keys)
  }

  /** Some client other than `self` is bound to the agent. */
  predicate Bound(clients: map<string, Client>, agent: string, self: string) {
    exists id :: id in clients && id != self && clients[id].agentId == agent
  }

  /** An agent is bound to one client: a record for an agent bound elsewhere is
      skipped, and one that collides within the page is refused by the index. */
  predicate WritesClient(c: Ctx, clients: map<string, Client>, r: Record)
    requires r.ClientRecord?
  {
    && c.Available(r.client.agentId)
    && (if r.id in c.inst.clients then c.replace else !Bound(c.inst.clients, r.client.agentId, r.id))
    && !Bound(clients, r.client.agentId, r.id)
  }

  function RestoreClients(c: Ctx, recs: seq<Record>, clients: map<string, Client>): map<string, Client> {
    if recs == [] then clients
    else
      RestoreClients(c, recs[1..],
        if recs[0].ClientRecord? && WritesClient(c, clients, recs[0])
        then clients[recs[0].id := recs[0].client] else clients)
  }

  // ---- planning versions -----------------------------------------------------

  datatype Action = Create | Replace | Skip | Corrupt | SourceUnavailable | MissingDependency | Rejected
  {
    predicate Writes() { Create? || Replace? }
    predicate Clean() { Create? || Replace? || Skip? }
  }

  /** `prep` is there when bytes will be written, `was` the row it would replace. */
  datatype VersionPlan = VersionPlan(rec: VersionRec, action: Action, prep: Option<Prep>, was: Option<Version>)
  {
    function Spent(): nat { if prep.Some? then prep.value.Bytes() else 0 }
  }

  function OnConflict(exists_: bool, replace: bool): Action {
    if !exists_ then Create else if replace then Replace else Skip
  }

  /** H is always rendered anew from the record's source. */
  ghost function PlanVersion(c: Ctx, v: VersionRec, docLive: bool, used: nat): VersionPlan {
    var was := if v.vid in c.inst.db.vers then Some(c.inst.db.vers[v.vid]) else None;
    var onConflict := OnConflict(was.Some?, c.replace);
    if v.row.authorAgent.Some? && !c.Available(v.row.authorAgent.value) then VersionPlan(v, MissingDependency, None, was)
    else if !docLive || onConflict.Skip? then VersionPlan(v, onConflict, None, was)
    else if v.source.None? then VersionPlan(v, Action.SourceUnavailable, None, was)
    else if v.row.sha != Some(Digest(v.source.value)) then VersionPlan(v, Corrupt, None, was)
    else
      match ScreenAndPrepare(c.env, v.source.value, v.row.format)
      case Refused(_) => VersionPlan(v, Rejected, None, was)
      case Prepared(prep) =>
        if used + prep.Bytes() > c.env.storageCap then VersionPlan(v, Rejected, None, was)
        else VersionPlan(v, onConflict, Some(prep), was)
  }

  function SpentBy(plans: seq<VersionPlan>): nat {
    if plans == [] then 0 else SpentBy(plans[..|plans| - 1]) + plans[|plans| - 1].Spent()
  }

  /** Versions are planned in turn, each against what the ones before will store. */
  ghost function PlanVersions(c: Ctx, vs: seq<VersionRec>, docLive: bool, used: nat, plans: seq<VersionPlan>): seq<VersionPlan>
    decreases vs
  {
    if vs == [] then plans
    else PlanVersions(c, vs[1..], docLive, used, plans + [PlanVersion(c, vs[0], docLive, used + SpentBy(plans))])
  }

  // ---- planning documents ----------------------------------------------------

  datatype DocPlan = DocPlan(
    id: string,
    doc: Doc,
    action: Action,
    slug: Option<string>,
    versions: seq<VersionPlan>,
    spent: nat,
    extra: set<VerId>,
    extraKeys: set<Key>)

  /** The names the plans so far will bind. */
  function Held(plans: seq<DocPlan>): set<string> {
    set p | p in plans && p.action.Writes() && p.slug.Some? :: p.slug.value
  }

  function Spending(plans: seq<DocPlan>): nat {
    if plans == [] then 0 else Spending(plans[..|plans| - 1]) + plans[|plans| - 1].spent
  }

  /** The database binds the id or the public id to something else. */
  predicate IdentityConflict(db: Db, id: string, publicId: string) {
    || (id in db.docs && db.docs[id].publicId != publicId)
    || (exists d :: d in db.docs && d != id && db.docs[d].publicId == publicId)
  }

  predicate LiveHolder(db: Db, name: string, self: string) {
    exists d :: d in db.docs && d != self && db.docs[d].Live() && db.docs[d].slug == Some(name)
  }

  /** A name held, retired or promised is not given: the document comes back
      without it. */
  function SlugGranted(c: Ctx, id: string, slug: Option<string>, held: set<string>): Option<string> {
    if slug.None? || LiveHolder(c.inst.db, slug.value, id) || slug.value in c.inst.db.tombs || slug.value in held
    then None else slug
  }

  /** The first plan for version `no` will write its bytes. */
  predicate Restorable(plans: seq<VersionPlan>, no: nat) {
    exists i :: 0 <= i < |plans| && plans[i].rec.vid.no == no && plans[i].prep.Some?
      && forall j | 0 <= j < i :: plans[j].rec.vid.no != no
  }

  /** A live document needs its current and its published version on the page. */
  predicate Renderable(doc: Doc, plans: seq<VersionPlan>) {
    && (doc.current.Some? ==> Restorable(plans, doc.current.value))
    && (doc.published.Some? ==> Restorable(plans, doc.published.value))
  }

  /** Rejected with its document, a version is neither written nor counted clean. */
  function Demoted(plans: seq<VersionPlan>): seq<VersionPlan> {
    seq(|plans|, i requires 0 <= i < |plans| =>
      plans[i].(action := if plans[i].action.Clean() then Skip else plans[i].action, prep := None))
  }

  function Dropped(db: Db, id: string, vs: seq<VersionRec>): set<VerId> {
    set v | v in db.vers && v.doc == id && forall i | 0 <= i < |vs| :: vs[i].vid != v
  }

  function KeysOfRows(db: Db, vs: set<VerId>): set<Key> {
    set v, k | v in vs && v in db.vers && k in db.vers[v].Keys() :: k
  }

  ghost function PlanDoc(c: Ctx, id: string, doc: Doc, used: nat, held: set<string>): DocPlan {
    var vs := VersionsFor(c.recs, id);
    if IdentityConflict(c.inst.db, id, doc.publicId) then DocPlan(id, doc, Rejected, None, [], 0, {}, {})
    else if doc.createdBy.Some? && !c.Available(doc.createdBy.value) then DocPlan(id, doc, MissingDependency, None, [], 0, {}, {})
    else
      var action := OnConflict(id in c.inst.db.docs, c.replace);
      if action.Skip? then
        var plans := PlanVersions(c, vs, c.inst.db.docs[id].Live(), used, []);
        DocPlan(id, doc, Skip, c.inst.db.docs[id].slug, plans, SpentBy(plans), {}, {})
      else
        var plans := PlanVersions(c, vs, doc.Live(), used, []);
        if doc.Live() && !Renderable(doc, plans) then
          DocPlan(id, doc, Rejected, None, Demoted(plans), SpentBy(plans), {}, {})
        else
          var extra := if action.Replace? then Dropped(c.inst.db, id, vs) else {};
          DocPlan(id, doc, action, SlugGranted(c, id, doc.slug, held), plans, SpentBy(plans), extra, KeysOfRows(c.inst.db, extra))
  }

  ghost function PlanDocs(c: Ctx, recs: seq<Record>, used: nat, plans: seq<DocPlan>): seq<DocPlan>
    decreases recs
  {
    if recs == [] then plans
    else
      PlanDocs(c, recs[1..], used,
        if recs[0].DocRecord?
        then plans + [PlanDoc(c, recs[0].id, recs[0].doc, used + Spending(plans), Held(plans))] else plans)
  }

  // ---- versions without their document ---------------------------------------

  datatype Batch = Batch(doc: string, plans: seq<VersionPlan>)

  /** The documents of versions that came without them, in order of appearance. */
  function Strays(recs: seq<Record>, docs: set<string>, ids: seq<string>): seq<string>
    decreases recs
  {
    if recs == [] then ids
    else
      Strays(recs[1..], docs,
        if recs[0].VersionRecord? && recs[0].version.vid.doc !in docs && recs[0].version.vid.doc !in ids
        then ids + [recs[0].version.vid.doc] else ids)
  }

  function Spends(batches: seq<Batch>): nat {
    if batches == [] then 0 else Spends(batches[..|batches| - 1]) + SpentBy(batches[|batches| - 1].plans)
  }

  /** They are restored only into a document the database already has. */
  ghost function PlanStrays(c: Ctx, ids: seq<string>, used: nat, batches: seq<Batch>): seq<Batch>
    decreases ids
  {
    if ids == [] then batches
    else
      PlanStrays(c, ids[1..], used,
        if ids[0] in c.inst.db.docs then
          batches + [Batch(ids[0], PlanVersions(c, VersionsFor(c.recs, ids[0]), c.inst.db.docs[ids[0]].Live(), used + Spends(batches), []))]
        else batches)
  }

  // ---- applying --------------------------------------------------------------

  /** Blobs stored and rows prepared for one batch. */
  datatype Staged = Staged(
    r2: map<Key, string>, minted: nat, rows: map<VerId, Version>, newKeys: set<Key>, oldKeys: set<Key>)

  function Normal(clean: string -> string, text: Option<string>): Option<string> {
    if text.None? then None else NonEmpty(clean(text.value))
  }

  /** The row a plan upserts. The client that wrote it is not in the file: a row
      that is replaced keeps its own, a new one has none. */
  function RowFor(env: Env, vp: VersionPlan, nonce: string): Version {
    var r := vp.rec.row;
    var kept := r.(title := Normal(env.cleanTitle, r.title), description := Normal(env.cleanDescription, r.description),
                   authorClient := if vp.was.Some? then vp.was.value.authorClient else None);
    if vp.prep.None? then kept
    else
      var prep := vp.prep.value;
      var vid := vp.rec.vid;
      kept.(hKey := Key(vid.doc, vid.no, nonce, false), sKey := Some(Key(vid.doc, vid.no, nonce, true)),
            size := Utf8Size(prep.html), sourceSize := Some(Utf8Size(prep.source)), sha := Some(Digest(prep.source)), sanitizer := env.sanitizerVersion)
  }

  function StageOne(s: Setup, st: Staged, vp: VersionPlan): Staged {
    if !vp.action.Writes() then st
    else
      var row := RowFor(s.env, vp, s.mint(st.minted));
      if vp.prep.None? then st.(rows := st.rows[vp.rec.vid := row])
      else
        var hKey, sKey := row.hKey, Key(vp.rec.vid.doc, vp.rec.vid.no, s.mint(st.minted), true);
        Staged(st.r2[hKey := vp.prep.value.html][sKey := vp.prep.value.source], st.minted + 1, st.rows[vp.rec.vid := row],
               st.newKeys + {hKey, sKey}, st.oldKeys + (if vp.was.Some? then vp.was.value.Keys() else {}))
  }

  function Stage(s: Setup, plans: seq<VersionPlan>, st: Staged): Staged
    decreases plans
  {
    if plans == [] then st else Stage(s, plans[1..], StageOne(s, st, plans[0]))
  }

  function Unstaged(inst: Instance): Staged { Staged(inst.r2, inst.minted, map[], {}, {}) }

  /** What the unique indexes of `documents` require of a new or changed row. */
  predicate Unique(db: Db, id: string, doc: Doc) {
    && (forall d | d in db.docs && d != id :: db.docs[d].publicId != doc.publicId)
    && (doc.slug.Some? ==> !SlugHeld(db.docs, doc.slug.value, Some(id)))
  }

  function DocFor(env: Env, p: DocPlan): Doc { p.doc.(slug := p.slug, tags := env.cleanTags(p.doc.tags)) }

  /** `failed` are the documents whose batch did not go through. */
  datatype Applied = Applied(inst: Instance, failed: set<string>)

  /** One document: its blobs, then one batch, then the keys it replaced; if the
      batch fails, only the keys it wrote go. */
  function ApplyDoc(s: Setup, a: Applied, p: DocPlan): Applied {
    if !p.action.Writes() then a
    else
      var inst := a.inst;
      var st := Stage(s, p.versions, Unstaged(inst));
      var doc := DocFor(s.env, p);
      if s.up(p.id) && Unique(inst.db, p.id, doc) then
        Applied(
          inst.(db := Db(inst.db.docs[p.id := doc], (inst.db.vers - p.extra) + st.rows, inst.db.tombs),
                r2 := st.r2 - (st.oldKeys + p.extraKeys), minted := st.minted),
          a.failed)
      else Applied(inst.(r2 := st.r2 - st.newKeys, minted := st.minted), a.failed + {p.id})
  }

  function ApplyDocs(s: Setup, a: Applied, plans: seq<DocPlan>): Applied
    decreases plans
  {
    if plans == [] then a else ApplyDocs(s, ApplyDoc(s, a, plans[0]), plans[1..])
  }

  /** Versions on their own: rows first, then what is derived from the document's
      current version. A failure there is caught by the same handler, which deletes
      the keys the batch wrote, although its rows are in. */
  function ApplyBatch(s: Setup, a: Applied, b: Batch): Applied {
    var inst := a.inst;
    var st := Stage(s, b.plans, Unstaged(inst));
    if st.rows == map[] || (s.up(b.doc) && b.doc in inst.db.docs) then
      var late := st.rows != map[] && Serial.IsLive(inst.db, b.doc) && !s.derives(b.doc);
      Applied(inst.(db := inst.db.(vers := inst.db.vers + st.rows),
                    r2 := st.r2 - st.oldKeys - (if late then st.newKeys else {}), minted := st.minted),
              if late then a.failed + {b.doc} else a.failed)
    else Applied(inst.(r2 := st.r2 - st.newKeys, minted := st.minted), a.failed + {b.doc})
  }

  function ApplyBatches(s: Setup, a: Applied, bs: seq<Batch>): Applied
    decreases bs
  {
    if bs == [] then a else ApplyBatches(s, ApplyBatch(s, a, bs[0]), bs[1..])
  }

  /** Documents skipped because they exist may still gain versions they lacked. */
  function Gains(plans: seq<DocPlan>): seq<Batch> {
    if plans == [] then []
    else
      (if plans[0].action.Skip? && (exists i :: 0 <= i < |plans[0].versions| && plans[0].versions[i].action.Writes())
       then [Batch(plans[0].id, plans[0].versions)] else [])
      + Gains(plans[1..])
  }

  // ---- tombstones ------------------------------------------------------------

  /** A name in use stays in use; a tombstone whose document is unknown forgets it;
      one whose document did not make it is refused by its foreign key. */
  function TombAfter(c: Ctx, held: set<string>, docs: set<string>, tombs: map<string, Tomb>, r: Record): map<string, Tomb>
    requires r.TombRecord?
  {
    var doc := if r.tomb.doc.Some? && r.tomb.doc.value !in c.inst.db.docs && r.tomb.doc.value !in DocIds(c.recs)
               then None else r.tomb.doc;
    if (exists d :: d in c.inst.db.docs && c.inst.db.docs[d].Live() && c.inst.db.docs[d].slug == Some(r.id)) || r.id in held then tombs
    else if r.id in c.inst.db.tombs && !c.replace then tombs
    else if doc.Some? && doc.value !in docs then tombs
    else tombs[r.id := r.tomb.(doc := doc)]
  }

  function RestoreTombs(c: Ctx, held: set<string>, docs: set<string>, recs: seq<Record>, tombs: map<string, Tomb>): map<string, Tomb>
    decreases recs
  {
    if recs == [] then tombs
    else RestoreTombs(c, held, docs, recs[1..], if recs[0].TombRecord? then TombAfter(c, held, docs, tombs, recs[0]) else tombs)
  }

  // ---- the page --------------------------------------------------------------

  ghost function Plans(c: Ctx): seq<DocPlan> {
    PlanDocs(c, c.recs, Serial.UsedBytes(c.inst.db), [])
  }

  ghost function StrayBatches(c: Ctx): seq<Batch> {
    PlanStrays(c, Strays(c.recs, DocIds(c.recs), []), Serial.UsedBytes(c.inst.db) + Spending(Plans(c)), [])
  }

  function WithPrincipals(c: Ctx): Instance {
    c.inst.(agents := RestoreAgents(c, c.recs, c.inst.agents),
            keys := RestoreKeys(c, c.recs, c.inst.keys),
            clients := RestoreClients(c, c.recs, c.inst.clients))
  }

  ghost function RestorePage(s: Setup, inst: Instance, recs: seq<Record>, replace: bool): Applied {
    var c := Ctx(s.env, inst, recs, replace);
    var docs := ApplyDocs(s, Applied(WithPrincipals(c), {}), Plans(c));
    var all := ApplyBatches(s, docs, StrayBatches(c) + Gains(Plans(c)));
    all.(inst := all.inst.(db := all.inst.db.(
      tombs := RestoreTombs(c, Held(Plans(c)), all.inst.db.docs.Keys, recs, all.inst.db.tombs))))
  }
}
