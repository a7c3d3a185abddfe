/** What a restored page leaves, told of the records on the page and the instance
    as it was: which documents and versions come in, with what in their rows, what
    they replace and what goes. */
module RestoreContents {
  import opened Records
  import opened D1
  import opened Writes
  import opened MetadataRules
  import opened Corpus
  import opened Restore
  import RestoreNames
  import RestorePlan
  import RestoreRender
  import Serial

  // ---- the page --------------------------------------------------------------

  ghost predicate Known(c: Ctx, agent: string) {
    agent in c.inst.agents || exists r | r in c.recs :: r.AgentRecord? && r.id == agent
  }

  /** The bytes a version record may make the instance store. */
  ghost function Weight(env: Env, v: VersionRec): nat {
    if v.source.Some? then BytesOf(env, v.source.value, v.row.format) else 0
  }

  ghost function PageBytes(env: Env, recs: seq<Record>): nat
    decreases recs
  {
    if recs == [] then 0 else (if recs[0].VersionRecord? then Weight(env, recs[0].version) else 0) + PageBytes(env, recs[1..])
  }

  /** There is room for all of it. */
  ghost predicate Room(c: Ctx) {
    Serial.UsedBytes(c.inst.db) + PageBytes(c.env, c.recs) <= c.env.storageCap
  }

  // ---- versions --------------------------------------------------------------

  /** The record comes in: it is new or may replace, its author is there, and if it
      has to have bytes, its source is there, is what its digest names and passes
      the screen. */
  ghost predicate Taken(c: Ctx, live: bool, v: VersionRec) {
    && (v.vid in c.inst.db.vers ==> c.replace)
    && (v.row.authorAgent.Some? ==> Known(c, v.row.authorAgent.value))
    && (live ==> v.source.Some? && v.row.sha == Some(Digest(v.source.value)) && FitsScreen(c.env, v.source.value, v.row.format))
  }

  ghost predicate Cleaned(clean: string -> string, given: Option<string>, text: Option<string>) {
    if given.None? then text.None? else IsGiven(clean, given.value, text)
  }

  /** The row says what the record says. Where bytes were stored it names them; a
      row of a revoked document is the record's to the letter. The client that
      wrote it is not in the file: one replaced keeps its own. */
  ghost predicate AsRecorded(c: Ctx, live: bool, v: VersionRec, row: Version) {
    && row.sha == v.row.sha && row.format == v.row.format && row.createdAt == v.row.createdAt
    && row.authorKind == v.row.authorKind && row.authorAgent == v.row.authorAgent
    && row.authorClient == (if v.vid in c.inst.db.vers then c.inst.db.vers[v.vid].authorClient else None)
    && Cleaned(c.env.cleanTitle, v.row.title, row.title) && Cleaned(c.env.cleanDescription, v.row.description, row.description)
    && if live then
         && v.source.Some? && row.sanitizer == c.env.sanitizerVersion
         && row.size == Utf8Size(c.env.RenderOf(v.source.value, v.row.format)) && row.sourceSize == Some(Utf8Size(v.source.value))
       else
         && row.hKey == v.row.hKey && row.sKey == v.row.sKey && row.size == v.row.size && row.sourceSize == v.row.sourceSize
         && row.sanitizer == v.row.sanitizer
  }

  /** The first record of a version on the page, and the last one that comes in. */
  ghost function First(recs: seq<Record>, vid: VerId): Option<VersionRec>
    decreases recs
  {
    if recs == [] then None
    else if recs[0].VersionRecord? && recs[0].version.vid == vid then Some(recs[0].version)
    else First(recs[1..], vid)
  }

  ghost function Last(c: Ctx, live: bool, recs: seq<Record>, vid: VerId): Option<VersionRec>
    decreases recs
  {
    if recs == [] then None
    else if Last(c, live, recs[1..], vid).Some? then Last(c, live, recs[1..], vid)
    else if recs[0].VersionRecord? && recs[0].version.vid == vid && Taken(c, live, recs[0].version) then Some(recs[0].version)
    else None
  }

  /** A version recorded once is both. */
  lemma {:induction false} SoleRecord(c: Ctx, live: bool, recs: seq<Record>, v: VersionRec)
    requires forall r | r in recs && r.VersionRecord? && r.version.vid == v.vid :: r.version == v
    ensures First(recs, v.vid) == if VersionRecord(v) in recs then Some(v) else None
    ensures Last(c, live, recs, v.vid) == if VersionRecord(v) in recs && Taken(c, live, v) then Some(v) else None
    decreases recs
  {
    hide Taken;
    if recs != [] {
      forall r | r in recs[1..]
        ensures r in recs
      {
      }
      SoleRecord(c, live, recs[1..], v);
    }
  }

  /** What becomes of one row of a document: the record's, if one comes in; else
      what was there, unless rows the page does not mention go. */
  ghost predicate RowAfter(c: Ctx, live: bool, keep: bool, vers: map<VerId, Version>, vid: VerId) {
    match Last(c, live, c.recs, vid)
    case Some(v) => vid in vers && AsRecorded(c, live, v, vers[vid])
    case None =>
      if keep || First(c.recs, vid).Some? then
        (vid in vers <==> vid in c.inst.db.vers) && (vid in vers ==> vers[vid] == c.inst.db.vers[vid])
      else vid !in vers
  }

  ghost predicate RowsAfter(c: Ctx, id: string, live: bool, keep: bool, vers: map<VerId, Version>) {
    forall vid: VerId | vid.doc == id :: RowAfter(c, live, keep, vers, vid)
  }

  // ---- documents -------------------------------------------------------------

  ghost predicate NewHere(c: Ctx, id: string) { id !in c.inst.db.docs }

  /** The page brings the version a pointer names. */
  ghost predicate Brings(c: Ctx, id: string, pointer: Option<nat>) {
    pointer.Some? ==> First(c.recs, VerId(id, pointer.value)).Some? && Taken(c, true, First(c.recs, VerId(id, pointer.value)).value)
  }

  /** Id and public id go together in the database, if they are there at all, and
      the creator is known. */
  ghost predicate Agrees(c: Ctx, id: string, doc: Doc) {
    && (forall d | d in c.inst.db.docs :: d == id <==> c.inst.db.docs[d].publicId == doc.publicId)
    && (doc.createdBy.Some? ==> Known(c, doc.createdBy.value))
  }

  /** The document comes in whole. */
  ghost predicate Comes(c: Ctx, id: string, doc: Doc) {
    && (id in c.inst.db.docs ==> c.replace) && Agrees(c, id, doc)
    && (doc.Live() ==> Brings(c, id, doc.current) && Brings(c, id, doc.published))
  }

  /** No other live document has the name, it is not retired, and no other record of
      the page asks for it. */
  ghost predicate NameClear(c: Ctx, id: string, name: string) {
    && name !in c.inst.db.tombs
    && (forall d | d in c.inst.db.docs && d != id && c.inst.db.docs[d].Live() :: c.inst.db.docs[d].slug != Some(name))
    && (forall r | r in c.recs && r.DocRecord? && r.id != id :: r.doc.slug != Some(name))
  }

  /** The record's name if that is clear, at most that, and never a retired one. */
  ghost predicate NameAsRecorded(c: Ctx, id: string, doc: Doc, slug: Option<string>) {
    && (slug.Some? ==> slug == doc.slug && slug.value !in c.inst.db.tombs)
    && (doc.slug.Some? && NameClear(c, id, doc.slug.value) ==> slug == doc.slug)
  }

  /** The row is the record's, with its tags cleaned and its name if that is clear. */
  ghost predicate DocAsRecorded(c: Ctx, id: string, doc: Doc, row: Doc) {
    row == doc.(slug := row.slug, tags := c.env.cleanTags(doc.tags)) && NameAsRecorded(c, id, doc, row.slug)
  }

  // ---- planning versions -----------------------------------------------------

  lemma KnownIsAvailable(c: Ctx, agent: string)
    ensures Known(c, agent) <==> c.Available(agent)
  {
  }

  /** The plan writes the record exactly when it comes in, with its own bytes. */
  ghost predicate Told(c: Ctx, live: bool, vp: VersionPlan) {
    && (vp.action.Writes() <==> Taken(c, live, vp.rec))
    && (vp.prep.Some? <==> live && vp.action.Writes())
    && (vp.prep.Some? ==>
          && vp.rec.source.Some? && vp.rec.row.sha == Some(Digest(vp.rec.source.value))
          && vp.prep.value == Prep(c.env.RenderOf(vp.rec.source.value, vp.rec.row.format), vp.rec.source.value, vp.rec.row.format))
    && vp.was == (if vp.rec.vid in c.inst.db.vers then Some(c.inst.db.vers[vp.rec.vid]) else None)
  }

  lemma VersionIsTold(c: Ctx, v: VersionRec, live: bool, used: nat)
    requires used + Weight(c.env, v) <= c.env.storageCap
    ensures
      var vp := PlanVersion(c, v, live, used);
      vp.rec == v && Told(c, live, vp) && vp.Spent() <= Weight(c.env, v)
  {
    hide ScreenAndPrepare, FitsScreen, Utf8Size, Known, Ctx.Available;
    if v.row.authorAgent.Some? {
      KnownIsAvailable(c, v.row.authorAgent.value);
    }
    if v.source.Some? {
      ScreenVerdict(c.env, v.source.value, v.row.format);
    }
  }

  ghost function Weights(env: Env, vs: seq<VersionRec>): nat
    decreases vs
  {
    if vs == [] then 0 else Weight(env, vs[0]) + Weights(env, vs[1..])
  }

  ghost predicate AllTold(c: Ctx, live: bool, vs: seq<VersionRec>, plans: seq<VersionPlan>) {
    |plans| == |vs| && forall i | 0 <= i < |vs| :: plans[i].rec == vs[i] && Told(c, live, plans[i])
  }

  lemma {:induction false} VersionsAreTold(c: Ctx, done: seq<VersionRec>, vs: seq<VersionRec>, live: bool, used: nat, plans: seq<VersionPlan>)
    requires used + SpentBy(plans) + Weights(c.env, vs) <= c.env.storageCap && AllTold(c, live, done, plans)
    ensures
      var all := PlanVersions(c, vs, live, used, plans);
      AllTold(c, live, done + vs, all) && SpentBy(all) <= SpentBy(plans) + Weights(c.env, vs)
    decreases vs
  {
    hide PlanVersion, Told, Weight;
    if vs == [] {
      assert done + vs == done;
    } else {
      var vp := PlanVersion(c, vs[0], live, used + SpentBy(plans));
      VersionIsTold(c, vs[0], live, used + SpentBy(plans));
      RestorePlan.SpentPlus(plans, vp);
      assert done + vs == (done + [vs[0]]) + vs[1..];
      VersionsAreTold(c, done + [vs[0]], vs[1..], live, used, plans + [vp]);
    }
  }

  // ---- the versions of one document ------------------------------------------

  /** First and last among planned versions are first and last on the page. */
  ghost function FirstOf(vs: seq<VersionRec>, vid: VerId): Option<VersionRec>
    decreases vs
  {
    if vs == [] then None else if vs[0].vid == vid then Some(vs[0]) else FirstOf(vs[1..], vid)
  }

  ghost function LastOf(c: Ctx, live: bool, vs: seq<VersionRec>, vid: VerId): Option<VersionRec>
    decreases vs
  {
    if vs == [] then None
    else if LastOf(c, live, vs[1..], vid).Some? then LastOf(c, live, vs[1..], vid)
    else if vs[0].vid == vid && Taken(c, live, vs[0]) then Some(vs[0]) else None
  }

  lemma {:induction false} OfTheDocument(c: Ctx, live: bool, recs: seq<Record>, vid: VerId)
    ensures FirstOf(VersionsFor(recs, vid.doc), vid) == First(recs, vid)
    ensures LastOf(c, live, VersionsFor(recs, vid.doc), vid) == Last(c, live, recs, vid)
    decreases recs
  {
    hide Taken;
    if recs != [] {
      OfTheDocument(c, live, recs[1..], vid);
      var rest := VersionsFor(recs[1..], vid.doc);
      if recs[0].VersionRecord? && recs[0].version.vid.doc == vid.doc {
        assert VersionsFor(recs, vid.doc) == [recs[0].version] + rest;
        assert ([recs[0].version] + rest)[1..] == rest;
      } else {
        assert VersionsFor(recs, vid.doc) == [] + rest == rest;
      }
    }
  }

  lemma RestorableHead(plans: seq<VersionPlan>, no: nat)
    requires plans != []
    ensures Restorable(plans, no) <==> if plans[0].rec.vid.no == no then plans[0].prep.Some? else Restorable(plans[1..], no)
  {
    var rest := plans[1..];
    if plans[0].rec.vid.no != no {
      if Restorable(plans, no) {
        var i :| 0 <= i < |plans| && plans[i].rec.vid.no == no && plans[i].prep.Some? && forall j | 0 <= j < i :: plans[j].rec.vid.no != no;
        assert rest[i - 1] == plans[i] && forall j | 0 <= j < i - 1 :: rest[j] == plans[j + 1];
      }
      if Restorable(rest, no) {
        var i :| 0 <= i < |rest| && rest[i].rec.vid.no == no && rest[i].prep.Some? && forall j | 0 <= j < i :: rest[j].rec.vid.no != no;
        assert plans[i + 1] == rest[i] && forall j | 1 <= j < i + 1 :: plans[j] == rest[j - 1];
      }
    }
  }

  lemma {:induction false} RestorableIs(c: Ctx, id: string, vs: seq<VersionRec>, plans: seq<VersionPlan>, no: nat)
    requires AllTold(c, true, vs, plans) && forall i | 0 <= i < |vs| :: vs[i].vid.doc == id
    ensures
      var first := FirstOf(vs, VerId(id, no));
      Restorable(plans, no) <==> first.Some? && Taken(c, true, first.value)
    decreases vs
  {
    hide Taken, Restorable;
    if vs == [] {
      assert !Restorable(plans, no) by { NoneRestorable(no); }
    } else {
      RestorableHead(plans, no);
      RestorableIs(c, id, vs[1..], plans[1..], no);
      assert Told(c, true, plans[0]) && plans[0].rec == vs[0];
      assert vs[0].vid.no == no <==> vs[0].vid == VerId(id, no);
    }
  }

  lemma NoneRestorable(no: nat)
    ensures !Restorable([], no)
  {
  }

  // ---- planning documents ----------------------------------------------------

  /** Every name promised is one another record of the page asks for. */
  ghost predicate Promised(c: Ctx, id: string, held: set<string>) {
    forall n | n in held :: exists r | r in c.recs :: r.DocRecord? && r.id != id && r.doc.slug == Some(n)
  }

  lemma NameIsGranted(c: Ctx, id: string, doc: Doc, held: set<string>)
    requires Promised(c, id, held)
    ensures NameAsRecorded(c, id, doc, SlugGranted(c, id, doc.slug, held))
  {
  }

  /** What the plan of a document record comes to. */
  ghost predicate Planned(c: Ctx, id: string, doc: Doc, p: DocPlan) {
    var vs := VersionsFor(c.recs, id);
    && p.id == id && p.doc == doc
    && (p.action.Skip? <==> id in c.inst.db.docs && !c.replace && Agrees(c, id, doc))
    && (p.action.Skip? ==> AllTold(c, c.inst.db.docs[id].Live(), vs, p.versions))
    && (p.action.Writes() <==> Comes(c, id, doc))
    && (p.action.Writes() ==>
          && AllTold(c, doc.Live(), vs, p.versions) && NameAsRecorded(c, id, doc, p.slug)
          && p.extra == (if id in c.inst.db.docs then Dropped(c.inst.db, id, vs) else {})
          && p.extraKeys == KeysOfRows(c.inst.db, p.extra))
  }

  lemma AgreesIs(c: Ctx, id: string, doc: Doc)
    ensures Agrees(c, id, doc) <==>
              !IdentityConflict(c.inst.db, id, doc.publicId) && (doc.createdBy.Some? ==> c.Available(doc.createdBy.value))
  {
    hide Known, Ctx.Available;
    if doc.createdBy.Some? {
      KnownIsAvailable(c, doc.createdBy.value);
    }
    if IdentityConflict(c.inst.db, id, doc.publicId) {
      if !(id in c.inst.db.docs && c.inst.db.docs[id].publicId != doc.publicId) {
        var d :| d in c.inst.db.docs && d != id && c.inst.db.docs[d].publicId == doc.publicId;
      }
    }
  }

  lemma RenderableIs(c: Ctx, id: string, doc: Doc, plans: seq<VersionPlan>)
    requires AllTold(c, true, VersionsFor(c.recs, id), plans)
    ensures Renderable(doc, plans) <==> Brings(c, id, doc.current) && Brings(c, id, doc.published)
  {
    hide Restorable, Taken, Told;
    var vs := VersionsFor(c.recs, id);
    RestoreRender.VersionsAreOf(c.recs, id);
    if doc.current.Some? {
      RestorableIs(c, id, vs, plans, doc.current.value);
      OfTheDocument(c, true, c.recs, VerId(id, doc.current.value));
    }
    if doc.published.Some? {
      RestorableIs(c, id, vs, plans, doc.published.value);
      OfTheDocument(c, true, c.recs, VerId(id, doc.published.value));
    }
  }

  lemma DocIsPlanned(c: Ctx, id: string, doc: Doc, used: nat, held: set<string>)
    requires Promised(c, id, held) && used + Weights(c.env, VersionsFor(c.recs, id)) <= c.env.storageCap
    ensures
      var p := PlanDoc(c, id, doc, used, held);
      Planned(c, id, doc, p) && p.spent <= Weights(c.env, VersionsFor(c.recs, id))
  {
    hide PlanVersions, VersionsFor, IdentityConflict, SlugGranted, Renderable, Demoted, Dropped, KeysOfRows, Agrees, Brings, Told, AllTold,
      Promised, NameAsRecorded, Weights, Ctx.Available;
    var vs := VersionsFor(c.recs, id);
    AgreesIs(c, id, doc);
    NameIsGranted(c, id, doc, held);
    NoneTold(c, doc.Live());
    VersionsAreTold(c, [], vs, doc.Live(), used, []);
    assert [] + vs == vs;
    if doc.Live() {
      RenderableIs(c, id, doc, PlanVersions(c, vs, true, used, []));
    }
    if id in c.inst.db.docs {
      NoneTold(c, c.inst.db.docs[id].Live());
      VersionsAreTold(c, [], vs, c.inst.db.docs[id].Live(), used, []);
    }
  }

  lemma NoneTold(c: Ctx, live: bool)
    ensures AllTold(c, live, [], []) && SpentBy([]) == 0
  {
  }

  // ---- room for every plan ---------------------------------------------------

  /** The bytes of the versions of some documents. */
  ghost function BytesIn(env: Env, recs: seq<Record>, docs: set<string>): nat
    decreases recs
  {
    if recs == [] then 0
    else
      (if recs[0].VersionRecord? && recs[0].version.vid.doc in docs then Weight(env, recs[0].version) else 0) + BytesIn(env, recs[1..], docs)
  }

  lemma {:induction false} BytesOfOne(env: Env, recs: seq<Record>, id: string)
    ensures BytesIn(env, recs, {id}) == Weights(env, VersionsFor(recs, id))
    decreases recs
  {
    hide Weight;
    if recs != [] {
      BytesOfOne(env, recs[1..], id);
      var rest := VersionsFor(recs[1..], id);
      if recs[0].VersionRecord? && recs[0].version.vid.doc == id {
        assert VersionsFor(recs, id) == [recs[0].version] + rest;
        assert ([recs[0].version] + rest)[1..] == rest;
      } else {
        assert VersionsFor(recs, id) == [] + rest == rest;
      }
    }
  }

  lemma {:induction false} BytesAdd(env: Env, recs: seq<Record>, docs: set<string>, more: set<string>)
    requires docs !! more
    ensures BytesIn(env, recs, docs + more) == BytesIn(env, recs, docs) + BytesIn(env, recs, more)
    decreases recs
  {
    hide Weight;
    if recs != [] {
      BytesAdd(env, recs[1..], docs, more);
    }
  }

  lemma {:induction false} BytesAreOfPage(env: Env, recs: seq<Record>, docs: set<string>)
    ensures BytesIn(env, recs, docs) <= PageBytes(env, recs)
    decreases recs
  {
    hide Weight;
    if recs != [] {
      BytesAreOfPage(env, recs[1..], docs);
    }
  }

  // ---- the plan of one record ------------------------------------------------

  /** Every name the plans will bind is one a record of the page asks for. */
  ghost predicate Binds(c: Ctx, p: DocPlan) {
    p.action.Writes() && p.slug.Some? ==> exists r | r in c.recs :: r.DocRecord? && r.id == p.id && r.doc.slug == p.slug
  }

  lemma PlanBinds(c: Ctx, id: string, doc: Doc, used: nat, held: set<string>)
    requires DocRecord(id, doc) in c.recs
    ensures Binds(c, PlanDoc(c, id, doc, used, held))
  {
    hide PlanVersions, VersionsFor, IdentityConflict, Renderable, Demoted, Dropped, SpentBy, KeysOfRows;
    var p := PlanDoc(c, id, doc, used, held);
    assert p.action.Writes() && p.slug.Some? ==> p.slug == doc.slug;
  }

  lemma BoundIsPromised(c: Ctx, id: string, plans: seq<DocPlan>)
    requires forall p | p in plans :: Binds(c, p) && p.id != id
    ensures Promised(c, id, Held(plans))
  {
    forall n | n in Held(plans)
      ensures exists r | r in c.recs :: r.DocRecord? && r.id != id && r.doc.slug == Some(n)
    {
      var p :| p in plans && p.action.Writes() && p.slug.Some? && p.slug.value == n;
      assert Binds(c, p);
    }
  }

  lemma {:induction false} PlansGrow(c: Ctx, recs: seq<Record>, used: nat, plans: seq<DocPlan>)
    ensures plans <= PlanDocs(c, recs, used, plans)
    decreases recs
  {
    hide PlanDoc, Held, Spending;
    if recs != [] {
      PlansGrow(c, recs[1..], used,
        if recs[0].DocRecord? then plans + [PlanDoc(c, recs[0].id, recs[0].doc, used + Spending(plans), Held(plans))] else plans);
    }
  }

  lemma SpendingPlus(plans: seq<DocPlan>, p: DocPlan)
    ensures Spending(plans + [p]) == Spending(plans) + p.spent
  {
    assert (plans + [p])[..|plans|] == plans;
  }

  /** The state of planning between two records: what is spent is accounted for, and
      no document left is planned yet. */
  ghost predicate Underway(c: Ctx, recs: seq<Record>, used: nat, plans: seq<DocPlan>) {
    && RestoreNames.PageOk(recs) && (forall r | r in recs :: r in c.recs)
    && used + Spending(plans) + BytesIn(c.env, c.recs, DocIds(recs)) <= c.env.storageCap
    && (forall p | p in plans :: Binds(c, p) && p.id !in DocIds(recs))
  }

  lemma OnePlanned(c: Ctx, recs: seq<Record>, used: nat, plans: seq<DocPlan>)
    requires recs != [] && recs[0].DocRecord? && Underway(c, recs, used, plans)
    ensures
      var p := PlanDoc(c, recs[0].id, recs[0].doc, used + Spending(plans), Held(plans));
      Planned(c, recs[0].id, recs[0].doc, p) && Underway(c, recs[1..], used, plans + [p])
  {
    hide PlanDoc, Binds, Promised, Planned, Weights, Held, Spending;
    var id, doc := recs[0].id, recs[0].doc;
    var p := PlanDoc(c, id, doc, used + Spending(plans), Held(plans));
    assert recs[0] in recs;
    HeadApart(recs);
    BytesAdd(c.env, c.recs, {id}, DocIds(recs[1..]));
    BytesOfOne(c.env, c.recs, id);
    BoundIsPromised(c, id, plans);
    DocIsPlanned(c, id, doc, used + Spending(plans), Held(plans));
    PlanBinds(c, id, doc, used + Spending(plans), Held(plans));
    RestoreNames.PlanHasId(c, id, doc, used + Spending(plans), Held(plans));
    SpendingPlus(plans, p);
  }

  lemma HeadApart(recs: seq<Record>)
    requires recs != [] && RestoreNames.PageOk(recs)
    ensures RestoreNames.PageOk(recs[1..]) && (forall r | r in recs[1..] :: r in recs)
    ensures recs[0].DocRecord? ==> recs[0].id !in DocIds(recs[1..]) && DocIds(recs) == {recs[0].id} + DocIds(recs[1..])
    ensures !recs[0].DocRecord? ==> DocIds(recs) == DocIds(recs[1..])
  {
    assert recs == [recs[0]] + recs[1..];
    forall i, j | 0 <= i < j < |recs[1..]| && recs[1..][i].DocRecord? && recs[1..][j].DocRecord?
      ensures recs[1..][i].id != recs[1..][j].id
    {
      assert recs[1..][i] == recs[i + 1] && recs[1..][j] == recs[j + 1];
    }
    forall r | r in recs[1..] && r.DocRecord? && recs[0].DocRecord?
      ensures r.id != recs[0].id
    {
      var j :| 0 <= j < |recs[1..]| && recs[1..][j] == r;
      assert recs[j + 1] == r;
    }
  }

  lemma {:induction false} RecordIsPlanned(c: Ctx, recs: seq<Record>, used: nat, plans: seq<DocPlan>, id: string, doc: Doc) returns (k: nat)
    requires DocRecord(id, doc) in recs && Underway(c, recs, used, plans)
    ensures k < |PlanDocs(c, recs, used, plans)| && Planned(c, id, doc, PlanDocs(c, recs, used, plans)[k])
    decreases recs
  {
    hide PlanDoc, Underway, Planned, Held, Spending;
    if recs[0].DocRecord? {
      OnePlanned(c, recs, used, plans);
      var p := PlanDoc(c, recs[0].id, recs[0].doc, used + Spending(plans), Held(plans));
      if recs[0] == DocRecord(id, doc) {
        PlansGrow(c, recs[1..], used, plans + [p]);
        k := |plans|;
      } else {
        k := RecordIsPlanned(c, recs[1..], used, plans + [p], id, doc);
      }
    } else {
      NoDocUnderway(c, recs, used, plans);
      k := RecordIsPlanned(c, recs[1..], used, plans, id, doc);
    }
  }

  lemma NoDocUnderway(c: Ctx, recs: seq<Record>, used: nat, plans: seq<DocPlan>)
    requires recs != [] && !recs[0].DocRecord? && Underway(c, recs, used, plans)
    ensures Underway(c, recs[1..], used, plans)
  {
    HeadApart(recs);
  }

  lemma PageUnderway(c: Ctx)
    requires Room(c) && RestoreNames.PageOk(c.recs)
    ensures Underway(c, c.recs, Serial.UsedBytes(c.inst.db), [])
  {
    hide Serial.UsedBytes, DocIds;
    BytesAreOfPage(c.env, c.recs, DocIds(c.recs));
  }

  // ---- staging ---------------------------------------------------------------

  lemma RowIsAsRecorded(c: Ctx, live: bool, vp: VersionPlan, nonce: string)
    requires Told(c, live, vp) && vp.action.Writes()
    ensures AsRecorded(c, live, vp.rec, RowFor(c.env, vp, nonce))
  {
    hide Utf8Size, Taken;
  }

  lemma OneStagedRow(s: Setup, c: Ctx, live: bool, st: Staged, vp: VersionPlan, vid: VerId)
    requires s.env == c.env && Told(c, live, vp)
    ensures
      var st' := StageOne(s, st, vp);
      if vp.rec.vid == vid && Taken(c, live, vp.rec) then vid in st'.rows && AsRecorded(c, live, vp.rec, st'.rows[vid])
      else (vid in st'.rows <==> vid in st.rows) && (vid in st.rows ==> st'.rows[vid] == st.rows[vid])
  {
    hide AsRecorded, Taken, RowFor;
    if vp.action.Writes() {
      RowIsAsRecorded(c, live, vp, s.mint(st.minted));
    }
  }

  /** Staging leaves, for a version, the row of the last record that comes in. */
  lemma {:induction false} StagedRow(s: Setup, c: Ctx, live: bool, vs: seq<VersionRec>, st: Staged, plans: seq<VersionPlan>, vid: VerId)
    requires s.env == c.env && AllTold(c, live, vs, plans)
    ensures
      var st' := Stage(s, plans, st);
      match LastOf(c, live, vs, vid)
      case Some(v) => vid in st'.rows && AsRecorded(c, live, v, st'.rows[vid])
      case None => (vid in st'.rows <==> vid in st.rows) && (vid in st.rows ==> st'.rows[vid] == st.rows[vid])
    decreases vs
  {
    hide AsRecorded, Taken, StageOne, Told;
    if vs != [] {
      assert plans[0].rec == vs[0] && Told(c, live, plans[0]);
      OneStagedRow(s, c, live, st, plans[0], vid);
      StagedRow(s, c, live, vs[1..], StageOne(s, st, plans[0]), plans[1..], vid);
    }
  }

  lemma {:induction false} LastIsOf(c: Ctx, live: bool, vs: seq<VersionRec>, vid: VerId)
    ensures FirstOf(vs, vid).Some? <==> exists i :: 0 <= i < |vs| && vs[i].vid == vid
    ensures LastOf(c, live, vs, vid).Some? ==> FirstOf(vs, vid).Some?
    decreases vs
  {
    hide Taken;
    if vs != [] {
      LastIsOf(c, live, vs[1..], vid);
      if vs[0].vid != vid {
        if i :| 0 <= i < |vs| && vs[i].vid == vid {
          assert vs[1..][i - 1] == vs[i];
        }
        if i :| 0 <= i < |vs[1..]| && vs[1..][i].vid == vid {
          assert vs[i + 1] == vs[1..][i];
        }
      }
    }
  }

  // ---- what is not about a document ------------------------------------------

  /** Nothing of this document changed in the tables. */
  ghost predicate Same(db: Db, db': Db, id: string) {
    && (id in db.docs <==> id in db'.docs) && (id in db.docs ==> db'.docs[id] == db.docs[id])
    && forall v: VerId | v.doc == id ::
         (v in db.vers <==> v in db'.vers) && (v in db.vers ==> db'.vers[v] == db.vers[v])
  }

  lemma SameTwice(a: Db, b: Db, d: Db, id: string)
    requires Same(a, b, id) && Same(b, d, id)
    ensures Same(a, d, id)
  {
  }

  /** Every plan's versions are its own document's. */
  ghost predicate Own(id: string, plans: seq<VersionPlan>) {
    forall i | 0 <= i < |plans| :: plans[i].rec.vid.doc == id
  }

  lemma {:induction false} StagedIsOwn(s: Setup, id: string, plans: seq<VersionPlan>, st: Staged)
    requires Own(id, plans) && forall v | v in st.rows :: v.doc == id
    ensures forall v | v in Stage(s, plans, st).rows :: v.doc == id
    decreases plans
  {
    if plans != [] {
      assert plans[0].rec.vid.doc == id;
      assert forall v | v in StageOne(s, st, plans[0]).rows :: v.doc == id;
      assert Own(id, plans[1..]);
      StagedIsOwn(s, id, plans[1..], StageOne(s, st, plans[0]));
    }
  }

  /** What the batch of a document leaves in the tables. */
  lemma DocBatch(s: Setup, a: Applied, p: DocPlan)
    requires p.action.Writes()
    ensures
      var a' := ApplyDoc(s, a, p);
      if s.up(p.id) && Unique(a.inst.db, p.id, DocFor(s.env, p)) then
        && a'.failed == a.failed
        && a'.inst.db == Db(a.inst.db.docs[p.id := DocFor(s.env, p)],
                            (a.inst.db.vers - p.extra) + Stage(s, p.versions, Unstaged(a.inst)).rows, a.inst.db.tombs)
      else a'.failed == a.failed + {p.id} && a'.inst.db == a.inst.db
  {
    hide Unique, DocFor, Stage;
  }

  lemma SoundIsOwn(c: Ctx, p: DocPlan)
    requires RestoreRender.PlanSound(c, p) && p.action.Writes()
    ensures Own(p.id, p.versions) && forall v | v in p.extra :: v.doc == p.id
  {
    hide RestoreRender.Sound, Renderable, RestoreRender.AllKeys;
  }

  lemma DocElsewhere(s: Setup, c: Ctx, a: Applied, p: DocPlan, id: string)
    requires RestoreRender.PlanSound(c, p) && p.action.Writes() && p.id != id
    ensures Same(a.inst.db, ApplyDoc(s, a, p).inst.db, id) && (id in ApplyDoc(s, a, p).failed <==> id in a.failed)
  {
    hide Unique, DocFor, RestoreRender.PlanSound, Stage, ApplyDoc, Own;
    DocBatch(s, a, p);
    SoundIsOwn(c, p);
    StagedIsOwn(s, p.id, p.versions, Unstaged(a.inst));
  }

  lemma {:induction false} DocsElsewhere(s: Setup, c: Ctx, a: Applied, plans: seq<DocPlan>, id: string)
    requires forall i | 0 <= i < |plans| :: RestoreRender.PlanSound(c, plans[i]) && (plans[i].action.Writes() ==> plans[i].id != id)
    ensures Same(a.inst.db, ApplyDocs(s, a, plans).inst.db, id) && (id in ApplyDocs(s, a, plans).failed <==> id in a.failed)
    decreases plans
  {
    hide ApplyDoc, RestoreRender.PlanSound, Same;
    if plans == [] {
      SameSelf(a.inst.db, id);
    } else {
      var a' := ApplyDoc(s, a, plans[0]);
      if plans[0].action.Writes() {
        DocElsewhere(s, c, a, plans[0], id);
      } else {
        NotApplied(s, a, plans[0]);
        SameSelf(a.inst.db, id);
      }
      DocsElsewhere(s, c, a', plans[1..], id);
      SameTwice(a.inst.db, a'.inst.db, ApplyDocs(s, a', plans[1..]).inst.db, id);
    }
  }

  lemma NotApplied(s: Setup, a: Applied, p: DocPlan)
    requires !p.action.Writes()
    ensures ApplyDoc(s, a, p) == a
  {
  }

  lemma SameSelf(db: Db, id: string)
    ensures Same(db, db, id)
  {
  }

  lemma {:induction false} ApplyDocsConcat(s: Setup, a: Applied, before: seq<DocPlan>, after: seq<DocPlan>)
    ensures ApplyDocs(s, a, before + after) == ApplyDocs(s, ApplyDocs(s, a, before), after)
    decreases before
  {
    hide ApplyDoc;
    if before == [] {
      assert before + after == after;
    } else {
      assert (before + after)[1..] == before[1..] + after;
      ApplyDocsConcat(s, ApplyDoc(s, a, before[0]), before[1..], after);
    }
  }

  // ---- versions of documents that stay ---------------------------------------

  lemma BatchElsewhere(s: Setup, a: Applied, b: Restore.Batch, id: string)
    requires Own(b.doc, b.plans) && b.doc != id
    ensures Same(a.inst.db, ApplyBatch(s, a, b).inst.db, id) && (id in ApplyBatch(s, a, b).failed <==> id in a.failed)
  {
    hide Stage;
    StagedIsOwn(s, b.doc, b.plans, Unstaged(a.inst));
  }

  lemma {:induction false} BatchesElsewhere(s: Setup, a: Applied, bs: seq<Restore.Batch>, id: string)
    requires forall i | 0 <= i < |bs| :: Own(bs[i].doc, bs[i].plans) && bs[i].doc != id
    ensures Same(a.inst.db, ApplyBatches(s, a, bs).inst.db, id) && (id in ApplyBatches(s, a, bs).failed <==> id in a.failed)
    decreases bs
  {
    hide ApplyBatch, Own, Same;
    if bs == [] {
      SameSelf(a.inst.db, id);
    } else {
      var a' := ApplyBatch(s, a, bs[0]);
      BatchElsewhere(s, a, bs[0], id);
      BatchesElsewhere(s, a', bs[1..], id);
      SameTwice(a.inst.db, a'.inst.db, ApplyBatches(s, a', bs[1..]).inst.db, id);
    }
  }

  lemma {:induction false} ApplyBatchesConcat(s: Setup, a: Applied, before: seq<Restore.Batch>, after: seq<Restore.Batch>)
    ensures ApplyBatches(s, a, before + after) == ApplyBatches(s, ApplyBatches(s, a, before), after)
    decreases before
  {
    hide ApplyBatch;
    if before == [] {
      assert before + after == after;
    } else {
      assert (before + after)[1..] == before[1..] + after;
      ApplyBatchesConcat(s, ApplyBatch(s, a, before[0]), before[1..], after);
    }
  }

  // ---- one document ----------------------------------------------------------

  /** The batch of one document leaves its row and its versions' as recorded. */
  lemma DocLands(s: Setup, c: Ctx, a: Applied, p: DocPlan, id: string, doc: Doc)
    requires s.env == c.env && Planned(c, id, doc, p) && p.action.Writes() && Same(c.inst.db, a.inst.db, id)
    requires id !in ApplyDoc(s, a, p).failed
    ensures
      var db := ApplyDoc(s, a, p).inst.db;
      && id in db.docs && DocAsRecorded(c, id, doc, db.docs[id])
      && RowsAfter(c, id, doc.Live(), NewHere(c, id), db.vers)
  {
    hide Unique, Stage, NameClear, AllTold, Comes, Agrees, ApplyDoc, Same, RowAfter, Dropped, VersionsFor;
    DocBatch(s, a, p);
    var db := ApplyDoc(s, a, p).inst.db;
    forall vid: VerId | vid.doc == id
      ensures RowAfter(c, doc.Live(), NewHere(c, id), db.vers, vid)
    {
      RowLands(s, c, a, p, id, doc, vid, Stage(s, p.versions, Unstaged(a.inst)), db.vers);
    }
  }

  lemma DroppedIs(c: Ctx, id: string, vid: VerId)
    requires vid.doc == id
    ensures vid in Dropped(c.inst.db, id, VersionsFor(c.recs, id)) <==> vid in c.inst.db.vers && First(c.recs, vid).None?
  {
    hide VersionsFor, First;
    OfTheDocument(c, true, c.recs, vid);
    LastIsOf(c, true, VersionsFor(c.recs, id), vid);
  }

  lemma RowLands(s: Setup, c: Ctx, a: Applied, p: DocPlan, id: string, doc: Doc, vid: VerId, st: Staged, vers: map<VerId, Version>)
    requires s.env == c.env && vid.doc == id && Same(c.inst.db, a.inst.db, id)
    requires AllTold(c, doc.Live(), VersionsFor(c.recs, id), p.versions)
    requires p.extra == if id in c.inst.db.docs then Dropped(c.inst.db, id, VersionsFor(c.recs, id)) else {}
    requires st == Stage(s, p.versions, Unstaged(a.inst)) && vers == (a.inst.db.vers - p.extra) + st.rows
    ensures RowAfter(c, doc.Live(), NewHere(c, id), vers, vid)
  {
    hide AsRecorded, Stage, AllTold, VersionsFor, Dropped, First, Last, FirstOf, LastOf;
    var vs := VersionsFor(c.recs, id);
    OfTheDocument(c, doc.Live(), c.recs, vid);
    StagedRow(s, c, doc.Live(), vs, Unstaged(a.inst), p.versions, vid);
    DroppedIs(c, id, vid);
  }

  // ---- batches of versions ---------------------------------------------------

  /** A batch of the page's versions of one document that stays. */
  ghost predicate Carries(c: Ctx, b: Restore.Batch) {
    && b.doc in c.inst.db.docs && AllTold(c, c.inst.db.docs[b.doc].Live(), VersionsFor(c.recs, b.doc), b.plans)
  }

  ghost predicate EachOnce(bs: seq<Restore.Batch>) {
    forall i, j | 0 <= i < j < |bs| :: bs[i].doc != bs[j].doc
  }

  /** Between two documents whose versions came alone: what is spent is accounted
      for, and no document left has its batch yet. */
  ghost predicate StraysUnderway(c: Ctx, ids: seq<string>, used: nat, bs: seq<Restore.Batch>) {
    && (forall i, j | 0 <= i < j < |ids| :: ids[i] != ids[j]) && EachOnce(bs)
    && used + Spends(bs) + BytesIn(c.env, c.recs, set d | d in ids) <= c.env.storageCap
    && (forall i | 0 <= i < |bs| :: Carries(c, bs[i]) && bs[i].doc !in ids)
  }

  lemma HeadsBytes(c: Ctx, ids: seq<string>)
    requires ids != [] && forall i, j | 0 <= i < j < |ids| :: ids[i] != ids[j]
    ensures BytesIn(c.env, c.recs, set d | d in ids) == BytesIn(c.env, c.recs, {ids[0]}) + BytesIn(c.env, c.recs, set d | d in ids[1..])
  {
    hide BytesIn;
    var rest := set d | d in ids[1..];
    assert (set d | d in ids) == {ids[0]} + rest by {
      assert ids == [ids[0]] + ids[1..];
    }
    assert ids[0] !in rest;
    BytesAdd(c.env, c.recs, {ids[0]}, rest);
  }

  lemma OneStray(c: Ctx, ids: seq<string>, used: nat, bs: seq<Restore.Batch>)
    requires ids != [] && ids[0] in c.inst.db.docs && StraysUnderway(c, ids, used, bs)
    ensures
      var b := Restore.Batch(ids[0], PlanVersions(c, VersionsFor(c.recs, ids[0]), c.inst.db.docs[ids[0]].Live(), used + Spends(bs), []));
      Carries(c, b) && StraysUnderway(c, ids[1..], used, bs + [b])
  {
    hide PlanVersions, VersionsFor, Spends, SpentBy, AllTold, BytesIn, Weights;
    var live, vs := c.inst.db.docs[ids[0]].Live(), VersionsFor(c.recs, ids[0]);
    HeadsBytes(c, ids);
    BytesOfOne(c.env, c.recs, ids[0]);
    NoneTold(c, live);
    VersionsAreTold(c, [], vs, live, used + Spends(bs), []);
    assert [] + vs == vs;
    RestorePlan.SpendsPlus(bs, Restore.Batch(ids[0], PlanVersions(c, vs, live, used + Spends(bs), [])));
  }

  lemma SkipOneStray(c: Ctx, ids: seq<string>, used: nat, bs: seq<Restore.Batch>)
    requires ids != [] && StraysUnderway(c, ids, used, bs)
    ensures StraysUnderway(c, ids[1..], used, bs)
  {
    hide Spends, Carries, BytesIn;
    HeadsBytes(c, ids);
  }

  lemma {:induction false} StraysCarry(c: Ctx, ids: seq<string>, used: nat, bs: seq<Restore.Batch>)
    requires StraysUnderway(c, ids, used, bs)
    ensures
      var all := PlanStrays(c, ids, used, bs);
      && EachOnce(all) && (forall i | 0 <= i < |all| :: Carries(c, all[i]) && (all[i].doc in ids || all[i] in bs)) && bs <= all
      && (forall d | d in ids && d in c.inst.db.docs :: exists i :: 0 <= i < |all| && all[i].doc == d)
    decreases ids
  {
    hide PlanVersions, VersionsFor, Spends, Carries, StraysUnderway;
    if ids == [] {
      StraysDone(c, used, bs);
    } else {
      assert ids == [ids[0]] + ids[1..];
      if ids[0] in c.inst.db.docs {
        OneStray(c, ids, used, bs);
        var b := Restore.Batch(ids[0], PlanVersions(c, VersionsFor(c.recs, ids[0]), c.inst.db.docs[ids[0]].Live(), used + Spends(bs), []));
        StraysCarry(c, ids[1..], used, bs + [b]);
        var all := PlanStrays(c, ids, used, bs);
        assert all[|bs|] == (bs + [b])[|bs|] == b;
      } else {
        SkipOneStray(c, ids, used, bs);
        StraysCarry(c, ids[1..], used, bs);
      }
    }
  }

  lemma StraysDone(c: Ctx, used: nat, bs: seq<Restore.Batch>)
    requires StraysUnderway(c, [], used, bs)
    ensures EachOnce(bs) && forall i | 0 <= i < |bs| :: Carries(c, bs[i])
  {
    hide Spends, Carries, BytesIn;
  }

  /** Which documents' versions came alone. */
  lemma {:induction false} StraysAre(recs: seq<Record>, docs: set<string>, ids: seq<string>)
    requires forall i, j | 0 <= i < j < |ids| :: ids[i] != ids[j]
    requires forall d | d in ids :: d !in docs
    ensures
      var all := Strays(recs, docs, ids);
      && (forall i, j | 0 <= i < j < |all| :: all[i] != all[j]) && (forall d | d in all :: d !in docs)
      && (forall d | d in ids :: d in all)
      && forall r | r in recs && r.VersionRecord? && r.version.vid.doc !in docs :: r.version.vid.doc in all
    decreases recs
  {
    if recs != [] {
      assert recs == [recs[0]] + recs[1..];
      StraysAre(recs[1..], docs,
        if recs[0].VersionRecord? && recs[0].version.vid.doc !in docs && recs[0].version.vid.doc !in ids
        then ids + [recs[0].version.vid.doc] else ids);
    }
  }

  /** Nothing of a document comes in when the page has no version of it. */
  lemma {:induction false} NothingComes(c: Ctx, live: bool, recs: seq<Record>, vid: VerId)
    requires forall r | r in recs && r.VersionRecord? :: r.version.vid != vid
    ensures Last(c, live, recs, vid).None? && First(recs, vid).None?
    decreases recs
  {
    hide Taken;
    if recs != [] {
      assert recs[0] in recs && forall r | r in recs[1..] :: r in recs;
      NothingComes(c, live, recs[1..], vid);
    }
  }

  // ---- a batch lands ---------------------------------------------------------

  /** Some version of the document comes in. */
  ghost predicate Gaining(c: Ctx, id: string, live: bool) {
    exists vid: VerId :: vid.doc == id && Last(c, live, c.recs, vid).Some?
  }

  /** What becomes of a document that stays. */
  ghost predicate Gained(s: Setup, c: Ctx, id: string, a: Applied)
    requires id in c.inst.db.docs
  {
    var live := c.inst.db.docs[id].Live();
    && id in a.inst.db.docs && a.inst.db.docs[id] == c.inst.db.docs[id]
    && (s.up(id) ==> RowsAfter(c, id, live, true, a.inst.db.vers))
    && (!s.up(id) ==> Same(c.inst.db, a.inst.db, id))
    && (id in a.failed <==> Gaining(c, id, live) && (!s.up(id) || (live && !s.derives(id))))
  }

  lemma BatchRow(s: Setup, c: Ctx, a: Applied, b: Restore.Batch, vid: VerId)
    requires s.env == c.env && Carries(c, b) && vid.doc == b.doc && Same(c.inst.db, a.inst.db, b.doc)
    ensures
      var live := c.inst.db.docs[b.doc].Live();
      var rows := Stage(s, b.plans, Unstaged(a.inst)).rows;
      && RowAfter(c, live, true, a.inst.db.vers + rows, vid)
      && (vid in rows <==> Last(c, live, c.recs, vid).Some?)
  {
    hide AsRecorded, Stage, AllTold, VersionsFor, First, Last, FirstOf, LastOf;
    var live, vs := c.inst.db.docs[b.doc].Live(), VersionsFor(c.recs, b.doc);
    OfTheDocument(c, live, c.recs, vid);
    StagedRow(s, c, live, vs, Unstaged(a.inst), b.plans, vid);
  }

  lemma CarriesOwn(c: Ctx, b: Restore.Batch)
    requires Carries(c, b)
    ensures Own(b.doc, b.plans)
  {
    hide Told;
    RestoreRender.VersionsAreOf(c.recs, b.doc);
  }

  lemma BatchLands(s: Setup, c: Ctx, a: Applied, b: Restore.Batch)
    requires s.env == c.env && Carries(c, b) && Same(c.inst.db, a.inst.db, b.doc) && b.doc !in a.failed
    ensures Gained(s, c, b.doc, ApplyBatch(s, a, b))
  {
    hide Stage, RowAfter, Last, AllTold, VersionsFor, Own;
    var id := b.doc;
    var live := c.inst.db.docs[id].Live();
    var rows := Stage(s, b.plans, Unstaged(a.inst)).rows;
    CarriesOwn(c, b);
    StagedIsOwn(s, id, b.plans, Unstaged(a.inst));
    forall vid: VerId | vid.doc == id
      ensures RowAfter(c, live, true, a.inst.db.vers + rows, vid) && (vid in rows <==> Last(c, live, c.recs, vid).Some?)
    {
      BatchRow(s, c, a, b, vid);
    }
    assert rows == map[] <==> !Gaining(c, id, live) by {
      if rows != map[] {
        var vid :| vid in rows;
      }
    }
    if rows == map[] {
      assert a.inst.db.vers + rows == a.inst.db.vers;
    }
  }

  /** A document none of whose versions come in stays as it is. */
  lemma NothingGained(s: Setup, c: Ctx, id: string, a: Applied)
    requires id in c.inst.db.docs && Same(c.inst.db, a.inst.db, id) && id !in a.failed
    requires !Gaining(c, id, c.inst.db.docs[id].Live())
    ensures Gained(s, c, id, a)
  {
    hide Last, First;
    var live := c.inst.db.docs[id].Live();
    forall vid: VerId | vid.doc == id
      ensures RowAfter(c, live, true, a.inst.db.vers, vid)
    {
      assert Last(c, live, c.recs, vid).None?;
    }
  }
}
