/** The decisions of the write path (src/document-write.ts, src/document-slug.ts):
    screening, metadata inheritance, slug claims, the slug lock and the no-op
    gate, and the batch a write commits. Reads are passed in, nothing is stored. */
module Writes {
  import opened Records
  import opened D1
  import DepthSpec
  import DepthScan
  import Edits

  const MAX_INPUT_BYTES := 5 * 1024 * 1024
  const MAX_DOM_DEPTH := 512

  /** The parts the model keeps uninterpreted, and the deployment's settings. */
  datatype Env = Env(
    markdownToHtml: string -> string,
    sanitize: string -> string,
    lower: string -> string,
    domDepth: string -> nat,
    sanitizerVersion: string,
    deriveTitle: string -> string,
    cleanTitle: string -> string,
    cleanDescription: string -> string,
    cleanTags: seq<string> -> seq<string>,
    isBlank: string -> bool,
    cleanSlug: string -> Option<string>,
    isReserved: string -> bool,
    storageCap: nat,
    defaultVisibility: Visibility)
  {
    function AsHtml(body: string, format: Format): string {
      if format.Markdown? then markdownToHtml(body) else body
    }

    /** The sanitized render H of a source S. */
    function RenderOf(source: string, format: Format): string {
      sanitize(AsHtml(source, format))
    }
  }

  datatype WriteErr =
    | NotFound
    | EmptyBody
    | TooLarge(limit: nat, size: nat)
    | TooDeep(maxDepth: nat, depth: int)
    | StorageCapExceeded(used: nat, cap: nat, thisWrite: nat)
    | InvalidSlug
    | SlugTaken(slug: string)
    | SlugRetired(slug: string)
    | SlugLocked
    | VersionConflict(current: nat, expected: nat)
    | VersionNotFound
    | SourceUnavailable
    | EditFailed(why: Edits.EditResult)
    | Thrown

  datatype WriteOk = WriteOk(
    version: nat,
    collapsed: bool,
    size: nat,
    sha: Digest,
    title: Option<string>,
    description: Option<string>,
    tags: seq<string>,
    slug: Option<string>)

  datatype WriteResult = Ok(ok: WriteOk) | Err(err: WriteErr)

  // ---- screening -------------------------------------------------------------

  datatype Prep = Prep(html: string, source: string, format: Format)
  {
    function Bytes(): nat { Utf8Size(html) + Utf8Size(source) }
  }

  datatype Screened = Prepared(prep: Prep) | Refused(err: WriteErr)

  ghost function ScreenAndPrepare(env: Env, body: string, format: Format): Screened {
    if |body| == 0 then Refused(EmptyBody)
    else if Utf8Size(body) > MAX_INPUT_BYTES then Refused(TooLarge(MAX_INPUT_BYTES, Utf8Size(body)))
    else
      var preDepth := DepthScan.Saturate(DepthSpec.Depth(env.lower, env.AsHtml(body, format)), DepthSpec.DEPTH_SCAN_CAP);
      if preDepth > MAX_DOM_DEPTH then Refused(TooDeep(MAX_DOM_DEPTH, preDepth))
      else
        var html := env.RenderOf(body, format);
        if env.domDepth(html) > MAX_DOM_DEPTH then Refused(TooDeep(MAX_DOM_DEPTH, env.domDepth(html)))
        else Prepared(Prep(html, body, format))
  }

  method Screen(env: Env, body: string, format: Format) returns (r: Screened)
    ensures r == ScreenAndPrepare(env, body, format)
  {
    if |body| == 0 {
      return Refused(EmptyBody);
    }
    if Utf8Size(body) > MAX_INPUT_BYTES {
      return Refused(TooLarge(MAX_INPUT_BYTES, Utf8Size(body)));
    }
    var preDepth, _, _ := DepthScan.MaxNestingDepth(env.lower, env.AsHtml(body, format), DepthSpec.DEPTH_SCAN_CAP);
    if preDepth > MAX_DOM_DEPTH {
      return Refused(TooDeep(MAX_DOM_DEPTH, preDepth));
    }
    var html := env.RenderOf(body, format);
    if env.domDepth(html) > MAX_DOM_DEPTH {
      return Refused(TooDeep(MAX_DOM_DEPTH, env.domDepth(html)));
    }
    return Prepared(Prep(html, body, format));
  }

  /** Neither empty nor oversize, and both depths, of what comes in and of its
      render, within bounds. */
  ghost predicate FitsScreen(env: Env, body: string, format: Format) {
    && body != "" && Utf8Size(body) <= 5242880
    && DepthSpec.Depth(env.lower, env.AsHtml(body, format)) <= 512
    && env.domDepth(env.RenderOf(body, format)) <= 512
  }

  /** A body passes exactly when it fits: the scan's own cap never decides. */
  lemma ScreeningPasses(env: Env, body: string, format: Format)
    ensures ScreenAndPrepare(env, body, format).Prepared? <==> FitsScreen(env, body, format)
  {
    hide DepthSpec.Depth, Utf8Size;
    DepthScan.CapKeepsVerdict(DepthSpec.Depth(env.lower, env.AsHtml(body, format)), DepthSpec.DEPTH_SCAN_CAP, MAX_DOM_DEPTH);
  }

  /** What a body that does not pass is told: the first thing wrong with it. */
  lemma ScreeningRefuses(env: Env, body: string, format: Format)
    ensures
      var s := ScreenAndPrepare(env, body, format);
      var domDepth := env.domDepth(env.RenderOf(body, format));
      s.Refused? ==>
        s.err ==
          if body == "" then EmptyBody
          else if Utf8Size(body) > 5242880 then TooLarge(5242880, Utf8Size(body))
          else if DepthSpec.Depth(env.lower, env.AsHtml(body, format)) > 512 then TooDeep(512, 513)
          else TooDeep(512, domDepth)
  {
    hide DepthSpec.Depth, Utf8Size;
  }

  /** What passes carries its own source and render, no deeper than allowed. */
  lemma PassedIs(env: Env, body: string, format: Format)
    ensures
      var s := ScreenAndPrepare(env, body, format);
      s.Prepared? ==> s.prep == Prep(env.RenderOf(body, format), body, format) && env.domDepth(s.prep.html) <= MAX_DOM_DEPTH
  {
    hide DepthSpec.Depth, DepthScan.Saturate, Utf8Size;
  }

  ghost function BytesOf(env: Env, body: string, format: Format): nat {
    Utf8Size(env.RenderOf(body, format)) + Utf8Size(body)
  }

  lemma ScreenVerdict(env: Env, body: string, format: Format)
    ensures
      var s := ScreenAndPrepare(env, body, format);
      && (s.Prepared? <==> FitsScreen(env, body, format))
      && (s.Prepared? ==> s.prep == Prep(env.RenderOf(body, format), body, format) && s.prep.Bytes() == BytesOf(env, body, format))
  {
    hide ScreenAndPrepare, DepthSpec.Depth, Utf8Size;
    ScreeningPasses(env, body, format);
    PassedIs(env, body, format);
  }

  // ---- metadata --------------------------------------------------------------

  datatype Opts = Opts(
    title: Option<string>, description: Option<string>, tags: Option<seq<string>>, slug: Option<string>)

  const NO_OPTS := Opts(None, None, None, None)

  datatype Meta = Meta(title: Option<string>, description: Option<string>)

  function NonEmpty(s: string): Option<string> {
    if s == "" then None else Some(s)
  }

  function DerivedTitle(env: Env, html: string): Option<string> {
    var derived := env.deriveTitle(html);
    if derived == "" then None else NonEmpty(env.cleanTitle(derived))
  }

  function ResolveMetadata(env: Env, html: string, input: Opts, prior: Option<Meta>): Meta {
    var title :=
      match input.title
      case None => if prior.Some? then prior.value.title else DerivedTitle(env, html)
      case Some(t) => if t == "" then DerivedTitle(env, html) else NonEmpty(env.cleanTitle(t));
    var description :=
      match input.description
      case None => if prior.Some? then prior.value.description else None
      case Some(d) => if d == "" then None else NonEmpty(env.cleanDescription(d));
    Meta(title, description)
  }

  // ---- slugs -----------------------------------------------------------------

  datatype SlugAction =
    | Keep(slug: Option<string>)
    | Claim(name: string, retire: Option<string>)
    | Clear(retired: string)
  {
    function After(): Option<string> {
      match this
      case Keep(s) => s
      case Claim(n, _) => Some(n)
      case Clear(_) => None
    }
  }

  datatype SlugResult = SlugOk(action: SlugAction) | SlugErr(err: WriteErr)

  function ResolveSlug(env: Env, db: Db, input: Option<string>, prior: Option<string>,
                       self: Option<string>, allowReserved: bool): SlugResult {
    if input.None? then SlugOk(Keep(prior))
    else if env.isBlank(input.value) then
      if prior.None? then SlugOk(Keep(None)) else SlugOk(Clear(prior.value))
    else
      match env.cleanSlug(input.value)
      case None => SlugErr(InvalidSlug)
      case Some(slug) =>
        if !allowReserved && env.isReserved(slug) then SlugErr(InvalidSlug)
        else if prior == Some(slug) then SlugOk(Keep(prior))
        else if SlugHeld(db.docs, slug, self) then SlugErr(SlugTaken(slug))
        else if slug in db.tombs then SlugErr(SlugRetired(slug))
        else SlugOk(Claim(slug, prior))
  }

  // ---- the row an update reads -----------------------------------------------

  datatype View = View(
    id: string, publicId: string, current: nat, visibility: Visibility,
    slug: Option<string>, tags: seq<string>, prior: Option<Version>)
  {
    function Title(): Option<string> { if prior.Some? then prior.value.title else None }
    function Description(): Option<string> { if prior.Some? then prior.value.description else None }
  }

  function LoadView(db: Db, id: string): Option<View> {
    if id !in db.docs || !db.docs[id].Live() || db.docs[id].current.None? then None
    else
      var d := db.docs[id];
      var vid := VerId(id, d.current.value);
      Some(View(id, d.publicId, d.current.value, d.visibility, d.slug, d.tags,
                if vid in db.vers then Some(db.vers[vid]) else None))
  }

  datatype WriteReq = WriteReq(
    doc: string, body: string, expected: Option<nat>, author: Author, format: Format, opts: Opts, allowReserved: bool)

  // ---- what a write will do --------------------------------------------------

  /** A write about to happen: two blobs to store, then one batch. */
  datatype Plan = Plan(
    docId: string,
    publicId: string,
    ver: nat,
    insert: Option<Doc>,
    row: Version,
    html: string,
    slug: SlugAction,
    tags: Option<seq<string>>,
    now: string)
  {
    function Vid(): VerId { VerId(docId, ver) }
  }

  datatype Decision =
    | Refuse(err: WriteErr)
    | Collapse(ok: WriteOk)
    | Write(plan: Plan, ok: WriteOk)

  function NewRow(env: Env, prep: Prep, docId: string, ver: nat, nonce: string, meta: Meta, author: Author, now: string): Version {
    Version(
      Key(docId, ver, nonce, false), Some(Key(docId, ver, nonce, true)),
      Utf8Size(prep.html), Some(Utf8Size(prep.source)), Some(Digest(prep.source)), env.sanitizerVersion, prep.format,
      meta.title, meta.description, author.Kind(), author.AgentId(), author.ClientId(), now)
  }

  ghost predicate SameContent(env: Env, prep: Prep, prior: Option<Version>) {
    && prior.Some?
    && prior.value.sha == Some(Digest(prep.source))
    && prior.value.sanitizer == env.sanitizerVersion
    && prior.value.format == prep.format
  }

  /** From the row read to the write, in the order the checks run: conflict,
      screening, cap, slug claim, slug lock, no-op gate. `used` is the storage
      total and `slug` the claim's outcome, each read at its own moment. */
  ghost function DecideUpdate(env: Env, view: View, req: WriteReq, used: nat, slug: SlugResult,
                              nonce: string, now: string): Decision {
    if req.expected.Some? && req.expected.value != view.current then
      Refuse(VersionConflict(view.current, req.expected.value))
    else
      match ScreenAndPrepare(env, req.body, req.format)
      case Refused(err) => Refuse(err)
      case Prepared(prep) =>
        if used + prep.Bytes() > env.storageCap then Refuse(StorageCapExceeded(used, env.storageCap, prep.Bytes()))
        else
          match slug
          case SlugErr(err) => Refuse(err)
          case SlugOk(action) => DecideScreened(env, view, req, prep, action, nonce, now)
  }

  ghost function DecideScreened(env: Env, view: View, req: WriteReq, prep: Prep, action: SlugAction,
                                nonce: string, now: string): Decision {
    if req.author.Agent? && view.visibility.Public? && !action.Keep? then Refuse(SlugLocked)
    else
      var meta := ResolveMetadata(env, prep.html, req.opts, Some(Meta(view.Title(), view.Description())));
      var tags := if req.opts.tags.Some? then Some(env.cleanTags(req.opts.tags.value)) else None;
      var tagsAfter := if tags.Some? then tags.value else view.tags;
      var sha := Digest(prep.source);
      var same :=
        && SameContent(env, prep, view.prior)
        && meta == Meta(view.Title(), view.Description())
        && action.Keep?
        && tagsAfter == view.tags;
      if same then
        Collapse(WriteOk(view.current, true, Utf8Size(prep.html), sha, meta.title, meta.description, tagsAfter, action.After()))
      else
        var ver := view.current + 1;
        Write(
          Plan(view.id, view.publicId, ver, None, NewRow(env, prep, view.id, ver, nonce, meta, req.author, now),
               prep.html, action, tags, now),
          WriteOk(ver, false, Utf8Size(prep.html), sha, meta.title, meta.description, tagsAfter, action.After()))
  }

  datatype PublishReq = PublishReq(
    body: string, author: Author, format: Format, opts: Opts, visibility: Option<Visibility>, allowReserved: bool)

  /** Fresh names a publish mints. */
  datatype Names = Names(docId: string, publicId: string, nonce: string)

  ghost function DecidePublish(env: Env, req: PublishReq, used: nat, slug: SlugResult, names: Names, now: string): Decision {
    match ScreenAndPrepare(env, req.body, req.format)
    case Refused(err) => Refuse(err)
    case Prepared(prep) =>
      if used + prep.Bytes() > env.storageCap then Refuse(StorageCapExceeded(used, env.storageCap, prep.Bytes()))
      else
        match slug
        case SlugErr(err) => Refuse(err)
        case SlugOk(action) =>
          var meta := ResolveMetadata(env, prep.html, req.opts, None);
          var tags := if req.opts.tags.Some? then env.cleanTags(req.opts.tags.value) else [];
          var name := if action.Claim? then Some(action.name) else None;
          var visibility := if req.visibility.Some? then req.visibility.value else env.defaultVisibility;
          var doc := Doc(names.publicId, None, if visibility.Public? then Some(1) else None,
                         req.author.AgentId(), req.author.Kind(), None, name, visibility, tags, Active, None, now);
          Write(
            Plan(names.docId, names.publicId, 1, Some(doc),
                 NewRow(env, prep, names.docId, 1, names.nonce, meta, req.author, now), prep.html, Keep(name), None, now),
            WriteOk(1, false, Utf8Size(prep.html), Digest(prep.source), meta.title, meta.description, tags, name))
  }

  // ---- the batch -------------------------------------------------------------

  /** The tombstone a shed slug leaves: a rename forwards to the document itself. */
  function SlugStatements(docId: string, publicId: string, action: SlugAction, now: string): seq<Stmt> {
    match action
    case Keep(_) => []
    case Claim(name, retire) =>
      [SetSlug(docId, Some(name))] +
      (if retire.Some? then [RetireSlug(retire.value, Tomb(Some(docId), now, Renamed, Some(publicId)))] else [])
    case Clear(retired) =>
      [SetSlug(docId, None), RetireSlug(retired, Tomb(Some(docId), now, Released, None))]
  }

  function Statements(p: Plan): seq<Stmt> {
    if p.insert.Some? then
      [InsertDocument(p.docId, p.insert.value), InsertVersion(p.Vid(), p.row), SetCurrent(p.docId, p.ver)]
    else
      [InsertVersion(p.Vid(), p.row), SetCurrent(p.docId, p.ver)]
      + SlugStatements(p.docId, p.publicId, p.slug, p.now)
      + (if p.tags.Some? then [SetTags(p.docId, p.tags.value)] else [])
  }

  function RetireIn(tombs: map<string, Tomb>, name: string, tomb: Tomb): map<string, Tomb> {
    if name in tombs then tombs else tombs[name := tomb]
  }

  function TombsAfter(tombs: map<string, Tomb>, docId: string, publicId: string, action: SlugAction, now: string): map<string, Tomb> {
    match action
    case Keep(_) => tombs
    case Claim(_, retire) =>
      if retire.Some? then RetireIn(tombs, retire.value, Tomb(Some(docId), now, Renamed, Some(publicId))) else tombs
    case Clear(retired) => RetireIn(tombs, retired, Tomb(Some(docId), now, Released, None))
  }

  /** The constraints a write's batch has to pass. */
  predicate Accepts(db: Db, p: Plan) {
    && p.Vid() !in db.vers
    && (if p.insert.Some? then
          && p.docId !in db.docs && !PublicIdHeld(db.docs, p.insert.value.publicId)
          && (p.insert.value.slug.Some? ==> !SlugHeld(db.docs, p.insert.value.slug.value, None))
        else
          && p.docId in db.docs
          && (p.slug.Claim? ==> !SlugHeld(db.docs, p.slug.name, Some(p.docId))))
  }

  /** The tables after it. */
  function Committed(db: Db, p: Plan): Db
    requires Accepts(db, p)
  {
    var was := if p.insert.Some? then p.insert.value else db.docs[p.docId];
    var doc := was.(
      current := Some(p.ver),
      slug := if p.slug.Keep? then was.slug else p.slug.After(),
      tags := if p.tags.Some? then p.tags.value else was.tags);
    Db(db.docs[p.docId := doc], db.vers[p.Vid() := p.row],
       if p.insert.Some? then db.tombs else TombsAfter(db.tombs, p.docId, p.publicId, p.slug, p.now))
  }

  /** A plan is well shaped: its row belongs to it, a publish inserts version 1. */
  predicate Shaped(p: Plan) {
    p.insert.Some? ==> p.slug.Keep? && p.tags.None?
  }

  lemma SlugBatch(db: Db, docId: string, publicId: string, action: SlugAction, now: string)
    requires docId in db.docs
    ensures Batch(db, SlugStatements(docId, publicId, action, now)) ==
              if action.Claim? && SlugHeld(db.docs, action.name, Some(docId)) then None
              else Some(Db(
                     if action.Keep? then db.docs else db.docs[docId := db.docs[docId].(slug := action.After())],
                     db.vers, TombsAfter(db.tombs, docId, publicId, action, now)))
  {
    hide SlugHeld;
    match action
    case Keep(_) =>
    case Claim(name, retire) =>
      var claimed := Exec(db, SetSlug(docId, Some(name)));
      if claimed.Some? && retire.Some? {
        var tomb := RetireSlug(retire.value, Tomb(Some(docId), now, Renamed, Some(publicId)));
        assert SlugStatements(docId, publicId, action, now)[1..] == [tomb];
        assert Batch(claimed.value, [tomb]) == Exec(claimed.value, tomb) by { BatchOne(claimed.value, tomb); }
      }
    case Clear(retired) =>
      var cleared := Exec(db, SetSlug(docId, None));
      var tomb := RetireSlug(retired, Tomb(Some(docId), now, Released, None));
      assert SlugStatements(docId, publicId, action, now)[1..] == [tomb];
      assert Batch(cleared.value, [tomb]) == Exec(cleared.value, tomb) by { BatchOne(cleared.value, tomb); }
  }

  lemma BatchOne(db: Db, s: Stmt)
    ensures Batch(db, [s]) == Exec(db, s)
  {
    assert [s][1..] == [];
  }

  lemma BatchCons(db: Db, s: Stmt, rest: seq<Stmt>)
    ensures Batch(db, [s] + rest) ==
              match Exec(db, s)
              case None => None
              case Some(next) => Batch(next, rest)
  {
    assert ([s] + rest)[1..] == rest;
  }

  /** The statement list does all of the write or none of it. */
  lemma CommitIsAllOrNothing(db: Db, p: Plan)
    requires Shaped(p)
    ensures Batch(db, Statements(p)) == if Accepts(db, p) then Some(Committed(db, p)) else None
  {
    if p.insert.Some? {
      InsertBatch(db, p);
    } else {
      AppendBatch(db, p);
    }
  }

  lemma InsertBatch(db: Db, p: Plan)
    requires Shaped(p) && p.insert.Some?
    ensures Batch(db, Statements(p)) == if Accepts(db, p) then Some(Committed(db, p)) else None
  {
    hide SlugHeld, PublicIdHeld;
    var doc, version, current := InsertDocument(p.docId, p.insert.value), InsertVersion(p.Vid(), p.row), SetCurrent(p.docId, p.ver);
    assert Statements(p) == [doc] + ([version] + [current]);
    BatchCons(db, doc, [version] + [current]);
    var one := Exec(db, doc);
    if one.Some? {
      BatchCons(one.value, version, [current]);
      var two := Exec(one.value, version);
      if two.Some? {
        BatchOne(two.value, current);
        var three := Exec(two.value, current).value;
        assert three.docs == Committed(db, p).docs;
      }
    }
  }

  lemma AppendBatch(db: Db, p: Plan)
    requires p.insert.None?
    ensures Batch(db, Statements(p)) == if Accepts(db, p) then Some(Committed(db, p)) else None
  {
    hide SlugHeld, SlugStatements, Batch, TombsAfter;
    var version, current := InsertVersion(p.Vid(), p.row), SetCurrent(p.docId, p.ver);
    var slugs := SlugStatements(p.docId, p.publicId, p.slug, p.now);
    var tags := if p.tags.Some? then [SetTags(p.docId, p.tags.value)] else [];
    assert Statements(p) == [version] + ([current] + (slugs + tags));
    BatchCons(db, version, [current] + (slugs + tags));
    var one := Exec(db, version);
    if one.Some? {
      BatchCons(one.value, current, slugs + tags);
      var two := Exec(one.value, current).value;
      assert SlugHeld(two.docs, p.slug.After().GetOr(""), Some(p.docId)) == SlugHeld(db.docs, p.slug.After().GetOr(""), Some(p.docId)) by {
        SlugHeldElsewhere(db.docs, two.docs, p.slug.After().GetOr(""), p.docId);
      }
      BatchConcat(two, slugs, tags);
      SlugBatch(two, p.docId, p.publicId, p.slug, p.now);
      var three := Batch(two, slugs);
      if three.Some? {
        if p.tags.Some? {
          BatchOne(three.value, SetTags(p.docId, p.tags.value));
        } else {
          BatchNone(three.value);
        }
        assert Batch(three.value, tags).value.docs == Committed(db, p).docs;
      }
    }
  }

  lemma BatchNone(db: Db)
    ensures Batch(db, []) == Some(db)
  {
  }

  lemma SlugHeldElsewhere(docs: map<string, Doc>, docs': map<string, Doc>, slug: string, id: string)
    requires docs.Keys == docs'.Keys && forall d | d in docs && d != id :: docs[d] == docs'[d]
    ensures SlugHeld(docs, slug, Some(id)) == SlugHeld(docs', slug, Some(id))
  {
  }
}
