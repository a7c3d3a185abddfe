/** What the four writing calls store and answer, told of rows and requests alone:
    when each is accepted, what it is refused with, and everything it changes. */
module AskedWrites {
  import opened Records
  import opened D1
  import opened Writes
  import opened MetadataRules
  import opened Serial
  import opened SerialEffects
  import opened SerialInvariant
  import DepthSpec
  import Edits
  import Idempotence
  import PI = ProtocolInvariant
  import ProtocolSteps
  import Protocol
  import SerialTheorems
  import SlugHistory

  // ---- names -----------------------------------------------------------------

  /** The name a request leaves the document with. */
  ghost function NameAfter(env: Env, before: Option<string>, asked: Option<string>): Option<string> {
    if asked.None? then before else if env.isBlank(asked.value) then None else env.cleanSlug(asked.value)
  }

  /** No other document has the name. */
  ghost predicate Unheld(db: Db, name: string, self: Option<string>) {
    forall d | d in db.docs && self != Some(d) :: db.docs[d].slug != Some(name)
  }

  /** Nothing is asked, or clearing, or a valid name that is the document's own or
      neither held by another nor retired. */
  ghost predicate NameOpen(env: Env, db: Db, self: Option<string>, before: Option<string>, asked: Option<string>, reserved: bool) {
    asked.None? || env.isBlank(asked.value) ||
    (&& env.cleanSlug(asked.value).Some?
     && var name := env.cleanSlug(asked.value).value;
     && (reserved || !env.isReserved(name))
     && (before == Some(name) || (Unheld(db, name, self) && name !in db.tombs)))
  }

  ghost function NameRefusal(env: Env, db: Db, self: Option<string>, asked: string, reserved: bool): WriteErr {
    match env.cleanSlug(asked)
    case None => InvalidSlug
    case Some(name) =>
      if !reserved && env.isReserved(name) then InvalidSlug
      else if !Unheld(db, name, self) then SlugTaken(name) else SlugRetired(name)
  }

  /** A claim is granted exactly when the name is open to it. */
  lemma NameVerdict(env: Env, db: Db, asked: Option<string>, before: Option<string>, self: Option<string>, reserved: bool)
    ensures
      var r := ResolveSlug(env, db, asked, before, self, reserved);
      && (r.SlugOk? <==> NameOpen(env, db, self, before, asked, reserved))
      && (r.SlugOk? ==>
            && r.action.After() == NameAfter(env, before, asked) && (r.action.Keep? <==> r.action.After() == before)
            && (r.action.Keep? ==> r.action.slug == before)
            && (r.action.Claim? ==> r.action.retire == before && !SlugHeld(db.docs, r.action.name, self) && r.action.name !in db.tombs)
            && (r.action.Clear? ==> before == Some(r.action.retired)))
      && (r.SlugErr? ==> asked.Some? && r.err == NameRefusal(env, db, self, asked.value, reserved))
  {
    if asked.Some? && env.cleanSlug(asked.value).Some? {
      assert Unheld(db, env.cleanSlug(asked.value).value, self) <==> !SlugHeld(db.docs, env.cleanSlug(asked.value).value, self);
    }
  }

  /** The tombstone a shed name gets: forwarding home when the document was renamed. */
  ghost function TombsOf(tombs: map<string, Tomb>, doc: string, publicId: string, before: Option<string>, after: Option<string>, now: string): map<string, Tomb> {
    if before.None? || after == before then tombs
    else tombs[before.value := Tomb(Some(doc), now, if after.Some? then Renamed else Released, if after.Some? then Some(publicId) else None)]
  }

  lemma ActionTombs(env: Env, db: Db, doc: string, publicId: string, before: Option<string>, action: SlugAction, now: string)
    requires before.Some? ==> before.value !in db.tombs
    requires action.Keep? <==> action.After() == before
    requires action.Claim? ==> action.retire == before
    requires action.Clear? ==> before == Some(action.retired)
    ensures TombsAfter(db.tombs, doc, publicId, action, now) == TombsOf(db.tombs, doc, publicId, before, action.After(), now)
  {
  }

  // ---- updates ---------------------------------------------------------------

  /** A live document and its current row. */
  ghost predicate AtRow(db: Db, doc: string, ver: nat) {
    IsLive(db, doc) && db.docs[doc].current == Some(ver) && VerId(doc, ver) in db.vers
  }

  lemma LiveIsAtRow(db: Db, doc: string) returns (ver: nat)
    requires PI.DbOk(db) && IsLive(db, doc)
    ensures AtRow(db, doc, ver) && ver >= 1 && VerId(doc, ver + 1) !in db.vers
  {
    assert PI.PointersOk(db, doc);
    ver := db.docs[doc].current.value;
  }

  ghost function TagsAfter(env: Env, before: seq<string>, asked: Option<seq<string>>): seq<string> {
    if asked.Some? then env.cleanTags(asked.value) else before
  }

  /** Nothing that is asked for differs from what is stored. */
  ghost predicate Unchanged(env: Env, db: Db, req: WriteReq, ver: nat)
    requires AtRow(db, req.doc, ver)
  {
    var d, row := db.docs[req.doc], db.vers[VerId(req.doc, ver)];
    && row.sha == Some(Digest(req.body)) && row.format == req.format && row.sanitizer == env.sanitizerVersion
    && Described(env, env.RenderOf(req.body, req.format), req.opts, Some(row), row)
    && NameAfter(env, d.slug, req.opts.slug) == d.slug && TagsAfter(env, d.tags, req.opts.tags) == d.tags
  }

  /** The request may go ahead. */
  ghost predicate MayUpdate(env: Env, s: Store, req: WriteReq) {
    && FitsScreen(env, req.body, req.format) && IsLive(s.db, req.doc)
    && var d := s.db.docs[req.doc];
    && (req.expected.Some? ==> req.expected == d.current)
    && UsedBytes(s.db) + BytesOf(env, req.body, req.format) <= env.storageCap
    && NameOpen(env, s.db, Some(req.doc), d.slug, req.opts.slug, req.allowReserved)
    && (req.author.Agent? && d.visibility.Public? ==> NameAfter(env, d.slug, req.opts.slug) == d.slug)
  }

  /** What stops a request that may not: the first of these. */
  ghost function WhyNot(env: Env, s: Store, req: WriteReq): WriteErr
    requires !MayUpdate(env, s, req)
  {
    if req.body == "" then EmptyBody
    else if !IsLive(s.db, req.doc) then NotFound
    else
      var d := s.db.docs[req.doc];
      if req.expected.Some? && req.expected != d.current then VersionConflict(d.current.GetOr(0), req.expected.value)
      else if Utf8Size(req.body) > 5242880 then TooLarge(5242880, Utf8Size(req.body))
      else if DepthSpec.Depth(env.lower, env.AsHtml(req.body, req.format)) > 512 then TooDeep(512, 513)
      else if env.domDepth(env.RenderOf(req.body, req.format)) > 512 then TooDeep(512, env.domDepth(env.RenderOf(req.body, req.format)))
      else if UsedBytes(s.db) + BytesOf(env, req.body, req.format) > env.storageCap then
        StorageCapExceeded(UsedBytes(s.db), env.storageCap, BytesOf(env, req.body, req.format))
      else if !NameOpen(env, s.db, Some(req.doc), d.slug, req.opts.slug, req.allowReserved) then
        NameRefusal(env, s.db, Some(req.doc), req.opts.slug.value, req.allowReserved)
      else SlugLocked
  }

  /** Just this row was added to this document, under new keys, and of the document
      itself only pointer, name and tags moved. */
  ghost predicate Appended(env: Env, s: Store, s': Store, req: WriteReq, ver: nat, nonce: string, now: string)
    requires AtRow(s.db, req.doc, ver)
  {
    var d, next := s.db.docs[req.doc], VerId(req.doc, ver + 1);
    var h, k := Key(req.doc, ver + 1, nonce, false), Key(req.doc, ver + 1, nonce, true);
    var name := NameAfter(env, d.slug, req.opts.slug);
    && s'.db.docs == s.db.docs[req.doc := d.(current := Some(ver + 1), slug := name, tags := TagsAfter(env, d.tags, req.opts.tags))]
    && next in s'.db.vers && s'.db.vers == s.db.vers[next := s'.db.vers[next]]
    && s'.db.tombs == TombsOf(s.db.tombs, req.doc, d.publicId, d.slug, name, now)
    && s'.r2 == s.r2[h := env.RenderOf(req.body, req.format)][k := req.body] && s'.nonces == s.nonces + {nonce}
    && RowAsAsked(env, s'.db.vers[next], Some(s.db.vers[VerId(req.doc, ver)]), req.body, req.format, req.author, req.opts, h, k, now)
  }

  ghost predicate RowAsAsked(env: Env, row: Version, before: Option<Version>, body: string, format: Format, author: Author, opts: Opts,
                             h: Key, k: Key, now: string) {
    && HoldsBody(row, body, format, author) && Described(env, env.RenderOf(body, format), opts, before, row)
    && row.hKey == h && row.sKey == Some(k) && row.createdAt == now && row.sanitizer == env.sanitizerVersion
    && row.size == Utf8Size(env.RenderOf(body, format)) && row.sourceSize == Some(Utf8Size(body))
  }

  /** The metadata gate asks just whether the row is already described so. */
  lemma SameTexts(env: Env, html: string, asked: Opts, row: Version)
    ensures ResolveMetadata(env, html, asked, Some(Meta(row.title, row.description))) == Meta(row.title, row.description)
            <==> Described(env, html, asked, Some(row), row)
  {
  }

  lemma DecidedAs(env: Env, db: Db, view: View, req: WriteReq, prep: Prep, action: SlugAction, nonce: string, now: string, ver: nat)
    requires AtRow(db, req.doc, ver) && LoadView(db, req.doc) == Some(view)
    requires prep == Prep(env.RenderOf(req.body, req.format), req.body, req.format)
    requires action.After() == NameAfter(env, view.slug, req.opts.slug) && (action.Keep? <==> action.After() == view.slug)
    ensures
      var d, row := db.docs[req.doc], db.vers[VerId(req.doc, ver)];
      var r := DecideScreened(env, view, req, prep, action, nonce, now);
      && (r.Refuse? ==> r.err.SlugLocked?)
      && (r.Refuse? <==> req.author.Agent? && d.visibility.Public? && NameAfter(env, d.slug, req.opts.slug) != d.slug)
      && (r.Collapse? ==> Unchanged(env, db, req, ver) && r.ok.collapsed)
      && (!r.Refuse? && Unchanged(env, db, req, ver) ==> r.Collapse?)
      && (r.Write? ==>
            && !r.ok.collapsed && r.plan.docId == req.doc && r.plan.ver == ver + 1 && r.plan.insert.None? && r.plan.publicId == d.publicId
            && r.plan.slug == action && r.plan.html == prep.html && r.plan.now == now
            && TagsAfter(env, d.tags, req.opts.tags) == (if r.plan.tags.Some? then r.plan.tags.value else d.tags)
            && RowAsAsked(env, r.plan.row, Some(row), req.body, req.format, req.author, req.opts,
                          Key(req.doc, ver + 1, nonce, false), Key(req.doc, ver + 1, nonce, true), now))
  {
    hide ResolveMetadata, Described, HoldsBody, Utf8Size, NameAfter;
    var row := db.vers[VerId(req.doc, ver)];
    SameTexts(env, prep.html, req.opts, row);
    NewRowIsDescribed(env, prep, view.id, ver + 1, nonce, req.opts, Some(row), req.author, now);
  }

  /** An update is accepted exactly when it may go ahead and either D1 is there for
      its batch or there is nothing to write; otherwise it is told the first thing
      that stops it. */
  lemma UpdateVerdict(env: Env, s: Store, req: WriteReq, nonce: string, now: string, up: bool)
    requires PI.DbOk(s.db)
    ensures
      var r := Update(env, s, req, nonce, now, up);
      if !MayUpdate(env, s, req) then r.out == Failed(WhyNot(env, s, req)) && r.store == s
      else
        && s.db.docs[req.doc].current.Some? && AtRow(s.db, req.doc, s.db.docs[req.doc].current.value)
        && var ver := s.db.docs[req.doc].current.value;
        if Unchanged(env, s.db, req, ver) then r.out.Written? && r.out.ok.collapsed && r.store == s
        else if up then r.out.Written? && !r.out.ok.collapsed && r.out.ok.version == ver + 1
        else r.out == Failed(Thrown)
  {
    hide PI.DbOk, ScreenAndPrepare, UsedBytes, ResolveSlug, DecideScreened, Land, LoadView, Utf8Size, DepthSpec.Depth, Unchanged,
      NameOpen, NameAfter, NameRefusal, BytesOf;
    if req.body != "" {
      ViewVerdict(s.db, req.doc);
      if IsLive(s.db, req.doc) {
        var ver := LiveIsAtRow(s.db, req.doc);
        var view, d := LoadView(s.db, req.doc).value, s.db.docs[req.doc];
        ScreenVerdict(env, req.body, req.format);
        ScreeningRefuses(env, req.body, req.format);
        NameVerdict(env, s.db, req.opts.slug, d.slug, Some(req.doc), req.allowReserved);
        var slug := SlugFor(env, s.db, view, req);
        var prep := Prep(env.RenderOf(req.body, req.format), req.body, req.format);
        if slug.SlugOk? {
          DecidedAs(env, s.db, view, req, prep, slug.action, nonce, now, ver);
          var dec := DecideScreened(env, view, req, prep, slug.action, nonce, now);
          if dec.Write? {
            Lands(s, dec.plan, dec.ok, up, ver);
          }
          if dec.Write? {
            OkVersion(env, view, req, prep, slug.action, nonce, now);
          }
        }
      }
    }
  }

  lemma OkVersion(env: Env, view: View, req: WriteReq, prep: Prep, action: SlugAction, nonce: string, now: string)
    requires DecideScreened(env, view, req, prep, action, nonce, now).Write?
    ensures DecideScreened(env, view, req, prep, action, nonce, now).ok.version == view.current + 1
  {
    hide ResolveMetadata, SameContent;
  }

  lemma ViewVerdict(db: Db, doc: string)
    requires PI.DbOk(db)
    ensures LoadView(db, doc).Some? <==> IsLive(db, doc)
    ensures LoadView(db, doc).Some? ==>
      var view, d := LoadView(db, doc).value, db.docs[doc];
      && view.id == doc && view.slug == d.slug && view.visibility == d.visibility && view.tags == d.tags && view.publicId == d.publicId
      && d.current == Some(view.current)
  {
    hide PI.RowsOk;
    if IsLive(db, doc) {
      assert PI.PointersOk(db, doc);
    }
  }

  /** The batch of a row for a live document always goes through when D1 is there. */
  lemma Lands(s: Store, p: Plan, ok: WriteOk, up: bool, ver: nat)
    requires p.docId in s.db.docs && p.insert.None? && p.ver == ver + 1 && VerId(p.docId, ver + 1) !in s.db.vers
    requires p.slug.Claim? ==> !SlugHeld(s.db.docs, p.slug.name, Some(p.docId))
    ensures Accepts(s.db, p)
    ensures
      var r := Land(s, p, ok, up);
      if up then r == Reply(Store(Committed(s.db, p), WithBlobs(s.r2, p), s.nonces + {p.row.hKey.nonce}), Written(ok, 0))
      else r.out == Failed(Thrown)
  {
    hide SlugHeld, Committed, WithBlobs;
  }

  /** And when it writes, it appends just the row asked for. */
  lemma UpdateStores(env: Env, s: Store, req: WriteReq, nonce: string, now: string, up: bool)
    requires PI.DbOk(s.db) && SlugHistory.SlugsOk(s.db)
    requires Update(env, s, req, nonce, now, up).out.Written? && !Update(env, s, req, nonce, now, up).out.ok.collapsed
    ensures
      && s.db.docs.Keys >= {req.doc} && s.db.docs[req.doc].current.Some?
      && var ver := s.db.docs[req.doc].current.value;
      AtRow(s.db, req.doc, ver) && Appended(env, s, Update(env, s, req, nonce, now, up).store, req, ver, nonce, now)
  {
    hide PI.DbOk, ScreenAndPrepare, UsedBytes, ResolveSlug, DecideScreened, Land, LoadView, Utf8Size, DepthSpec.Depth, Unchanged,
      NameOpen, NameAfter, NameRefusal, BytesOf, Appended, TombsOf;
    ViewVerdict(s.db, req.doc);
    var ver := LiveIsAtRow(s.db, req.doc);
    var view, d := LoadView(s.db, req.doc).value, s.db.docs[req.doc];
    ScreenVerdict(env, req.body, req.format);
    NameVerdict(env, s.db, req.opts.slug, d.slug, Some(req.doc), req.allowReserved);
    var action := SlugFor(env, s.db, view, req).action;
    var prep := Prep(env.RenderOf(req.body, req.format), req.body, req.format);
    DecidedAs(env, s.db, view, req, prep, action, nonce, now, ver);
    var dec := DecideScreened(env, view, req, prep, action, nonce, now);
    Lands(s, dec.plan, dec.ok, up, ver);
    ActionTombs(env, s.db, req.doc, d.publicId, d.slug, action, now);
    PlanAppends(env, s, req, dec.plan, ver, nonce, now);
  }

  lemma PlanAppends(env: Env, s: Store, req: WriteReq, p: Plan, ver: nat, nonce: string, now: string)
    requires AtRow(s.db, req.doc, ver) && Accepts(s.db, p) && p.docId == req.doc && p.ver == ver + 1 && p.insert.None? && p.now == now
    requires p.html == env.RenderOf(req.body, req.format)
    requires
      var d, row := s.db.docs[req.doc], s.db.vers[VerId(req.doc, ver)];
      && p.publicId == d.publicId
      && p.slug.After() == NameAfter(env, d.slug, req.opts.slug) && (p.slug.Keep? <==> p.slug.After() == d.slug)
      && TagsAfter(env, d.tags, req.opts.tags) == (if p.tags.Some? then p.tags.value else d.tags)
      && TombsAfter(s.db.tombs, req.doc, d.publicId, p.slug, now) == TombsOf(s.db.tombs, req.doc, d.publicId, d.slug, p.slug.After(), now)
      && RowAsAsked(env, p.row, Some(row), req.body, req.format, req.author, req.opts,
                    Key(req.doc, ver + 1, nonce, false), Key(req.doc, ver + 1, nonce, true), now)
    ensures
      var s' := Store(Committed(s.db, p), WithBlobs(s.r2, p), s.nonces + {p.row.hKey.nonce});
      Appended(env, s, s', req, ver, nonce, now)
  {
    hide SlugHeld, TombsAfter, TombsOf, NameAfter, Described, Utf8Size;
  }

  // ---- publishing ------------------------------------------------------------

  ghost predicate MayPublish(env: Env, s: Store, req: PublishReq) {
    && FitsScreen(env, req.body, req.format)
    && UsedBytes(s.db) + BytesOf(env, req.body, req.format) <= env.storageCap
    && NameOpen(env, s.db, None, None, req.opts.slug, req.allowReserved)
  }

  ghost function WhyNotPublish(env: Env, s: Store, req: PublishReq): WriteErr
    requires !MayPublish(env, s, req)
  {
    if req.body == "" then EmptyBody
    else if Utf8Size(req.body) > 5242880 then TooLarge(5242880, Utf8Size(req.body))
    else if DepthSpec.Depth(env.lower, env.AsHtml(req.body, req.format)) > 512 then TooDeep(512, 513)
    else if env.domDepth(env.RenderOf(req.body, req.format)) > 512 then TooDeep(512, env.domDepth(env.RenderOf(req.body, req.format)))
    else if UsedBytes(s.db) + BytesOf(env, req.body, req.format) > env.storageCap then
      StorageCapExceeded(UsedBytes(s.db), env.storageCap, BytesOf(env, req.body, req.format))
    else NameRefusal(env, s.db, None, req.opts.slug.value, req.allowReserved)
  }

  /** A live document of this author, with the visibility asked for or the
      instance's own, at its first version, which is published just when the
      document is public. */
  ghost predicate NewDoc(env: Env, d: Doc, req: PublishReq, publicId: string, now: string) {
    && d.publicId == publicId && d.Live() && d.current == Some(1) && d.status.Active? && d.supersededBy.None? && d.createdAt == now
    && d.visibility == (if req.visibility.Some? then req.visibility.value else env.defaultVisibility)
    && d.published == (if d.visibility.Public? then Some(1) else None)
    && d.slug == NameAfter(env, None, req.opts.slug)
    && d.tags == TagsAfter(env, [], req.opts.tags)
    && match req.author
       case Operator => d.createdByKind.OperatorKind? && d.createdBy.None?
       case Agent(id, _) => d.createdByKind.AgentKind? && d.createdBy == Some(id)
  }

  /** Just this document and its first row were added, and the answer tells them. */
  ghost predicate Published(env: Env, s: Store, s': Store, req: PublishReq, names: Names, now: string, ok: WriteOk) {
    var v := VerId(names.docId, 1);
    var h, k := Key(names.docId, 1, names.nonce, false), Key(names.docId, 1, names.nonce, true);
    && names.docId in s'.db.docs && s'.db.docs == s.db.docs[names.docId := s'.db.docs[names.docId]]
    && v in s'.db.vers && s'.db.vers == s.db.vers[v := s'.db.vers[v]] && s'.db.tombs == s.db.tombs
    && s'.r2 == s.r2[h := env.RenderOf(req.body, req.format)][k := req.body] && s'.nonces == s.nonces + {names.nonce}
    && var d, row := s'.db.docs[names.docId], s'.db.vers[v];
    && NewDoc(env, d, req, names.publicId, now)
    && RowAsAsked(env, row, None, req.body, req.format, req.author, req.opts, h, k, now)
    && ok == WriteOk(1, false, row.size, Digest(req.body), row.title, row.description, d.tags, d.slug)
  }

  lemma PublishDecision(env: Env, s: Store, req: PublishReq, names: Names, now: string)
    ensures
      var slug := ResolveSlug(env, s.db, req.opts.slug, None, None, req.allowReserved);
      var r := DecidePublish(env, req, UsedBytes(s.db), slug, names, now);
      && (r.Write? <==> MayPublish(env, s, req)) && !r.Collapse?
      && (r.Refuse? ==> r.err == WhyNotPublish(env, s, req))
  {
    hide UsedBytes, ScreenAndPrepare, ResolveSlug, ResolveMetadata, Utf8Size, DepthSpec.Depth, NameOpen, NameAfter, NameRefusal, BytesOf;
    ScreenVerdict(env, req.body, req.format);
    ScreeningRefuses(env, req.body, req.format);
    NameVerdict(env, s.db, req.opts.slug, None, None, req.allowReserved);
  }

  /** What the decision's plan inserts. */
  ghost predicate PlansNew(env: Env, req: PublishReq, names: Names, now: string, p: Plan, ok: WriteOk) {
    && p.docId == names.docId && p.ver == 1 && p.html == env.RenderOf(req.body, req.format)
    && p.insert.Some? && p.slug.Keep? && p.tags.None?
    && p.insert.value.current.None? && NewDoc(env, p.insert.value.(current := Some(1)), req, names.publicId, now)
    && RowAsAsked(env, p.row, None, req.body, req.format, req.author, req.opts,
                  Key(names.docId, 1, names.nonce, false), Key(names.docId, 1, names.nonce, true), now)
    && ok == WriteOk(1, false, p.row.size, Digest(req.body), p.row.title, p.row.description, p.insert.value.tags, p.insert.value.slug)
  }

  lemma PublishPlanned(env: Env, s: Store, req: PublishReq, names: Names, now: string)
    requires MayPublish(env, s, req)
    ensures
      var r := DecidePublish(env, req, UsedBytes(s.db), ResolveSlug(env, s.db, req.opts.slug, None, None, req.allowReserved), names, now);
      && r.Write? && PlansNew(env, req, names, now, r.plan, r.ok)
      && (r.plan.insert.value.slug.Some? ==> !SlugHeld(s.db.docs, r.plan.insert.value.slug.value, None))
  {
    hide UsedBytes, ScreenAndPrepare, ResolveSlug, ResolveMetadata, Utf8Size, DepthSpec.Depth, NameOpen, NameAfter, NameRefusal,
      FitsScreen, BytesOf, Described, SlugHeld;
    ScreenVerdict(env, req.body, req.format);
    NameVerdict(env, s.db, req.opts.slug, None, None, req.allowReserved);
    NewRowIsDescribed(env, Prep(env.RenderOf(req.body, req.format), req.body, req.format), names.docId, 1, names.nonce, req.opts, None, req.author, now);
  }

  lemma PublishLands(env: Env, s: Store, req: PublishReq, names: Names, now: string, up: bool, p: Plan, ok: WriteOk)
    requires Supplied(s, PublishCall(req, names, now, up)) && PI.DbOk(s.db) && PlansNew(env, req, names, now, p, ok)
    requires p.insert.value.slug.Some? ==> !SlugHeld(s.db.docs, p.insert.value.slug.value, None)
    ensures Accepts(s.db, p)
    ensures Published(env, s, Store(Committed(s.db, p), WithBlobs(s.r2, p), s.nonces + {p.row.hKey.nonce}), req, names, now, ok)
  {
    hide UsedBytes, Utf8Size, NameAfter, Described, SlugHeld, PublicIdHeld;
  }

  /** A publish is accepted exactly when it may go ahead and D1 is there; then just
      the document asked for is added, with its first version, and the answer tells
      it. Otherwise it is told the first thing that stops it and nothing is stored. */
  lemma PublishVerdict(env: Env, s: Store, req: PublishReq, names: Names, now: string, up: bool)
    requires PI.DbOk(s.db) && Supplied(s, PublishCall(req, names, now, up))
    ensures
      var r := Publish(env, s, req, names, now, up);
      if !MayPublish(env, s, req) then r == Reply(s, Failed(WhyNotPublish(env, s, req)))
      else if !up then r.out == Failed(Thrown)
      else r.out.Written? && Published(env, s, r.store, req, names, now, r.out.ok)
  {
    hide PI.DbOk, UsedBytes, ResolveSlug, DecidePublish, MayPublish, WhyNotPublish, Published, Accepts, Committed, WithBlobs, RowAsAsked, NewDoc, Supplied;
    PublishDecision(env, s, req, names, now);
    if MayPublish(env, s, req) {
      PublishPlanned(env, s, req, names, now);
      var slug := ResolveSlug(env, s.db, req.opts.slug, None, None, req.allowReserved);
      var d := DecidePublish(env, req, UsedBytes(s.db), slug, names, now);
      PublishLands(env, s, req, names, now, up, d.plan, d.ok);
    }
  }

  // ---- editing ---------------------------------------------------------------

  /** The source a live document's current row stands for. */
  lemma CurrentSource(env: Env, s: Store, doc: string) returns (ver: nat)
    requires PI.DbOk(s.db) && BlobsOk(env, s) && IsLive(s.db, doc)
    ensures AtRow(s.db, doc, ver) && s.db.vers[VerId(doc, ver)].sha.Some?
    ensures
      var row := s.db.vers[VerId(doc, ver)];
      ReadSource(s.db, s.r2, doc, None) == Source(row.sha.value.of, ver, row)
  {
    ver := LiveIsAtRow(s.db, doc);
    hide PI.DbOk, BlobsOk;
    SerialTheorems.RowsHaveBlobs(env, s, VerId(doc, ver));
  }

  /** What an edit does, told of the current source: nothing when the list of edits
      is refused on it, in which case the answer says which edit is at fault and
      why; otherwise what an update of the edited text does that is guarded by the
      version the text was read from and keeps its format. */
  lemma EditVerdict(env: Env, s: Store, e: Protocol.EditReq, nonce: string, now: string, up: bool) returns (ver: nat, v: Edits.EditResult)
    requires PI.DbOk(s.db) && BlobsOk(env, s)
    ensures
      var r := Edit(env, s, e, nonce, now, up);
      if e.edits == [] then r == Reply(s, Failed(EditFailed(Edits.NoEdits)))
      else if !IsLive(s.db, e.doc) then r == Reply(s, Failed(NotFound))
      else
        && AtRow(s.db, e.doc, ver) && s.db.vers[VerId(e.doc, ver)].sha.Some?
        && var row := s.db.vers[VerId(e.doc, ver)];
        if e.expected.Some? && e.expected.value != ver then r == Reply(s, Failed(VersionConflict(ver, e.expected.value)))
        else
          && Edits.Means(row.sha.value.of, e.edits, e.replaceAll, 0, 0, v)
          && if !v.Edited? then r == Reply(s, Failed(EditFailed(v)))
             else
               var u := Update(env, s, WriteReq(e.doc, v.text, Some(ver), e.author, row.format, e.opts, false), nonce, now, up);
               && r.store == u.store
               && r.out == if u.out.Written? then Written(u.out.ok, v.replacements) else u.out
  {
    hide PI.DbOk, BlobsOk, Update, Edits.Apply, Edits.Means, ReadSource;
    ver, v := 0, Edits.NoEdits;
    if e.edits != [] {
      if IsLive(s.db, e.doc) {
        ver := CurrentSource(env, s, e.doc);
        var text := s.db.vers[VerId(e.doc, ver)].sha.value.of;
        v := Edits.Apply(text, e.edits, e.replaceAll);
        Edits.ApplyMeans(text, e.edits, e.replaceAll, v);
      } else {
        NotLiveNoSource(s, e.doc, None);
      }
    }
  }

  lemma NotLiveNoSource(s: Store, doc: string, ver: Option<nat>)
    requires !IsLive(s.db, doc)
    ensures ReadSource(s.db, s.r2, doc, ver) == NoSource(NotFound)
  {
  }

  /** An edit meant for one place that finds two or more leaves the store alone and
      is told how many there are. */
  lemma AmbiguousEditIsRefused(env: Env, s: Store, e: Protocol.EditReq, ver: nat, n: nat, nonce: string, now: string, up: bool)
    requires PI.DbOk(s.db) && BlobsOk(env, s) && AtRow(s.db, e.doc, ver) && s.db.vers[VerId(e.doc, ver)].sha.Some?
    requires |e.edits| == 1 && !e.replaceAll && e.expected.GetOr(ver) == ver
    requires e.edits[0].oldString != "" && e.edits[0].oldString != e.edits[0].newString
    requires n >= 2 && Edits.LargestDisjoint(s.db.vers[VerId(e.doc, ver)].sha.value.of, e.edits[0].oldString, n)
    ensures Edit(env, s, e, nonce, now, up) == Reply(s, Failed(EditFailed(Edits.NotUnique(0, e.edits[0].oldString, n))))
  {
    hide PI.DbOk, BlobsOk, Edit, Update, Edits.LargestDisjoint, Edits.Apply;
    var at, v := EditVerdict(env, s, e, nonce, now, up);
    assert at == ver;
    var text, why := s.db.vers[VerId(e.doc, ver)].sha.value.of, Edits.NotUnique(0, e.edits[0].oldString, n);
    assert Edits.Means(text, e.edits, false, 0, 0, why) by {
      assert Edits.Refused(text, e.edits[0], false, 0, why);
    }
    hide Edits.Means;
    Edits.ApplyMeans(text, e.edits, false, why);
    Edits.ApplyMeans(text, e.edits, false, v);
  }

  /** An edit that asks for nothing else leaves title, description, name and tags
      as they were. */
  lemma PlainEditKeepsTexts(env: Env, s: Store, e: Protocol.EditReq, nonce: string, now: string, up: bool)
    requires PI.DbOk(s.db) && BlobsOk(env, s) && SlugHistory.SlugsOk(s.db)
    requires e.opts == Opts(None, None, None, None) && Edit(env, s, e, nonce, now, up).out.Written?
    ensures
      var s' := Edit(env, s, e, nonce, now, up).store;
      && IsLive(s.db, e.doc) && e.doc in s'.db.docs
      && var d, d' := s.db.docs[e.doc], s'.db.docs[e.doc];
      && d.current.Some? && d'.current.Some? && VerId(e.doc, d.current.value) in s.db.vers && VerId(e.doc, d'.current.value) in s'.db.vers
      && var row, row' := s.db.vers[VerId(e.doc, d.current.value)], s'.db.vers[VerId(e.doc, d'.current.value)];
      && row'.title == row.title && row'.description == row.description && row'.format == row.format
      && d' == d.(current := d'.current)
  {
    hide PI.DbOk, BlobsOk, SlugHistory.SlugsOk, Edit, Update, Edits.Means, UsedBytes, Utf8Size, FitsScreen, TombsOf, Unchanged;
    var ver, v := EditVerdict(env, s, e, nonce, now, up);
    var req := WriteReq(e.doc, v.text, Some(ver), e.author, s.db.vers[VerId(e.doc, ver)].format, e.opts, false);
    UpdateVerdict(env, s, req, nonce, now, up);
    var u := Update(env, s, req, nonce, now, up);
    assert u.out.Written?;
    if u.out.ok.collapsed {
      assert u.store == s;
    } else {
      UpdateStores(env, s, req, nonce, now, up);
    }
  }

  // ---- restoring -------------------------------------------------------------

  /** The request a restore of a version comes to. */
  ghost function Again(doc: string, was: Version, author: Author): WriteReq
    requires was.sha.Some?
  {
    var title := if was.title.Some? then was.title.value else "";
    var description := if was.description.Some? then was.description.value else "";
    WriteReq(doc, was.sha.value.of, None, author, was.format,
             Opts(title := Some(title), description := Some(description), tags := None, slug := None), false)
  }

  /** A restore is refused when the document or the version is not there, and is
      otherwise an update to that version's source, format, title and description. */
  lemma RestoreVerdict(env: Env, s: Store, doc: string, from: nat, author: Author, nonce: string, now: string, up: bool)
    requires BlobsOk(env, s)
    ensures
      var r := Restore(env, s, doc, from, author, nonce, now, up);
      if !IsLive(s.db, doc) then r == Reply(s, Failed(NotFound))
      else if VerId(doc, from) !in s.db.vers then r == Reply(s, Failed(VersionNotFound))
      else
        s.db.vers[VerId(doc, from)].sha.Some? &&
        r == Update(env, s, Again(doc, s.db.vers[VerId(doc, from)], author), nonce, now, up)
  {
    hide BlobsOk, Update;
    if IsLive(s.db, doc) && VerId(doc, from) in s.db.vers {
      SerialTheorems.RowsHaveBlobs(env, s, VerId(doc, from));
    }
  }

  /** An accepted restore leaves as current row one with that version's source,
      format, title and description: clean texts as they were, a missing
      description missing, a missing title derived from the render. The document
      keeps everything but its pointer. */
  lemma RestoredAsItWas(env: Env, s: Store, doc: string, from: nat, author: Author, nonce: string, now: string, up: bool)
    requires PI.DbOk(s.db) && BlobsOk(env, s) && SlugHistory.SlugsOk(s.db) && Restore(env, s, doc, from, author, nonce, now, up).out.Written?
    ensures
      var r := Restore(env, s, doc, from, author, nonce, now, up);
      && IsLive(s.db, doc) && VerId(doc, from) in s.db.vers && doc in r.store.db.docs
      && var was, d, d' := s.db.vers[VerId(doc, from)], s.db.docs[doc], r.store.db.docs[doc];
      && was.sha.Some? && d'.current.Some? && VerId(doc, d'.current.value) in r.store.db.vers && d' == d.(current := d'.current)
      && var row := r.store.db.vers[VerId(doc, d'.current.value)];
      && row.sha == was.sha && row.format == was.format && (!r.out.ok.collapsed ==> WrittenBy(author, row))
      && DescribedAs(env, env.RenderOf(was.sha.value.of, was.format), was, row)
      && (was.title.Some? && was.title.value != "" && env.cleanTitle(was.title.value) == was.title.value ==> row.title == was.title)
      && (was.description.Some? && was.description.value != "" && env.cleanDescription(was.description.value) == was.description.value ==>
            row.description == was.description)
      && (was.description.None? ==> row.description.None?)
  {
    hide PI.DbOk, BlobsOk, SlugHistory.SlugsOk, Restore, Update, UsedBytes, Utf8Size, FitsScreen, TombsOf, Described, DescribedAs;
    RestoreVerdict(env, s, doc, from, author, nonce, now, up);
    var was := s.db.vers[VerId(doc, from)];
    var req := Again(doc, was, author);
    UpdateVerdict(env, s, req, nonce, now, up);
    var r := Update(env, s, req, nonce, now, up);
    if !r.out.ok.collapsed {
      UpdateStores(env, s, req, nonce, now, up);
    }
    var html := env.RenderOf(was.sha.value.of, was.format);
    var before, row := s.db.vers[VerId(doc, s.db.docs[doc].current.value)], r.store.db.vers[VerId(doc, r.store.db.docs[doc].current.value)];
    AskedToRestore(env, html, req.opts, Some(before), was, row);
    CleanTextsComeBack(env, html, was, row);
  }

  // ---- naming ----------------------------------------------------------------

  /** Naming a document without a new version: refused like any claim, nothing when
      the name is the one it has, and otherwise just the name, and the tombstone of
      the one it sheds. */
  lemma NamingVerdict(env: Env, s: Store, doc: string, input: string, now: string, up: bool)
    requires SlugHistory.SlugsOk(s.db)
    ensures
      var r := ChangeSlug(env, s, doc, input, now, up);
      if !IsLive(s.db, doc) then r == Reply(s, Failed(NotFound))
      else
        var d := s.db.docs[doc];
        var name := NameAfter(env, d.slug, Some(input));
        if !NameOpen(env, s.db, Some(doc), d.slug, Some(input), false) then
          r == Reply(s, Failed(NameRefusal(env, s.db, Some(doc), input, false)))
        else if name == d.slug then r == Reply(s, SlugSet(name, None, false))
        else if !up then r == Reply(s, Failed(Thrown))
        else
          && r.store == s.(db := Db(s.db.docs[doc := d.(slug := name)], s.db.vers, TombsOf(s.db.tombs, doc, d.publicId, d.slug, name, now)))
          && r.out == SlugSet(name, d.slug, name.Some? && d.slug.Some?)
  {
    hide ResolveSlug, NameOpen, NameAfter, NameRefusal, TombsAfter, TombsOf, SlugHeld;
    if IsLive(s.db, doc) {
      var d := s.db.docs[doc];
      NameVerdict(env, s.db, Some(input), d.slug, Some(doc), false);
      var slug := ResolveSlug(env, s.db, Some(input), d.slug, Some(doc), false);
      if slug.SlugOk? {
        ActionTombs(env, s.db, doc, d.publicId, d.slug, slug.action, now);
      }
    }
  }
}
