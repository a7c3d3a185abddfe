/** An update answers what it stored, and asking twice stores nothing new. */
module Idempotence {
  import opened Records
  import opened D1
  import opened Writes
  import opened Serial
  import opened SerialEffects
  import opened SerialInvariant
  import Edits
  import Protocol
  import PI = ProtocolInvariant
  import SerialTheorems
  import SlugHistory

  // ---- asking again ----------------------------------------------------------

  /** Metadata resolved once resolves to itself. */
  lemma MetadataSettles(env: Env, html: string, opts: Opts, prior: Meta)
    ensures
      var once := ResolveMetadata(env, html, opts, Some(prior));
      ResolveMetadata(env, html, opts, Some(once)) == once
  {
  }

  /** Once a slug request is granted, the same request is a no-op. */
  lemma SlugSettles(env: Env, db: Db, db': Db, input: Option<string>, prior: Option<string>, doc: string, allowReserved: bool)
    requires ResolveSlug(env, db, input, prior, Some(doc), allowReserved).SlugOk?
    ensures
      var action := ResolveSlug(env, db, input, prior, Some(doc), allowReserved).action;
      && (action.Keep? ==> action.slug == prior)
      && ResolveSlug(env, db', input, action.After(), Some(doc), allowReserved) == SlugOk(Keep(action.After()))
  {
    hide SlugHeld;
  }

  /** What the next update reads after a write. */
  function ViewAfter(view: View, p: Plan): View {
    View(view.id, view.publicId, p.ver, view.visibility, p.slug.After(),
         if p.tags.Some? then p.tags.value else view.tags, Some(p.row))
  }

  lemma ScreenedAgain(env: Env, view: View, req: WriteReq, prep: Prep, action: SlugAction, n1: string, t1: string, n2: string, t2: string)
    requires DecideScreened(env, view, req, prep, action, n1, t1).Write?
    ensures
      var d := DecideScreened(env, view, req, prep, action, n1, t1);
      && d.plan.slug == action
      && DecideScreened(env, ViewAfter(view, d.plan), req, prep, Keep(action.After()), n2, t2) == Collapse(d.ok.(collapsed := true))
  {
    var meta := ResolveMetadata(env, prep.html, req.opts, Some(Meta(view.Title(), view.Description())));
    MetadataSettles(env, prep.html, req.opts, Meta(view.Title(), view.Description()));
    hide ResolveMetadata;
    var p := DecideScreened(env, view, req, prep, action, n1, t1).plan;
    assert ViewAfter(view, p).Title() == meta.title && ViewAfter(view, p).Description() == meta.description;
  }

  lemma CollapseAgain(env: Env, view: View, req: WriteReq, prep: Prep, action: SlugAction, n1: string, t1: string, n2: string, t2: string)
    requires DecideScreened(env, view, req, prep, action, n1, t1).Collapse?
    ensures DecideScreened(env, view, req, prep, action, n2, t2) == DecideScreened(env, view, req, prep, action, n1, t1)
    ensures DecideScreened(env, view, req, prep, action, n1, t1).ok.collapsed
  {
    hide ResolveMetadata;
  }

  lemma LoadAfter(db: Db, view: View, p: Plan)
    requires LoadView(db, p.docId) == Some(view) && p.insert.None? && Accepts(db, p)
    requires p.slug.Keep? ==> p.slug.slug == view.slug
    ensures LoadView(Committed(db, p), p.docId) == Some(ViewAfter(view, p))
  {
    hide SlugHeld, TombsAfter;
  }

  /** What the second of two equal updates is told: the first one's answer, marked
      unchanged, unless it named a version the first has moved past, or the total
      no longer leaves room for the bytes it will not store. */
  ghost function SecondAnswer(env: Env, db: Db, req: WriteReq, first: WriteOk): Outcome {
    var bytes := Utf8Size(env.RenderOf(req.body, req.format)) + Utf8Size(req.body);
    if req.expected.Some? && !first.collapsed then Failed(VersionConflict(first.version, req.expected.value))
    else if UsedBytes(db) + bytes > env.storageCap then Failed(StorageCapExceeded(UsedBytes(db), env.storageCap, bytes))
    else Written(first.(collapsed := true), 0)
  }

  /** Write idempotence: an update that was accepted can be repeated without
      changing a row, an object or a name. */
  lemma RepeatingChangesNothing(env: Env, s: Store, req: WriteReq, n1: string, t1: string, u1: bool, n2: string, t2: string, u2: bool)
    requires NoncesMinted(s) && n1 !in s.nonces
    requires Update(env, s, req, n1, t1, u1).out.Written?
    ensures
      var first := Update(env, s, req, n1, t1, u1);
      Update(env, first.store, req, n2, t2, u2) == Reply(first.store, SecondAnswer(env, first.store.db, req, first.out.ok))
  {
    hide ScreenAndPrepare, UsedBytes, ResolveSlug, LoadView, DecideScreened, Land, ViewAfter, Accepts, Committed, WithBlobs;
    var view := LoadView(s.db, req.doc).value;
    ViewIsOf(s.db, req.doc);
    var slug := SlugFor(env, s.db, view, req);
    var screened := ScreenAndPrepare(env, req.body, req.format);
    PreparedBody(env, req.body, req.format);
    var d := DecideScreened(env, view, req, screened.prep, slug.action, n1, t1);
    var r := Update(env, s, req, n1, t1, u1);
    if d.Collapse? {
      CollapseAgain(env, view, req, screened.prep, slug.action, n1, t1, n2, t2);
    } else {
      SlugSettles(env, s.db, r.store.db, req.opts.slug, view.slug, view.id, req.allowReserved);
      ScreenedAgain(env, view, req, screened.prep, slug.action, n1, t1, n2, t2);
      PlanOf(env, view, req, screened.prep, slug.action, n1, t1);
      LandWrites(s, d.plan, d.ok, u1);
      LoadAfter(s.db, view, d.plan);
      assert LoadView(r.store.db, req.doc) == Some(ViewAfter(view, d.plan));
      ViewAfterParts(view, d.plan);
    }
  }

  /** When a repeated update is refused although it would store nothing: it was
      written while the total had room for its bytes once but not twice. */
  lemma RepeatRefusedForRoom(env: Env, s: Store, req: WriteReq, n1: string, t1: string, u1: bool, n2: string, t2: string, u2: bool)
    requires NoncesMinted(s) && PI.RowsOk(s.db) && n1 !in s.nonces && req.expected.None?
    requires Update(env, s, req, n1, t1, u1).out.Written? && !Update(env, s, req, n1, t1, u1).out.ok.collapsed
    ensures
      var first := Update(env, s, req, n1, t1, u1).store;
      var bytes := Utf8Size(env.RenderOf(req.body, req.format)) + Utf8Size(req.body);
      var second := Update(env, first, req, n2, t2, u2);
      && UsedBytes(first.db) == UsedBytes(s.db) + bytes <= env.storageCap
      && second.store == first
      && (second.out == Failed(StorageCapExceeded(UsedBytes(first.db), env.storageCap, bytes)) <==>
            UsedBytes(s.db) + 2 * bytes > env.storageCap)
  {
    hide Update, NoncesMinted, PI.RowsOk, UsedBytes, Appends, Wrote;
    RepeatingChangesNothing(env, s, req, n1, t1, u1, n2, t2, u2);
    var p := UpdateEffect(env, s, req, n1, t1, u1);
    RowOfAppend(env, s, Update(env, s, req, n1, t1, u1).store, req, n1, p.value);
  }

  lemma RowOfAppend(env: Env, s: Store, s': Store, req: WriteReq, nonce: string, p: Plan)
    requires PI.RowsOk(s.db) && Wrote(s, s', p) && Appends(env, s.db, req, nonce, p)
    ensures
      var bytes := Utf8Size(env.RenderOf(req.body, req.format)) + Utf8Size(req.body);
      UsedBytes(s'.db) == UsedBytes(s.db) + bytes <= env.storageCap
  {
    hide PI.RowsOk, UsedBytes, ResolveSlug, Accepts, Committed, WithBlobs, ScreenAndPrepare;
    WriteAddsItsBytes(s.db, p);
  }

  lemma ViewIsOf(db: Db, doc: string)
    requires LoadView(db, doc).Some?
    ensures LoadView(db, doc).value.id == doc
  {
  }

  lemma PreparedBody(env: Env, body: string, format: Format)
    ensures
      var s := ScreenAndPrepare(env, body, format);
      s.Prepared? ==> s.prep == Prep(env.RenderOf(body, format), body, format)
  {
  }

  lemma PlanOf(env: Env, view: View, req: WriteReq, prep: Prep, action: SlugAction, nonce: string, now: string)
    requires DecideScreened(env, view, req, prep, action, nonce, now).Write?
    ensures
      var d := DecideScreened(env, view, req, prep, action, nonce, now);
      && d.plan.docId == view.id && d.plan.insert.None? && d.plan.slug == action && d.plan.ver == view.current + 1
      && !d.ok.collapsed && d.ok.version == view.current + 1
  {
    hide ResolveMetadata;
  }

  lemma LandWrites(s: Store, p: Plan, ok: WriteOk, up: bool)
    requires Land(s, p, ok, up).out.Written?
    ensures Accepts(s.db, p) && Land(s, p, ok, up).store.db == Committed(s.db, p) && Land(s, p, ok, up).out == Written(ok, 0)
  {
    hide Accepts, Committed;
  }

  lemma ViewAfterParts(view: View, p: Plan)
    ensures
      var v := ViewAfter(view, p);
      v.id == view.id && v.current == p.ver && v.slug == p.slug.After()
  {
  }

  // ---- what is stored --------------------------------------------------------

  /** The store holds, as the document's current version, just what was asked for
      and what the answer says. */
  ghost predicate Stored(env: Env, s: Store, doc: string, body: string, format: Format, ok: WriteOk) {
    && IsLive(s.db, doc)
    && var d := s.db.docs[doc];
    && d.current == Some(ok.version) && d.slug == ok.slug && d.tags == ok.tags
    && VerId(doc, ok.version) in s.db.vers
    && var row := s.db.vers[VerId(doc, ok.version)];
    && row.title == ok.title && row.description == ok.description && row.format == format
    && row.sha == Some(ok.sha) && ok.sha == Digest(body) && row.sanitizer == env.sanitizerVersion
    && row.sKey.Some? && row.sKey.value in s.r2 && s.r2[row.sKey.value] == body
    && row.hKey in s.r2 && s.r2[row.hKey] == env.RenderOf(body, format) && ok.size == Utf8Size(env.RenderOf(body, format))
  }

  /** A plan and its answer tell the same story. */
  ghost predicate Agree(env: Env, d: Decision, body: string, format: Format) {
    d.Write? ==>
      && d.plan.row.title == d.ok.title && d.plan.row.description == d.ok.description && d.plan.row.format == format
      && d.plan.row.sha == Some(d.ok.sha) && d.ok.sha == Digest(body) && d.plan.row.sanitizer == env.sanitizerVersion
      && d.plan.html == env.RenderOf(body, format) && d.ok.size == Utf8Size(d.plan.html) && d.ok.version == d.plan.ver
      && d.plan.row.sKey.Some? && d.plan.row.hKey != d.plan.row.sKey.value
  }

  lemma WriteIsStored(env: Env, s: Store, view: View, d: Decision, body: string, format: Format, up: bool)
    requires d.Write? && Agree(env, d, body, format) && Conclude(s, d, up).out.Written?
    requires LoadView(s.db, d.plan.docId) == Some(view) && d.plan.insert.None?
    requires d.ok.slug == d.plan.slug.After() && (d.plan.slug.Keep? ==> d.plan.slug.slug == view.slug)
    requires d.ok.tags == if d.plan.tags.Some? then d.plan.tags.value else view.tags
    ensures Stored(env, Conclude(s, d, up).store, d.plan.docId, body, format, d.ok)
  {
    hide SlugHeld, TombsAfter;
  }

  lemma CollapsedIsStored(env: Env, s: Store, view: View, req: WriteReq, prep: Prep, action: SlugAction, nonce: string, now: string)
    requires BlobsOk(env, s) && LoadView(s.db, req.doc) == Some(view)
    requires prep == Prep(env.RenderOf(req.body, req.format), req.body, req.format)
    requires action.Keep? ==> action.slug == view.slug
    requires DecideScreened(env, view, req, prep, action, nonce, now).Collapse?
    ensures Stored(env, s, req.doc, req.body, req.format, DecideScreened(env, view, req, prep, action, nonce, now).ok)
  {
    hide ResolveMetadata, BlobsOk;
    var vid := VerId(req.doc, view.current);
    assert view.prior.Some? && vid in s.db.vers;
    SerialTheorems.RowsHaveBlobs(env, s, vid);
  }

  lemma DecisionAgrees(env: Env, view: View, req: WriteReq, prep: Prep, action: SlugAction, nonce: string, now: string)
    requires prep == Prep(env.RenderOf(req.body, req.format), req.body, req.format)
    ensures
      var d := DecideScreened(env, view, req, prep, action, nonce, now);
      && Agree(env, d, req.body, req.format)
      && (d.Write? ==>
            && d.ok.slug == d.plan.slug.After()
            && d.ok.tags == if d.plan.tags.Some? then d.plan.tags.value else view.tags)
  {
    hide ResolveMetadata, SameContent;
  }

  /** Whether an update wrote or collapsed, afterwards the store holds exactly the
      submitted source, its render and the metadata the answer reports; when it
      collapsed, nothing was touched, so it held them already. */
  lemma AnswerIsStored(env: Env, s: Store, req: WriteReq, nonce: string, now: string, up: bool)
    requires BlobsOk(env, s) && Update(env, s, req, nonce, now, up).out.Written?
    ensures
      var r := Update(env, s, req, nonce, now, up);
      && Stored(env, r.store, req.doc, req.body, req.format, r.out.ok)
      && (r.out.ok.collapsed ==> r.store == s)
      && (!r.out.ok.collapsed ==> r.out.ok.version == s.db.docs[req.doc].current.GetOr(0) + 1)
  {
    hide ScreenAndPrepare, UsedBytes, ResolveSlug, DecideScreened, Land, BlobsOk, NoOrphans, NoncesMinted, PI.DbOk, Stored, Agree,
      LoadView, SlugHistory.SlugsOk;
    var view := LoadView(s.db, req.doc).value;
    ViewIsOf(s.db, req.doc);
    ViewCurrent(s.db, req.doc);
    var slug := SlugFor(env, s.db, view, req);
    var screened := ScreenAndPrepare(env, req.body, req.format);
    PreparedBody(env, req.body, req.format);
    SlugSettles(env, s.db, s.db, req.opts.slug, view.slug, view.id, req.allowReserved);
    DecisionAgrees(env, view, req, screened.prep, slug.action, nonce, now);
    var d := DecideScreened(env, view, req, screened.prep, slug.action, nonce, now);
    if d.Collapse? {
      CollapsedIsStored(env, s, view, req, screened.prep, slug.action, nonce, now);
      CollapseAgain(env, view, req, screened.prep, slug.action, nonce, now, nonce, now);
    } else {
      PlanOf(env, view, req, screened.prep, slug.action, nonce, now);
      LandWrites(s, d.plan, d.ok, up);
      WriteIsStored(env, s, view, d, req.body, req.format, up);
    }
  }

  lemma ViewCurrent(db: Db, doc: string)
    requires LoadView(db, doc).Some?
    ensures doc in db.docs && db.docs[doc].current == Some(LoadView(db, doc).value.current)
  {
  }

  // ---- edits and restores ----------------------------------------------------

  /** An accepted edit stores the edits applied to the source that was current. */
  lemma EditIsStored(env: Env, s: Store, e: Protocol.EditReq, nonce: string, now: string, up: bool)
    requires BlobsOk(env, s) && Edit(env, s, e, nonce, now, up).out.Written?
    ensures
      var r := Edit(env, s, e, nonce, now, up);
      var src := ReadSource(s.db, s.r2, e.doc, None);
      && src.Source? && e.expected.GetOr(src.ver) == src.ver
      && var applied := Edits.Apply(src.text, e.edits, e.replaceAll);
      && applied.Edited? && r.out.replacements == applied.replacements
      && Stored(env, r.store, e.doc, applied.text, src.row.format, r.out.ok)
  {
    hide Update, Stored, BlobsOk, ReadSource;
    var src := ReadSource(s.db, s.r2, e.doc, None);
    var text := Edits.Apply(src.text, e.edits, e.replaceAll).text;
    AnswerIsStored(env, s, EditWrite(e, src, text), nonce, now, up);
  }

  /** A restore brings back a version's own bytes, source and render, as the
      current version, and leaves the document's name and tags as they are. */
  lemma RestoreReproduces(env: Env, s: Store, doc: string, from: nat, author: Author, nonce: string, now: string, up: bool)
    requires BlobsOk(env, s) && NoncesMinted(s) && nonce !in s.nonces && Restore(env, s, doc, from, author, nonce, now, up).out.Written?
    ensures
      var s' := Restore(env, s, doc, from, author, nonce, now, up).store;
      && VerId(doc, from) in s.db.vers && IsLive(s.db, doc) && IsLive(s'.db, doc)
      && s'.db.docs[doc].current.Some? && VerId(doc, s'.db.docs[doc].current.value) in s'.db.vers
      && var was, now_ := s.db.vers[VerId(doc, from)], s'.db.vers[VerId(doc, s'.db.docs[doc].current.value)];
      && was.sKey.Some? && now_.sKey.Some? && was.hKey in s.r2 && now_.hKey in s'.r2
      && was.sKey.value in s.r2 && now_.sKey.value in s'.r2
      && s'.r2[now_.sKey.value] == s.r2[was.sKey.value] && s'.r2[now_.hKey] == s.r2[was.hKey] && now_.format == was.format
      && s'.db.docs[doc].slug == s.db.docs[doc].slug && s'.db.docs[doc].tags == s.db.docs[doc].tags
  {
    hide Update, Stored, BlobsOk, NoncesMinted;
    var src := ReadSource(s.db, s.r2, doc, Some(from));
    var req := RestoreWrite(doc, author, src);
    AnswerIsStored(env, s, req, nonce, now, up);
    StoredParts(env, Update(env, s, req, nonce, now, up).store, doc, req.body, req.format, Update(env, s, req, nonce, now, up).out.ok);
    RowsAreTheirs(env, s, VerId(doc, from));
    RestoreKeepsNames(env, s, req, nonce, now, up);
  }

  lemma StoredParts(env: Env, s: Store, doc: string, body: string, format: Format, ok: WriteOk)
    requires Stored(env, s, doc, body, format, ok)
    ensures IsLive(s.db, doc) && s.db.docs[doc].current == Some(ok.version) && VerId(doc, ok.version) in s.db.vers
    ensures
      var row := s.db.vers[VerId(doc, ok.version)];
      && row.sKey.Some? && row.sKey.value in s.r2 && row.hKey in s.r2 && row.format == format
      && s.r2[row.sKey.value] == body && s.r2[row.hKey] == env.RenderOf(body, format)
  {
  }

  lemma RowsAreTheirs(env: Env, s: Store, v: VerId)
    requires BlobsOk(env, s) && v in s.db.vers && IsLive(s.db, v.doc)
    ensures
      var row := s.db.vers[v];
      && row.sKey.Some? && row.hKey in s.r2 && row.sKey.value in s.r2
      && s.r2[row.hKey] == env.RenderOf(s.r2[row.sKey.value], row.format)
  {
    hide BlobsOk;
    SerialTheorems.RowsHaveBlobs(env, s, v);
  }

  lemma RestoreKeepsNames(env: Env, s: Store, req: WriteReq, nonce: string, now: string, up: bool)
    requires NoncesMinted(s) && nonce !in s.nonces && req.opts.slug.None? && req.opts.tags.None?
    requires Update(env, s, req, nonce, now, up).out.Written?
    ensures
      var s' := Update(env, s, req, nonce, now, up).store;
      && IsLive(s.db, req.doc) && req.doc in s'.db.docs
      && s'.db.docs[req.doc].slug == s.db.docs[req.doc].slug && s'.db.docs[req.doc].tags == s.db.docs[req.doc].tags
  {
    hide NoncesMinted, UsedBytes, SlugHeld, TombsAfter;
    var p := UpdateEffect(env, s, req, nonce, now, up);
    LiveToWrite(env, s, req, nonce, now, up);
    hide Update;
  }

  lemma LiveToWrite(env: Env, s: Store, req: WriteReq, nonce: string, now: string, up: bool)
    requires Update(env, s, req, nonce, now, up).out.Written?
    ensures IsLive(s.db, req.doc)
  {
    hide DecideUpdate, UsedBytes, SlugFor, Land;
  }
}
