/** What a call can change, case by case. */
module SerialEffects {
  import opened Records
  import opened D1
  import opened Writes
  import opened Serial
  import Edits
  import Protocol

  /** Every object in R2 carries a nonce that was minted. */
  ghost predicate NoncesMinted(s: Store) {
    forall k | k in s.r2 :: k.nonce in s.nonces
  }

  /** Both blobs are stored and the batch went through. */
  ghost predicate Wrote(s: Store, s': Store, p: Plan) {
    && Shaped(p) && Accepts(s.db, p)
    && s' == Store(Committed(s.db, p), WithBlobs(s.r2, p), s.nonces + {p.row.hKey.nonce})
  }

  /** The same tables and objects; a nonce may have been spent. */
  ghost predicate LeftAlone(s: Store, s': Store) {
    s'.db == s.db && s'.r2 == s.r2 && s.nonces <= s'.nonces
  }

  /** The plan of a row appended to a live document. */
  ghost predicate Appends(env: Env, db: Db, req: WriteReq, nonce: string, p: Plan) {
    && p.insert.None? && p.docId == req.doc
    && IsLive(db, req.doc) && db.docs[req.doc].current.Some?
    && p.ver == db.docs[req.doc].current.value + 1
    && p.publicId == db.docs[req.doc].publicId
    && ResolveSlug(env, db, req.opts.slug, db.docs[req.doc].slug, Some(req.doc), req.allowReserved) == SlugOk(p.slug)
    && (req.author.Agent? && db.docs[req.doc].visibility.Public? ==> p.slug.Keep?)
    && p.tags == (if req.opts.tags.Some? then Some(env.cleanTags(req.opts.tags.value)) else None)
    && OwnRow(env, p, nonce)
    && p.row.sha == Some(Digest(req.body)) && p.row.format == req.format
    && UsedBytes(db) + RowBytes(p.row) <= env.storageCap
  }

  ghost predicate OwnRow(env: Env, p: Plan, nonce: string) {
    && p.row.hKey == Key(p.docId, p.ver, nonce, false) && p.row.sKey == Some(Key(p.docId, p.ver, nonce, true))
    && p.row.sha.Some? && p.html == env.RenderOf(p.row.sha.value.of, p.row.format)
    && PassedScreen(env, p.row)
  }

  /** The row's source passes the screen, and its sizes are those of what passed. */
  ghost predicate PassedScreen(env: Env, row: Version) {
    && row.sha.Some?
    && var source, html := row.sha.value.of, env.RenderOf(row.sha.value.of, row.format);
    && ScreenAndPrepare(env, source, row.format) == Prepared(Prep(html, source, row.format))
    && row.size == Utf8Size(html) && row.sourceSize == Some(Utf8Size(source))
  }

  /** The plan of a new document. */
  ghost predicate Inserts(env: Env, db: Db, req: PublishReq, names: Names, p: Plan) {
    && p.insert.Some? && p.docId == names.docId && p.ver == 1
    && p.insert.value.Live()
    && p.insert.value.tags == (if req.opts.tags.Some? then env.cleanTags(req.opts.tags.value) else [])
    && p.insert.value.visibility == (if req.visibility.Some? then req.visibility.value else env.defaultVisibility)
    && p.insert.value.published == (if p.insert.value.visibility.Public? then Some(1) else None)
    && (p.insert.value.slug.Some? ==>
          !SlugHeld(db.docs, p.insert.value.slug.value, None) && p.insert.value.slug.value !in db.tombs)
    && OwnRow(env, p, names.nonce)
    && UsedBytes(db) + RowBytes(p.row) <= env.storageCap
  }

  /** A rolled-back write leaves no trace, its keys being nobody else's. */
  lemma RolledBack(s: Store, p: Plan)
    requires NoncesMinted(s) && p.row.hKey.nonce !in s.nonces
    requires p.row.sKey.Some? ==> p.row.sKey.value.nonce == p.row.hKey.nonce
    ensures WithBlobs(s.r2, p) - p.row.Keys() == s.r2
  {
  }

  lemma LandEffect(s: Store, p: Plan, ok: WriteOk, up: bool)
    requires NoncesMinted(s) && p.row.hKey.nonce !in s.nonces && Shaped(p)
    requires p.row.sKey.Some? ==> p.row.sKey.value.nonce == p.row.hKey.nonce
    ensures
      var r := Land(s, p, ok, up);
      if r.out.Failed? then LeftAlone(s, r.store) else r.out == Written(ok, 0) && Wrote(s, r.store, p)
  {
    hide Accepts, Committed, Shaped, NoncesMinted, WithBlobs;
    RolledBack(s, p);
  }

  lemma UpdatePlan(env: Env, db: Db, view: View, req: WriteReq, nonce: string, now: string)
    requires LoadView(db, req.doc) == Some(view)
    requires DecideUpdate(env, view, req, UsedBytes(db), SlugFor(env, db, view, req), nonce, now).Write?
    ensures
      var p := DecideUpdate(env, view, req, UsedBytes(db), SlugFor(env, db, view, req), nonce, now).plan;
      Shaped(p) && Appends(env, db, req, nonce, p)
  {
    hide ResolveSlug, ResolveMetadata, UsedBytes, SameContent;
    var s := ScreenAndPrepare(env, req.body, req.format);
    assert s.Prepared? ==> s.prep == Prep(env.RenderOf(req.body, req.format), req.body, req.format);
    hide ScreenAndPrepare;
  }

  /** An update refused or failed leaves everything alone, one collapsed changes
      nothing at all, and any other appends one row. */
  lemma UpdateEffect(env: Env, s: Store, req: WriteReq, nonce: string, now: string, up: bool) returns (p: Option<Plan>)
    requires NoncesMinted(s) && nonce !in s.nonces
    ensures
      var r := Update(env, s, req, nonce, now, up);
      && (r.out.Failed? || r.out.Written?)
      && (r.out.Failed? ==> LeftAlone(s, r.store))
      && (r.out.Written? && r.out.ok.collapsed ==> r.store == s)
      && (r.out.Written? && !r.out.ok.collapsed ==>
            p.Some? && Wrote(s, r.store, p.value) && Appends(env, s.db, req, nonce, p.value))
  {
    hide PassedScreen, LoadView, UsedBytes, SlugFor, DecideScreened, Land, NoncesMinted, Appends, Wrote, Shaped, ScreenAndPrepare;
    var view := LoadView(s.db, req.doc);
    p := None;
    if |req.body| > 0 && view.Some? {
      var d := DecideUpdate(env, view.value, req, UsedBytes(s.db), SlugFor(env, s.db, view.value, req), nonce, now);
      Flagged(env, view.value, req, UsedBytes(s.db), SlugFor(env, s.db, view.value, req), nonce, now);
      if d.Write? {
        UpdatePlan(env, s.db, view.value, req, nonce, now);
        PlanNonce(env, s.db, req, nonce, d.plan);
        LandEffect(s, d.plan, d.ok, up);
        p := Some(d.plan);
      }
    }
  }

  lemma PlanNonce(env: Env, db: Db, req: WriteReq, nonce: string, p: Plan)
    requires Appends(env, db, req, nonce, p)
    ensures p.row.hKey.nonce == nonce && p.row.sKey.Some? && p.row.sKey.value.nonce == nonce
  {
    hide ResolveSlug, UsedBytes;
  }

  lemma Flagged(env: Env, view: View, req: WriteReq, used: nat, slug: SlugResult, nonce: string, now: string)
    ensures
      var d := DecideUpdate(env, view, req, used, slug, nonce, now);
      (d.Collapse? ==> d.ok.collapsed) && (d.Write? ==> !d.ok.collapsed)
  {
    hide ScreenAndPrepare, ResolveMetadata, SameContent;
  }

  lemma PublishPlan(env: Env, db: Db, req: PublishReq, names: Names, now: string)
    requires DecidePublish(env, req, UsedBytes(db), ResolveSlug(env, db, req.opts.slug, None, None, req.allowReserved), names, now).Write?
    ensures
      var d := DecidePublish(env, req, UsedBytes(db), ResolveSlug(env, db, req.opts.slug, None, None, req.allowReserved), names, now);
      Shaped(d.plan) && Inserts(env, db, req, names, d.plan) && !d.ok.collapsed
  {
    hide ResolveMetadata, UsedBytes, SlugHeld;
    var s := ScreenAndPrepare(env, req.body, req.format);
    assert s.Prepared? ==> s.prep == Prep(env.RenderOf(req.body, req.format), req.body, req.format);
    hide ScreenAndPrepare;
  }

  lemma PublishEffect(env: Env, s: Store, req: PublishReq, names: Names, now: string, up: bool) returns (p: Option<Plan>)
    requires NoncesMinted(s) && names.nonce !in s.nonces
    ensures
      var r := Publish(env, s, req, names, now, up);
      && (r.out.Failed? || (r.out.Written? && !r.out.ok.collapsed))
      && (r.out.Failed? ==> LeftAlone(s, r.store))
      && (r.out.Written? ==> p.Some? && Wrote(s, r.store, p.value) && Inserts(env, s.db, req, names, p.value))
  {
    hide UsedBytes, ResolveSlug, Land, NoncesMinted, Inserts, Wrote, Shaped, DecidePublish, ScreenAndPrepare;
    var slug := ResolveSlug(env, s.db, req.opts.slug, None, None, req.allowReserved);
    var d := DecidePublish(env, req, UsedBytes(s.db), slug, names, now);
    p := None;
    NeverCollapses(env, req, UsedBytes(s.db), slug, names, now);
    if d.Write? {
      PublishPlan(env, s.db, req, names, now);
      InsertNonce(env, s.db, req, names, d.plan);
      LandEffect(s, d.plan, d.ok, up);
      p := Some(d.plan);
    }
  }

  lemma InsertNonce(env: Env, db: Db, req: PublishReq, names: Names, p: Plan)
    requires Inserts(env, db, req, names, p)
    ensures p.row.hKey.nonce == names.nonce && p.row.sKey.Some? && p.row.sKey.value.nonce == names.nonce
  {
    hide SlugHeld, UsedBytes;
  }

  lemma NeverCollapses(env: Env, req: PublishReq, used: nat, slug: SlugResult, names: Names, now: string)
    ensures !DecidePublish(env, req, used, slug, names, now).Collapse?
  {
    hide ScreenAndPrepare, ResolveMetadata;
  }

  /** An edit and a restore write what an update writes, or nothing. */
  lemma EditEffect(env: Env, s: Store, e: Protocol.EditReq, nonce: string, now: string, up: bool) returns (req: Option<WriteReq>)
    ensures
      var r := Edit(env, s, e, nonce, now, up);
      if req.None? then r.out.Failed? && r.store == s
      else
        && r.store == Update(env, s, req.value, nonce, now, up).store
        && r.out.Failed? == Update(env, s, req.value, nonce, now, up).out.Failed?
        && req.value.doc == e.doc && req.value.author == e.author && req.value.opts == e.opts
        && !req.value.allowReserved && req.value.expected.Some?
  {
    hide Update, Edits.Apply, ReadSource;
    var src := ReadSource(s.db, s.r2, e.doc, None);
    req := None;
    if e.edits != [] && src.Source? && (e.expected.None? || e.expected.value == src.ver) {
      var r := Edits.Apply(src.text, e.edits, e.replaceAll);
      if r.Edited? {
        req := Some(EditWrite(e, src, r.text));
      }
    }
  }

  lemma RestoreEffect(env: Env, s: Store, doc: string, from: nat, author: Author, nonce: string, now: string, up: bool)
    returns (req: Option<WriteReq>)
    ensures
      var r := Restore(env, s, doc, from, author, nonce, now, up);
      if req.None? then r.out.Failed? && r.store == s
      else
        && r == Update(env, s, req.value, nonce, now, up)
        && req.value.doc == doc && req.value.author == author && req.value.opts.slug.None? && req.value.opts.tags.None?
  {
    hide Update, ReadSource;
    var src := ReadSource(s.db, s.r2, doc, Some(from));
    req := if src.Source? then Some(RestoreWrite(doc, author, src)) else None;
  }

  // ---- the four writing calls ------------------------------------------------

  predicate IsWrite(c: Call) { c.PublishCall? || c.UpdateCall? || c.EditCall? || c.RestoreCall? }

  function NonceOf(c: Call): string
    requires IsWrite(c)
  {
    if c.PublishCall? then c.names.nonce else c.nonce
  }

  /** The update an appending call comes down to. */
  ghost predicate Asks(c: Call, req: WriteReq) {
    match c
    case UpdateCall(r, _, _, _) => req == r
    case EditCall(e, _, _, _) => req.doc == e.doc && req.author == e.author && req.opts == e.opts
    case RestoreCall(doc, _, author, _, _, _) =>
      req.doc == doc && req.author == author && req.opts.slug.None? && req.opts.tags.None?
    case _ => false
  }

  /** A writing call either leaves everything alone or commits one plan, of a new
      document or of a row appended to a live one. */
  lemma WriteEffect(env: Env, s: Store, s': Store, c: Call) returns (p: Option<Plan>, req: Option<WriteReq>)
    requires NoncesMinted(s) && Next(env, s, s', c) && IsWrite(c)
    ensures p.None? ==> LeftAlone(s, s')
    ensures p.Some? ==>
      && Wrote(s, s', p.value)
      && if c.PublishCall? then Inserts(env, s.db, c.pub, c.names, p.value)
         else req.Some? && Asks(c, req.value) && Appends(env, s.db, req.value, NonceOf(c), p.value)
    ensures Serve(env, s, c).out.Failed? ==> p.None?
  {
    hide NoncesMinted, Publish, Update, Edit, Restore, Wrote, Inserts, Appends;
    p, req := None, None;
    match c {
      case PublishCall(pub, names, now, up) =>
        var q := PublishEffect(env, s, pub, names, now, up);
        if Publish(env, s, pub, names, now, up).out.Written? { p := q; }
      case UpdateCall(r, nonce, now, up) =>
        var q := UpdateEffect(env, s, r, nonce, now, up);
        var out := Update(env, s, r, nonce, now, up).out;
        if out.Written? && !out.ok.collapsed { p, req := q, Some(r); }
      case EditCall(e, nonce, now, up) =>
        var r := EditEffect(env, s, e, nonce, now, up);
        if r.Some? {
          var q := UpdateEffect(env, s, r.value, nonce, now, up);
          var out := Update(env, s, r.value, nonce, now, up).out;
          if out.Written? && !out.ok.collapsed { p, req := q, r; }
        }
      case RestoreCall(doc, from, author, nonce, now, up) =>
        var r := RestoreEffect(env, s, doc, from, author, nonce, now, up);
        if r.Some? {
          var q := UpdateEffect(env, s, r.value, nonce, now, up);
          var out := Update(env, s, r.value, nonce, now, up).out;
          if out.Written? && !out.ok.collapsed { p, req := q, r; }
        }
    }
  }
}
