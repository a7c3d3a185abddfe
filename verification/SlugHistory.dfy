/** Slug permanence: a name that leaves a document is spent. */
module SlugHistory {
  import opened Records
  import opened D1
  import opened Writes
  import opened Serial
  import opened SerialEffects
  import Protocol

  /** Live names are unique, none is retired, and revoked documents hold none. */
  ghost predicate SlugsOk(db: Db) {
    && (forall a, b | a in db.docs && b in db.docs && a != b && db.docs[a].slug.Some? :: db.docs[a].slug != db.docs[b].slug)
    && (forall d | d in db.docs && db.docs[d].slug.Some? :: db.docs[d].slug.value !in db.tombs && db.docs[d].Live())
  }

  /** `n` was not retired and now is, by a tombstone that says whose it was and
      how it was shed; only a rename forwards, to the document itself. */
  ghost predicate Retired(db: Db, db': Db, d: string, n: string)
    requires d in db'.docs
  {
    && n !in db.tombs && n in db'.tombs
    && var t := db'.tombs[n];
    && t.doc == Some(d)
    && t.reason == (if !db'.docs[d].Live() then Revoked else if db'.docs[d].slug.Some? then Renamed else Released)
    && t.redirect == (if t.reason.Renamed? then Some(db'.docs[d].publicId) else None)
  }

  /** What happens to names in one step: a document keeps its name or retires it,
      and no tombstone goes but the one `released`. */
  ghost predicate NamesStep(db: Db, db': Db, released: Option<string>) {
    && (forall d | d in db.docs :: d in db'.docs
          && (db.docs[d].slug.Some? && db'.docs[d].slug != db.docs[d].slug ==> Retired(db, db', d, db.docs[d].slug.value)))
    && (forall n | n in db.tombs && released != Some(n) ::
          n in db'.tombs && db'.tombs[n].(redirect := None) == db.tombs[n].(redirect := None))
  }

  // ---- one step --------------------------------------------------------------

  /** A slug action that resolveSlug allowed. */
  ghost predicate Allowed(db: Db, doc: string, action: SlugAction)
    requires doc in db.docs
  {
    match action
    case Keep(_) => true
    case Claim(name, retire) =>
      && !SlugHeld(db.docs, name, Some(doc)) && name !in db.tombs
      && retire == db.docs[doc].slug && retire != Some(name)
    case Clear(retired) => db.docs[doc].slug == Some(retired)
  }

  lemma ResolvedIsAllowed(env: Env, db: Db, input: Option<string>, doc: string, allowReserved: bool)
    requires doc in db.docs
    ensures
      var r := ResolveSlug(env, db, input, db.docs[doc].slug, Some(doc), allowReserved);
      r.SlugOk? ==> Allowed(db, doc, r.action)
  {
  }

  lemma ActionStep(db: Db, db': Db, doc: string, row: Doc, action: SlugAction, now: string)
    requires SlugsOk(db) && IsLive(db, doc) && Allowed(db, doc, action)
    requires db'.docs == db.docs[doc := row] && row.Live() && row.publicId == db.docs[doc].publicId
    requires row.slug == if action.Keep? then db.docs[doc].slug else action.After()
    requires db'.tombs == TombsAfter(db.tombs, doc, row.publicId, action, now)
    ensures SlugsOk(db') && NamesStep(db, db', None)
  {
  }

  lemma InsertStep(db: Db, db': Db, doc: string, row: Doc)
    requires SlugsOk(db) && doc !in db.docs && row.Live()
    requires db'.docs == db.docs[doc := row] && db'.tombs == db.tombs
    requires row.slug.Some? ==> !SlugHeld(db.docs, row.slug.value, None) && row.slug.value !in db.tombs
    ensures SlugsOk(db') && NamesStep(db, db', None)
  {
  }

  lemma KillStep(db: Db, doc: string, now: string)
    requires SlugsOk(db) && IsLive(db, doc)
    ensures SlugsOk(Killed(db, doc, now)) && NamesStep(db, Killed(db, doc, now), None)
  {
  }

  lemma SameNames(db: Db, db': Db, released: Option<string>)
    requires SlugsOk(db) && db'.docs.Keys == db.docs.Keys
    requires forall d | d in db.docs :: db'.docs[d].slug == db.docs[d].slug && db'.docs[d].Live() == db.docs[d].Live()
    requires db'.tombs.Keys <= db.tombs.Keys
    requires forall n | n in db.tombs && released != Some(n) ::
      n in db'.tombs && db'.tombs[n].(redirect := None) == db.tombs[n].(redirect := None)
    ensures SlugsOk(db') && NamesStep(db, db', released)
  {
  }

  lemma WriteStep(env: Env, s: Store, s': Store, c: Call)
    requires SlugsOk(s.db) && NoncesMinted(s) && Next(env, s, s', c) && IsWrite(c)
    ensures SlugsOk(s'.db) && NamesStep(s.db, s'.db, None)
  {
    hide Next, NoncesMinted, SlugsOk, NamesStep, OwnRow, UsedBytes, SlugHeld, TombsAfter, ResolveSlug, Allowed;
    var p, req := WriteEffect(env, s, s', c);
    if p.None? {
      SameNames(s.db, s'.db, None);
    } else if c.PublishCall? {
      InsertStep(s.db, s'.db, p.value.docId, s'.db.docs[p.value.docId]);
    } else {
      var doc := p.value.docId;
      ResolvedIsAllowed(env, s.db, req.value.opts.slug, doc, req.value.allowReserved);
      ActionStep(s.db, s'.db, doc, s'.db.docs[doc], p.value.slug, p.value.now);
    }
  }

  lemma SlugCallStep(env: Env, s: Store, c: Call)
    requires SlugsOk(s.db) && c.SlugCall?
    ensures
      var db' := Serve(env, s, c).store.db;
      SlugsOk(db') && NamesStep(s.db, db', None)
  {
    hide SlugsOk, NamesStep, SlugHeld, TombsAfter, ResolveSlug, Allowed;
    var s' := Serve(env, s, c).store;
    if s' == s {
      SameNames(s.db, s.db, None);
    } else {
      ResolvedIsAllowed(env, s.db, Some(c.input), c.doc, false);
      var action := ResolveSlug(env, s.db, Some(c.input), s.db.docs[c.doc].slug, Some(c.doc), false).action;
      ActionStep(s.db, s'.db, c.doc, s'.db.docs[c.doc], action, c.now);
    }
  }

  lemma RevokeStep(env: Env, s: Store, c: Call)
    requires SlugsOk(s.db) && c.RevokeCall?
    ensures
      var db' := Serve(env, s, c).store.db;
      SlugsOk(db') && NamesStep(s.db, db', None)
  {
    hide SlugsOk, NamesStep, Killed;
    if IsLive(s.db, c.doc) && c.up {
      KillStep(s.db, c.doc, c.now);
    } else {
      SameNames(s.db, s.db, None);
    }
  }

  lemma ClassifyStep(env: Env, s: Store, c: Call)
    requires SlugsOk(s.db) && (c.VisibilityCall? || c.PromoteCall? || c.StatusCall? || c.TagsCall?)
    ensures
      var db' := Serve(env, s, c).store.db;
      SlugsOk(db') && NamesStep(s.db, db', None)
  {
    hide SlugsOk, NamesStep, LivePublicId, SetVisibility, Promote, SetStatus, ChangeTags;
    var s' := Serve(env, s, c).store;
    ClassifyEffect(env, s, c);
    hide Serve;
    SameNames(s.db, s'.db, None);
  }

  /** Changing what a document is leaves its name and its life alone. */
  ghost predicate KeepsNames(db: Db, db': Db) {
    && db'.tombs == db.tombs && db'.docs.Keys == db.docs.Keys
    && forall d | d in db.docs :: db'.docs[d].slug == db.docs[d].slug && db'.docs[d].Live() == db.docs[d].Live()
  }

  lemma KeepsNamesOne(db: Db, doc: string, row: Doc)
    requires doc in db.docs && row.slug == db.docs[doc].slug && row.Live() == db.docs[doc].Live()
    ensures KeepsNames(db, UpdateDoc(db, doc, row)) && KeepsNames(db, db)
  {
  }

  lemma ClassifyEffect(env: Env, s: Store, c: Call)
    requires c.VisibilityCall? || c.PromoteCall? || c.StatusCall? || c.TagsCall?
    ensures KeepsNames(s.db, Serve(env, s, c).store.db)
  {
    hide LivePublicId, KeepsNames;
    if c.doc in s.db.docs {
      KeepsNamesOne(s.db, c.doc, s.db.docs[c.doc]);
      if s.db.docs[c.doc].Live() {
        KeepsNamesOne(s.db, c.doc, Serve(env, s, c).store.db.docs[c.doc]);
      }
    } else {
      assert Serve(env, s, c).store == s;
      KeepsNamesSelf(s.db);
    }
  }

  lemma KeepsNamesSelf(db: Db)
    ensures KeepsNames(db, db)
  {
  }

  lemma TombStep(env: Env, s: Store, c: Call)
    requires SlugsOk(s.db) && (c.RedirectCall? || c.ClearRedirectCall? || c.ReleaseCall?)
    ensures
      var db' := Serve(env, s, c).store.db;
      SlugsOk(db') && NamesStep(s.db, db', ReleasedBy(c))
  {
    hide SlugsOk, NamesStep, LivePublicId, SetRedirect, ClearRedirect, ReleaseTombstone;
    var s' := Serve(env, s, c).store;
    TombEffect(env, s, c);
    hide Serve;
    SameNames(s.db, s'.db, ReleasedBy(c));
  }

  lemma TombEffect(env: Env, s: Store, c: Call)
    requires c.RedirectCall? || c.ClearRedirectCall? || c.ReleaseCall?
    ensures
      var s' := Serve(env, s, c).store;
      && s'.db.docs == s.db.docs && s'.db.tombs.Keys <= s.db.tombs.Keys
      && forall n | n in s.db.tombs && ReleasedBy(c) != Some(n) ::
           n in s'.db.tombs && s'.db.tombs[n].(redirect := None) == s.db.tombs[n].(redirect := None)
  {
    hide LivePublicId;
    match c {
      case RedirectCall(_, _) =>
      case ClearRedirectCall(_) =>
      case ReleaseCall(_) =>
    }
  }

  /** The name a call gives back, if any. */
  function ReleasedBy(c: Call): Option<string> { if c.ReleaseCall? then Some(c.name) else None }

  /** Every call keeps live names unique and unretired, and every name a document
      sheds is retired then and there: INSERT OR IGNORE never finds it taken. */
  lemma EachStepRetires(env: Env, s: Store, s': Store, c: Call)
    requires SlugsOk(s.db) && NoncesMinted(s) && Next(env, s, s', c)
    ensures SlugsOk(s'.db) && NamesStep(s.db, s'.db, ReleasedBy(c))
  {
    hide SlugsOk, NamesStep, Serve, NoncesMinted, Supplied;
    if IsWrite(c) {
      WriteStep(env, s, s', c);
    } else if c.SlugCall? {
      SlugCallStep(env, s, c);
    } else if c.RevokeCall? {
      RevokeStep(env, s, c);
    } else if c.RedirectCall? || c.ClearRedirectCall? || c.ReleaseCall? {
      TombStep(env, s, c);
    } else {
      ClassifyStep(env, s, c);
    }
  }
}
