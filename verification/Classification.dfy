/** What a caller gets from the calls that touch one document's columns or one
    tombstone: visibility, promotion, status, tags and redirects
    (src/document-lifecycle.ts, src/document-slug.ts). */
module Classification {
  import opened Records
  import opened D1
  import opened Writes
  import opened Serial
  import opened SerialEffects
  import opened SerialInvariant
  import Metadata
  import PI = ProtocolInvariant
  import SerialRoundTrip
  import SerialTheorems
  import SlugHistory

  // ---- publication -----------------------------------------------------------

  /** Only one document changed, and of it only its visibility and its published
      pointer. */
  ghost predicate OnlyPublication(s: Store, s': Store, doc: string) {
    && doc in s.db.docs && doc in s'.db.docs
    && s' == s.(db := s.db.(docs := s.db.docs[doc := s.db.docs[doc].(
                 visibility := s'.db.docs[doc].visibility, published := s'.db.docs[doc].published)]))
  }

  lemma PublicationSound(s: Store, s': Store, doc: string)
    requires PI.DbOk(s.db) && IsLive(s.db, doc) && OnlyPublication(s, s', doc)
    requires
      var d := s'.db.docs[doc];
      (d.published.Some? ==> VerId(doc, d.published.value) in s.db.vers) && (d.visibility.Public? ==> d.published.Some?)
    ensures PI.DbOk(s'.db)
  {
    assert PI.PointersOk(s.db, doc);
    forall d | d in s'.db.docs
      ensures PI.PointersOk(s'.db, d)
    {
      assert PI.PointersOk(s.db, d);
    }
  }

  /** Going public leaves a published version that has its row, the chosen one if
      there was a choice and the current one if not; going private takes no choice
      away and makes none. Nothing else moves. */
  lemma VisibilityKeepsTheChoice(s: Store, doc: string, v: Visibility)
    requires PI.DbOk(s.db)
    ensures
      var r := SetVisibility(s, doc, v);
      && (r.out.Done? <==> IsLive(s.db, doc)) && (!r.out.Done? ==> r.store == s) && PI.DbOk(r.store.db)
      && (r.out.Done? ==>
            && OnlyPublication(s, r.store, doc)
            && var was, now := s.db.docs[doc], r.store.db.docs[doc];
            && now.visibility == v && (was.published.Some? ==> now.published == was.published)
            && (was.published.None? ==> now.published == if v.Public? then was.current else None)
            && (v.Public? ==> now.published.Some? && VerId(doc, now.published.value) in r.store.db.vers))
  {
    hide PI.DbOk;
    if IsLive(s.db, doc) {
      LivePointers(s.db, doc);
      PublicationSound(s, SetVisibility(s, doc, v).store, doc);
    }
  }

  lemma LivePointers(db: Db, doc: string)
    requires PI.DbOk(db) && IsLive(db, doc)
    ensures PI.PointersOk(db, doc)
  {
  }

  /** Closing the door and opening it again serves what was served before. */
  lemma ReopeningServesTheSame(s: Store, doc: string)
    ensures
      var open := SetVisibility(s, doc, Public).store;
      SetVisibility(SetVisibility(open, doc, Private).store, doc, Public).store == open
  {
    if IsLive(s.db, doc) {
      var open := SetVisibility(s, doc, Public).store;
      var again := SetVisibility(SetVisibility(open, doc, Private).store, doc, Public).store;
      assert again.db.docs == open.db.docs;
    }
  }

  /** Promotion succeeds exactly for a version of a live document, and then that
      version is the published one, whatever happens to visibility afterwards. */
  lemma PromotionNamesARow(s: Store, doc: string, ver: int, v: Visibility)
    requires PI.DbOk(s.db)
    ensures
      var r := Promote(s, doc, ver);
      && (r.out.Done? <==> IsLive(s.db, doc) && ver >= 1 && VerId(doc, ver) in s.db.vers)
      && (!r.out.Done? ==> r.store == s) && PI.DbOk(r.store.db)
      && (r.out.Done? ==>
            && OnlyPublication(s, r.store, doc)
            && r.store.db.docs[doc].published == Some(ver) && r.store.db.docs[doc].visibility == s.db.docs[doc].visibility
            && SetVisibility(r.store, doc, v).store.db.docs[doc].published == Some(ver)
            && SerialTheorems.Served(SetVisibility(r.store, doc, Public).store.db.docs[doc]) == Some(ver))
  {
    hide PI.DbOk;
    var r := Promote(s, doc, ver);
    if r.out.Done? {
      LivePointers(s.db, doc);
      PublicationSound(s, r.store, doc);
    }
  }

  // ---- status ----------------------------------------------------------------

  /** A successor is only ever another live document of a deprecated one, an active
      document has none, and neither bytes nor names nor pointers are touched. */
  lemma SuccessorIsAnotherLiveDocument(s: Store, doc: string, status: Status, successor: Option<string>)
    requires SetStatus(s, doc, status, successor).out.Done?
    ensures
      var s' := SetStatus(s, doc, status, successor).store;
      && IsLive(s.db, doc) && IsLive(s'.db, doc)
      && s'.db.docs[doc].status == status && !status.Archived?
      && s' == s.(db := UpdateDoc(s.db, doc, s.db.docs[doc].(status := status, supersededBy := s'.db.docs[doc].supersededBy)))
      && (s'.db.docs[doc].supersededBy.Some? ==>
            status.Deprecated? && exists d :: d != doc && IsLive(s'.db, d) && Some(s'.db.docs[d].publicId) == s'.db.docs[doc].supersededBy)
  {
    var s' := SetStatus(s, doc, status, successor).store;
    var target := s'.db.docs[doc].supersededBy;
    if target.Some? {
      var d :| d in s.db.docs && s.db.docs[d].Live() && s.db.docs[d].publicId == target.value;
      assert d != doc && IsLive(s'.db, d) && Some(s'.db.docs[d].publicId) == target;
    }
  }

  /** Some other live document has this public id. */
  ghost predicate OtherLive(db: Db, doc: string, publicId: string) {
    && (exists d :: IsLive(db, d) && db.docs[d].publicId == publicId)
    && (doc in db.docs ==> db.docs[doc].publicId != publicId)
  }

  /** When a status is set: never `archived`, and a deprecated document's successor,
      if a text is given for one, must be another live document; then just these two
      columns are what was asked for. What is refused changes nothing. */
  lemma StatusVerdict(s: Store, doc: string, status: Status, successor: Option<string>)
    ensures
      var r := SetStatus(s, doc, status, successor);
      var named := status.Deprecated? && successor.Some? && successor.value != "";
      if status.Archived? then r == Reply(s, InvalidStatus)
      else if named && !OtherLive(s.db, doc, successor.value) then r == Reply(s, BadTarget(successor.value))
      else if !IsLive(s.db, doc) then r == Reply(s, Failed(NotFound))
      else
        && r.out.Done?
        && r.store == s.(db := s.db.(docs := s.db.docs[doc :=
             s.db.docs[doc].(status := status, supersededBy := if named then successor else None)]))
  {
    if successor.Some? {
      assert LivePublicId(s.db, successor.value) <==> exists d :: IsLive(s.db, d) && s.db.docs[d].publicId == successor.value by {
        if LivePublicId(s.db, successor.value) {
          var d :| d in s.db.docs && s.db.docs[d].Live() && s.db.docs[d].publicId == successor.value;
          assert IsLive(s.db, d);
        }
      }
    }
  }

  // ---- tags ------------------------------------------------------------------

  /** On a live document tags are replaced, whatever they were, by the first ten
      distinct ones of those given that cleaning leaves something of; nothing else
      changes, and replacing them with themselves is a no-op. */
  lemma StoredTagsAreClean(env: Env, s: Store, doc: string, tags: seq<string>) returns (ps: seq<nat>)
    requires forall ts :: env.cleanTags(ts) == Metadata.KeepTags(ts, [])
    ensures
      var r := ChangeTags(env, s, doc, tags);
      if !IsLive(s.db, doc) then r == Reply(s, Failed(NotFound))
      else
        && r.out.Done? && doc in r.store.db.docs
        && var after := r.store.db.docs[doc].tags;
        && r.store == s.(db := s.db.(docs := s.db.docs[doc := s.db.docs[doc].(tags := after)]))
        && Metadata.PickedTags(tags, ps, after) && Metadata.CleanTags(after)
        && ChangeTags(env, r.store, doc, after).store == r.store
  {
    hide Metadata.KeepTags, Metadata.CleanTags, Metadata.PickedTags;
    Metadata.TagsSettle(tags);
    ps := Metadata.TagsArePicked(tags);
    if IsLive(s.db, doc) {
      var s' := ChangeTags(env, s, doc, tags).store;
      assert ChangeTags(env, s', doc, s'.db.docs[doc].tags).store.db.docs == s'.db.docs;
    }
  }

  // ---- retired names ---------------------------------------------------------

  /** A redirect can be set exactly on a retired name and to a live document;
      clearing it gives the name back the tombstone it had without one, and no
      other name is touched. */
  lemma ClearingUndoesARedirect(s: Store, name: string, target: string)
    ensures
      var r := SetRedirect(s, name, target);
      && (r.out.Done? <==> name in s.db.tombs && LivePublicId(s.db, target))
      && (!r.out.Done? ==> r.store == s)
      && (r.out.Done? ==>
            && r.store.db.tombs[name].redirect == Some(target)
            && r.store.db.tombs.Keys == s.db.tombs.Keys
            && (forall n | n in s.db.tombs && n != name :: r.store.db.tombs[n] == s.db.tombs[n])
            && ClearRedirect(r.store, name) == ClearRedirect(s, name)
            && (s.db.tombs[name].redirect.None? ==> ClearRedirect(r.store, name).store == s))
  {
    hide LivePublicId;
    if name in s.db.tombs {
      var set_, clear := SetRedirect(s, name, target).store, ClearRedirect(s, name).store;
      assert ClearRedirect(set_, name).store.db.tombs == clear.db.tombs || set_ == s;
      if s.db.tombs[name].redirect.None? {
        assert clear.db.tombs == s.db.tombs;
      }
    }
  }

  /** Releasing takes away one tombstone and nothing else; a claim of that very
      name, refused as retired before, is granted after, and any other claim is
      answered as before. */
  lemma ReleaseGivesTheNameBack(env: Env, s: Store, name: string, input: string, prior: Option<string>, self: Option<string>, reserved: bool)
    requires SlugHistory.SlugsOk(s.db) && name in s.db.tombs && prior != Some(name)
    requires !env.isBlank(input) && env.cleanSlug(input).Some? && (reserved || !env.isReserved(env.cleanSlug(input).value))
    ensures
      var s' := ReleaseTombstone(s, name).store;
      && s' == s.(db := s.db.(tombs := s.db.tombs - {name})) && SlugHistory.SlugsOk(s'.db)
      && var before, after := ResolveSlug(env, s.db, Some(input), prior, self, reserved), ResolveSlug(env, s'.db, Some(input), prior, self, reserved);
      if env.cleanSlug(input) == Some(name) then before == SlugErr(SlugRetired(name)) && after == SlugOk(Claim(name, prior))
      else after == before
  {
  }

  /** The call sets, clears or releases this very name. */
  predicate Touches(c: Call, name: string) {
    (c.RedirectCall? || c.ClearRedirectCall? || c.ReleaseCall?) && c.name == name
  }

  /** Every other call leaves an existing tombstone exactly as it is. */
  lemma TombStays(env: Env, s: Store, s': Store, c: Call, name: string)
    requires NoncesMinted(s) && Next(env, s, s', c) && name in s.db.tombs && !Touches(c, name)
    ensures name in s'.db.tombs && s'.db.tombs[name] == s.db.tombs[name]
  {
    hide NoncesMinted, Wrote, UsedBytes, ResolveSlug, SlugHeld, Serve, Inserts, Appends;
    if IsWrite(c) {
      var p, _ := WriteEffect(env, s, s', c);
      if p.Some? {
        WriteKeepsTombs(s, s', p.value, name);
      }
    } else {
      OthersKeepTombs(env, s, c, name);
    }
  }

  lemma WriteKeepsTombs(s: Store, s': Store, p: Plan, name: string)
    requires Wrote(s, s', p) && name in s.db.tombs
    ensures name in s'.db.tombs && s'.db.tombs[name] == s.db.tombs[name]
  {
    hide SlugHeld, PublicIdHeld;
  }

  lemma OthersKeepTombs(env: Env, s: Store, c: Call, name: string)
    requires !IsWrite(c) && name in s.db.tombs && !Touches(c, name)
    ensures
      var s' := Serve(env, s, c).store;
      name in s'.db.tombs && s'.db.tombs[name] == s.db.tombs[name]
  {
    hide ResolveSlug, LivePublicId;
  }

  lemma {:induction false} TombStaysOn(env: Env, states: seq<Store>, calls: seq<Call>, i: nat, k: nat, name: string)
    requires IsRun(env, states, calls) && states[0] == NEW_STORE && i <= k < |states| && name in states[i].db.tombs
    requires forall m | i <= m < k :: !Touches(calls[m], name)
    ensures name in states[k].db.tombs && states[k].db.tombs[name] == states[i].db.tombs[name]
    decreases k
  {
    hide Next, NoOrphans, NoncesMinted, BlobsOk, PI.DbOk, SlugHistory.SlugsOk, UsedBytes;
    if i < k {
      TombStaysOn(env, states, calls, i, k - 1, name);
      RunKeeps(env, states, calls, k - 1);
      TombStays(env, states[k - 1], states[k], calls[k - 1], name);
    }
  }

  lemma PublicIdStays(env: Env, s: Store, s': Store, c: Call, doc: string)
    requires NoncesMinted(s) && Next(env, s, s', c) && doc in s.db.docs
    ensures doc in s'.db.docs && s'.db.docs[doc].publicId == s.db.docs[doc].publicId
  {
    hide NoncesMinted, Wrote, UsedBytes, ResolveSlug, SlugHeld, Serve, Inserts, Appends;
    if IsWrite(c) {
      var p, _ := WriteEffect(env, s, s', c);
      if p.Some? {
        WriteKeepsPublicId(s, s', p.value, doc);
      }
    } else {
      SerialRoundTrip.OthersKeepPublicIds(env, s, c);
    }
  }

  lemma WriteKeepsPublicId(s: Store, s': Store, p: Plan, doc: string)
    requires Wrote(s, s', p) && doc in s.db.docs
    ensures doc in s'.db.docs && s'.db.docs[doc].publicId == s.db.docs[doc].publicId
  {
    hide SlugHeld, PublicIdHeld, TombsAfter;
  }

  lemma {:induction false} PublicIdStaysOn(env: Env, states: seq<Store>, calls: seq<Call>, i: nat, k: nat, doc: string)
    requires IsRun(env, states, calls) && states[0] == NEW_STORE && i <= k < |states| && doc in states[i].db.docs
    ensures doc in states[k].db.docs && states[k].db.docs[doc].publicId == states[i].db.docs[doc].publicId
    decreases k
  {
    hide Next, NoOrphans, NoncesMinted, BlobsOk, PI.DbOk, SlugHistory.SlugsOk, UsedBytes;
    if i < k {
      PublicIdStaysOn(env, states, calls, i, k - 1, doc);
      RunKeeps(env, states, calls, k - 1);
      PublicIdStays(env, states[k - 1], states[k], calls[k - 1], doc);
    }
  }

  /** The live document a retired name forwards to. */
  ghost predicate Forwards(db: Db, name: string, doc: string) {
    && name in db.tombs && IsLive(db, doc) && db.tombs[name].redirect == Some(db.docs[doc].publicId)
    && forall d | d in db.docs && db.docs[d].publicId == db.docs[doc].publicId :: d == doc
  }

  /** Old names lead home: a name a document was renamed from forwards to that
      document, and to no other, however often it is renamed again, for as long as
      it lives and no operator redirects, clears or releases that very name. */
  lemma OldNamesLeadHome(env: Env, states: seq<Store>, calls: seq<Call>, i: nat, k: nat, doc: string, name: string)
    requires IsRun(env, states, calls) && states[0] == NEW_STORE && i < k < |states|
    requires SerialTheorems.Holds(states[i].db, doc, name) && !SerialTheorems.Holds(states[i + 1].db, doc, name)
    requires IsLive(states[i + 1].db, doc) && states[i + 1].db.docs[doc].slug.Some?
    requires forall m | i < m < k :: !Touches(calls[m], name)
    requires IsLive(states[k].db, doc)
    ensures Forwards(states[k].db, name, doc)
  {
    assert |states| == |calls| + 1;
    hide IsRun, NoOrphans, NoncesMinted, BlobsOk, PI.DbOk, UsedBytes, SlugHistory.SlugsOk, PassedScreen;
    SerialTheorems.NamesStepAt(env, states, calls, i);
    TombStaysOn(env, states, calls, i + 1, k, name);
    PublicIdStaysOn(env, states, calls, i + 1, k, doc);
    SerialRoundTrip.RunIsSourced(env, states, calls, k);
  }
}
