/** What serial runs build can be exported, and so makes the round trip. */
module SerialRoundTrip {
  import opened Records
  import opened D1
  import opened Writes
  import opened Serial
  import opened SerialEffects
  import opened SerialInvariant
  import Corpus
  import Export
  import Links
  import Metadata
  import PI = ProtocolInvariant
  import Restore
  import RestoreRender
  import RoundTrip
  import RoundTripPlan
  import RoundTripTheorem
  import SerialTheorems
  import SlugHistory

  /** Cleaning cleaned tags changes nothing. */
  ghost predicate CleansOnce(env: Env) {
    env.cleanTags([]) == [] && forall ts :: env.cleanTags(env.cleanTags(ts)) == env.cleanTags(ts)
  }

  /** Which is so of the tag cleaning the service has. */
  lemma TagCleaningSettles(env: Env)
    requires forall ts :: env.cleanTags(ts) == Metadata.KeepTags(ts, [])
    ensures CleansOnce(env)
  {
    hide Metadata.KeepTags;
    forall ts
      ensures env.cleanTags(env.cleanTags(ts)) == env.cleanTags(ts)
    {
      Metadata.TagsSettle(ts);
    }
    Metadata.NothingLeft([]);
  }

  /** Every row passed the screen; no public id is used twice. */
  ghost predicate Sourced(env: Env, db: Db) {
    && (forall v | v in db.vers :: PassedScreen(env, db.vers[v]))
    && (forall a, b | a in db.docs && b in db.docs && a != b :: db.docs[a].publicId != db.docs[b].publicId)
  }

  lemma WriteKeepsSourced(env: Env, s: Store, s': Store, p: Plan)
    requires Sourced(env, s.db) && Wrote(s, s', p) && PassedScreen(env, p.row)
    ensures Sourced(env, s'.db)
  {
    hide PassedScreen, SlugHeld, TombsAfter;
    forall a | a in s.db.docs && p.insert.Some?
      ensures s.db.docs[a].publicId != p.insert.value.publicId
    {
    }
  }

  lemma SameSourced(env: Env, db: Db, db': Db)
    requires Sourced(env, db) && db'.vers == db.vers && db'.docs.Keys == db.docs.Keys
    requires forall d | d in db.docs :: db'.docs[d].publicId == db.docs[d].publicId
    ensures Sourced(env, db')
  {
    hide PassedScreen;
  }

  lemma OthersKeepPublicIds(env: Env, s: Store, c: Call)
    requires !IsWrite(c)
    ensures
      var db' := Serve(env, s, c).store.db;
      && db'.docs.Keys == s.db.docs.Keys
      && forall d | d in s.db.docs :: db'.docs[d].publicId == s.db.docs[d].publicId
  {
    hide ResolveSlug, LivePublicId, TombsAfter;
    match c {
      case SlugCall(_, _, _, _) =>
      case VisibilityCall(_, _) =>
      case PromoteCall(_, _) =>
      case StatusCall(_, _, _) =>
      case TagsCall(_, _) =>
      case RedirectCall(_, _) =>
      case ClearRedirectCall(_) =>
      case ReleaseCall(_) =>
      case RevokeCall(_, _, _, _, _) =>
    }
  }

  lemma StepKeepsSourced(env: Env, s: Store, s': Store, c: Call)
    requires Sourced(env, s.db) && NoncesMinted(s) && Next(env, s, s', c)
    ensures Sourced(env, s'.db)
  {
    hide Sourced, NoncesMinted, PassedScreen, Wrote, UsedBytes, ResolveSlug, SlugHeld, Serve;
    if IsWrite(c) {
      var p, _ := WriteEffect(env, s, s', c);
      if p.Some? {
        WriteKeepsSourced(env, s, s', p.value);
      }
    } else {
      OthersOnlyPurge(env, s, c);
      OthersKeepPublicIds(env, s, c);
      SameSourced(env, s.db, s'.db);
    }
  }

  lemma {:induction false} RunIsSourced(env: Env, states: seq<Store>, calls: seq<Call>, i: nat)
    requires IsRun(env, states, calls) && states[0] == NEW_STORE && i < |states|
    ensures Sourced(env, states[i].db)
  {
    hide Next, Sourced, NoOrphans, NoncesMinted, BlobsOk, PI.DbOk, SlugHistory.SlugsOk, UsedBytes;
    if i == 0 {
      NothingSourced(env);
    } else {
      RunIsSourced(env, states, calls, i - 1);
      RunKeeps(env, states, calls, i - 1);
      StepKeepsSourced(env, states[i - 1], states[i], calls[i - 1]);
    }
  }

  lemma NothingSourced(env: Env)
    ensures Sourced(env, EMPTY)
  {
  }

  // ---- tags ------------------------------------------------------------------

  lemma WriteKeepsTags(env: Env, s: Store, s': Store, p: Plan)
    requires RoundTrip.SettledTags(env, s.db) && Wrote(s, s', p)
    requires p.insert.Some? ==> env.cleanTags(p.insert.value.tags) == p.insert.value.tags
    requires p.tags.Some? ==> env.cleanTags(p.tags.value) == p.tags.value
    ensures RoundTrip.SettledTags(env, s'.db)
  {
    hide SlugHeld, PublicIdHeld, TombsAfter;
  }

  lemma InsertedTags(env: Env, db: Db, req: PublishReq, names: Names, p: Plan)
    requires CleansOnce(env) && Inserts(env, db, req, names, p) && Shaped(p)
    ensures env.cleanTags(p.insert.value.tags) == p.insert.value.tags && p.tags.None?
  {
    hide SlugHeld, UsedBytes, OwnRow;
  }

  lemma AppendedTags(env: Env, db: Db, req: WriteReq, nonce: string, p: Plan)
    requires CleansOnce(env) && Appends(env, db, req, nonce, p)
    ensures p.insert.None? && (p.tags.Some? ==> env.cleanTags(p.tags.value) == p.tags.value)
  {
    hide ResolveSlug, UsedBytes, OwnRow;
  }

  lemma OthersKeepTags(env: Env, s: Store, c: Call)
    requires CleansOnce(env) && RoundTrip.SettledTags(env, s.db) && !IsWrite(c)
    ensures RoundTrip.SettledTags(env, Serve(env, s, c).store.db)
  {
    hide ResolveSlug, LivePublicId, TombsAfter;
  }

  lemma StepKeepsTags(env: Env, s: Store, s': Store, c: Call)
    requires CleansOnce(env) && RoundTrip.SettledTags(env, s.db) && NoncesMinted(s) && Next(env, s, s', c)
    ensures RoundTrip.SettledTags(env, s'.db)
  {
    hide NoncesMinted, Wrote, UsedBytes, ResolveSlug, SlugHeld, Serve, Inserts, Appends, RoundTrip.SettledTags, CleansOnce;
    if IsWrite(c) {
      var p, req := WriteEffect(env, s, s', c);
      if p.Some? {
        assert Shaped(p.value) by { WroteShaped(s, s', p.value); }
        if c.PublishCall? {
          InsertedTags(env, s.db, c.pub, c.names, p.value);
        } else {
          AppendedTags(env, s.db, req.value, NonceOf(c), p.value);
        }
        WriteKeepsTags(env, s, s', p.value);
      }
    } else {
      OthersKeepTags(env, s, c);
    }
  }

  lemma WroteShaped(s: Store, s': Store, p: Plan)
    requires Wrote(s, s', p)
    ensures Shaped(p)
  {
  }

  /** In every serial run the stored tags are clean. */
  lemma {:induction false} RunTagsSettle(env: Env, states: seq<Store>, calls: seq<Call>, i: nat)
    requires CleansOnce(env) && IsRun(env, states, calls) && states[0] == NEW_STORE && i < |states|
    ensures RoundTrip.SettledTags(env, states[i].db)
  {
    hide Next, NoOrphans, NoncesMinted, BlobsOk, PI.DbOk, SlugHistory.SlugsOk, UsedBytes, CleansOnce;
    if i > 0 {
      RunTagsSettle(env, states, calls, i - 1);
      RunKeeps(env, states, calls, i - 1);
      StepKeepsTags(env, states[i - 1], states[i], calls[i - 1]);
    }
  }

  // ---- the round trip --------------------------------------------------------

  /** What the foreign keys and the unique client binding enforce. */
  ghost predicate Keyed(inst: Restore.Instance) {
    && (forall k | k in inst.keys :: inst.keys[k].agentId in inst.agents)
    && (forall k | k in inst.clients :: inst.clients[k].agentId in inst.agents)
    && (forall a, b | a in inst.clients && b in inst.clients && a != b :: inst.clients[a].agentId != inst.clients[b].agentId)
    && (forall d | d in inst.db.docs && inst.db.docs[d].createdBy.Some? :: inst.db.docs[d].createdBy.value in inst.agents)
    && (forall v | v in inst.db.vers && inst.db.vers[v].authorAgent.Some? :: inst.db.vers[v].authorAgent.value in inst.agents)
    && (forall n | n in inst.db.tombs && inst.db.tombs[n].doc.Some? :: inst.db.tombs[n].doc.value in inst.db.docs)
  }

  lemma RowIsFaithful(env: Env, s: Store, inst: Restore.Instance, v: VerId)
    requires BlobsOk(env, s) && v in s.db.vers && IsLive(s.db, v.doc) && PassedScreen(env, s.db.vers[v]) && inst.r2 == s.r2
    ensures RoundTrip.Faithful(env, inst, s.db.vers[v])
  {
    hide BlobsOk, ScreenAndPrepare;
    SerialTheorems.RowsHaveBlobs(env, s, v);
  }

  lemma PointersAreRows(s: Store)
    requires PI.DbOk(s.db)
    ensures forall d | d in s.db.docs && s.db.docs[d].Live() ::
      && (s.db.docs[d].current.Some? ==> VerId(d, s.db.docs[d].current.value) in s.db.vers)
      && (s.db.docs[d].published.Some? ==> VerId(d, s.db.docs[d].published.value) in s.db.vers)
    ensures forall v | v in s.db.vers :: v.doc in s.db.docs
  {
    forall d | d in s.db.docs && s.db.docs[d].Live()
      ensures PI.PointersOk(s.db, d)
    {
    }
  }

  /** What a serial run has built is exportable as soon as its stored titles and
      descriptions normalise to themselves; its tags do. */
  lemma SerialStateIsExportable(env: Env, s: Store, inst: Restore.Instance)
    requires Good(env, s) && Sourced(env, s.db) && inst.db == s.db && inst.r2 == s.r2
    requires Keyed(inst) && RoundTrip.SettledTexts(env, s.db) && RoundTrip.SettledTags(env, s.db)
    ensures RoundTrip.Exportable(env, inst)
  {
    hide PI.DbOk, BlobsOk, NoOrphans, NoncesMinted, SlugHistory.SlugsOk, UsedBytes, RoundTrip.SettledTexts, RoundTrip.SettledTags, RoundTrip.Faithful, PassedScreen;
    PointersAreRows(s);
    forall v | v in inst.db.vers && IsLive(inst.db, v.doc)
      ensures RoundTrip.Faithful(env, inst, inst.db.vers[v])
    {
      RowIsFaithful(env, s, inst, v);
    }
  }

  /** The round trip of any serial run: export it with any limit, restore the
      pages into an empty instance, and it is rebuilt. The cap that let the run
      store its bytes lets the restore store them. */
  lemma SerialRunsMakeTheRoundTrip(s: Restore.Setup, states: seq<Store>, calls: seq<Call>, i: nat, inst: Restore.Instance,
                                   t: Corpus.Tables, limit: nat, pages: seq<Export.Page>)
    requires IsRun(s.env, states, calls) && states[0] == NEW_STORE && i < |states|
    requires inst.db == states[i].db && inst.r2 == states[i].r2 && Keyed(inst)
    requires CleansOnce(s.env) && RoundTrip.SettledTexts(s.env, inst.db)
    requires RoundTrip.Lists(t, inst) && Export.IsWalk(t, None, limit, pages)
    requires RestoreRender.Minting(s) && forall d :: s.up(d)
    ensures forall j | 0 <= j < |pages| :: RoundTrip.AllDescribe(inst, pages[j].units)
    ensures RoundTrip.Rebuilt(s.env, inst, RoundTripTheorem.RestoreAll(s, inst, pages, Restore.BLANK))
  {
    hide IsRun, Good, Sourced, Keyed, RoundTrip.SettledTexts, RoundTrip.SettledTags, CleansOnce, RoundTrip.Lists, Export.IsWalk, RestoreRender.Minting,
      RoundTrip.Exportable, RoundTrip.AllDescribe, RoundTrip.Rebuilt;
    RunKeeps(s.env, states, calls, i);
    RunIsSourced(s.env, states, calls, i);
    RunTagsSettle(s.env, states, calls, i);
    SerialStateIsExportable(s.env, states[i], inst);
    RoundTripTheorem.BackupRoundTrip(s, inst, t, limit, pages);
  }

  /** A stored title comes back from a backup as it was exactly when the length
      cap had not cut it right behind a blank and what was stored is composed. */
  lemma StoredTitleComesBack(env: Env, nfc: string -> string, raw: string)
    requires Metadata.Composes(nfc)
    requires forall t :: env.cleanTitle(t) == Metadata.ValidateTextInput(nfc, t, Metadata.TITLE_MAX_INPUT_CHARS)
    ensures
      var stored := NonEmpty(env.cleanTitle(raw));
      Restore.Normal(env.cleanTitle, stored) == stored <==>
        && !Metadata.CutBehindBlank(Metadata.Whole(nfc, raw), Metadata.TITLE_MAX_INPUT_CHARS)
        && Metadata.Composed(nfc, env.cleanTitle(raw))
  {
    hide Metadata.ValidateTextInput, Metadata.Whole, Metadata.Composes, Metadata.CutBehindBlank, Metadata.Composed;
    var once := env.cleanTitle(raw);
    Metadata.SettlesUnless(nfc, raw, Metadata.TITLE_MAX_INPUT_CHARS);
    Metadata.EmptySettles(nfc, Metadata.TITLE_MAX_INPUT_CHARS);
  }

  /** In every state of a serial run a live name and a public id lead to one
      document, which is what the link graph's duality rests on. */
  lemma NamesLeadToOneDocument(env: Env, states: seq<Store>, calls: seq<Call>, i: nat)
    requires IsRun(env, states, calls) && states[0] == NEW_STORE && i < |states|
    ensures Links.OneEach(states[i].db)
  {
    hide IsRun, NoOrphans, NoncesMinted, BlobsOk, PI.DbOk, UsedBytes, PassedScreen;
    RunKeeps(env, states, calls, i);
    RunIsSourced(env, states, calls, i);
  }
}
