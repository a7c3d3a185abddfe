/** Properties of serial runs: names are never reused, agents cannot touch what
    the public reads, and the kill switch leaves nothing behind. */
module SerialTheorems {
  import opened Records
  import opened D1
  import opened Writes
  import opened Serial
  import opened SerialEffects
  import opened SerialInvariant
  import Edits
  import Protocol
  import PI = ProtocolInvariant
  import SlugHistory
  import Sums

  // ---- names -----------------------------------------------------------------

  ghost predicate Holds(db: Db, doc: string, name: string) { doc in db.docs && db.docs[doc].slug == Some(name) }

  /** No call of the run between two states gives `name` back. */
  ghost predicate NotReleased(calls: seq<Call>, i: nat, j: nat, name: string) {
    forall m | i <= m < j && m < |calls| :: SlugHistory.ReleasedBy(calls[m]) != Some(name)
  }

  lemma NamesStepAt(env: Env, states: seq<Store>, calls: seq<Call>, i: nat)
    requires IsRun(env, states, calls) && states[0] == NEW_STORE && i < |calls|
    ensures SlugHistory.NamesStep(states[i].db, states[i + 1].db, SlugHistory.ReleasedBy(calls[i]))
    ensures SlugHistory.SlugsOk(states[i].db) && SlugHistory.SlugsOk(states[i + 1].db)
  {
    hide Next, SlugHistory.NamesStep, SlugHistory.SlugsOk, NoOrphans, NoncesMinted, BlobsOk, PI.DbOk, UsedBytes;
    RunKeeps(env, states, calls, i);
    SlugHistory.EachStepRetires(env, states[i], states[i + 1], calls[i]);
  }

  lemma {:induction false} HeldOrRetired(env: Env, states: seq<Store>, calls: seq<Call>, i: nat, j: nat, doc: string, name: string)
    requires IsRun(env, states, calls) && states[0] == NEW_STORE && i <= j < |states|
    requires Holds(states[i].db, doc, name) && NotReleased(calls, i, j, name)
    ensures Holds(states[j].db, doc, name) || name in states[j].db.tombs
    decreases j
  {
    hide Next;
    if i < j {
      HeldOrRetired(env, states, calls, i, j - 1, doc, name);
      NamesStepAt(env, states, calls, j - 1);
    }
  }

  lemma {:induction false} RetiredStays(env: Env, states: seq<Store>, calls: seq<Call>, i: nat, j: nat, name: string)
    requires IsRun(env, states, calls) && states[0] == NEW_STORE && i <= j < |states|
    requires name in states[i].db.tombs && NotReleased(calls, i, j, name)
    ensures name in states[j].db.tombs
    decreases j
  {
    hide Next;
    if i < j {
      RetiredStays(env, states, calls, i, j - 1, name);
      NamesStepAt(env, states, calls, j - 1);
    }
  }

  /** Slug permanence: once a document stops holding a name, no document, itself
      included, holds it again, unless an operator releases that very name. */
  lemma SlugPermanence(env: Env, states: seq<Store>, calls: seq<Call>, i: nat, j: nat, k: nat, doc: string, name: string)
    requires IsRun(env, states, calls) && states[0] == NEW_STORE && i < j <= k < |states|
    requires Holds(states[i].db, doc, name) && !Holds(states[j].db, doc, name) && NotReleased(calls, i, k, name)
    ensures name in states[k].db.tombs && forall d :: !Holds(states[k].db, d, name)
  {
    hide IsRun, NoOrphans, NoncesMinted, BlobsOk, PI.DbOk, UsedBytes;
    HeldOrRetired(env, states, calls, i, j, doc, name);
    RetiredStays(env, states, calls, j, k, name);
    RunKeeps(env, states, calls, k);
  }

  // ---- the anonymous reader --------------------------------------------------

  datatype Principal = OperatorReader | AgentReader | Anonymous

  predicate CanRead(who: Principal, visibility: Visibility, revoked: bool) {
    !revoked && (who.OperatorReader? || who.AgentReader? || visibility.Public?)
  }

  /** Public documents are served at the version the operator promoted. */
  function Served(d: Doc): Option<nat> {
    if d.visibility.Public? && d.published.Some? then d.published else d.current
  }

  datatype Page = Page(bytes: string, title: Option<string>)

  /** What a reader gets at a document's address, if anything. */
  function Sees(s: Store, who: Principal, doc: string): Option<Page> {
    if doc !in s.db.docs then None
    else
      var d := s.db.docs[doc];
      var no := Served(d);
      if !CanRead(who, d.visibility, d.revokedAt.Some?) || no.None? || VerId(doc, no.value) !in s.db.vers then None
      else
        var row := s.db.vers[VerId(doc, no.value)];
        if row.hKey in s.r2 then Some(Page(s.r2[row.hKey], row.title)) else None
  }

  /** What that is: nothing of a document that is revoked, or private to someone
      without a key; of any other the render of its published version when it is
      public, of its current one when it is not. */
  lemma ReadersSee(env: Env, s: Store, who: Principal, doc: string)
    requires PI.DbOk(s.db) && BlobsOk(env, s)
    ensures
      if !IsLive(s.db, doc) || (who.Anonymous? && s.db.docs[doc].visibility.Private?) then Sees(s, who, doc).None?
      else
        var d := s.db.docs[doc];
        var no := if d.visibility.Public? then d.published else d.current;
        && no.Some? && VerId(doc, no.value) in s.db.vers
        && var row := s.db.vers[VerId(doc, no.value)];
        && row.sha.Some? && Sees(s, who, doc) == Some(Page(env.RenderOf(row.sha.value.of, row.format), row.title))
  {
    hide BlobsOk, PI.RowsOk;
    if IsLive(s.db, doc) {
      assert PI.PointersOk(s.db, doc);
      RowsHaveBlobs(env, s, VerId(doc, Served(s.db.docs[doc]).value));
    }
  }

  /** The name leads an anonymous reader to the document. */
  predicate Leads(s: Store, name: string, doc: string) {
    && doc in s.db.docs && s.db.docs[doc].slug == Some(name)
    && CanRead(Anonymous, s.db.docs[doc].visibility, s.db.docs[doc].revokedAt.Some?)
  }

  /** What the agent doors let through: publishing at the default visibility,
      updating, editing, retagging and marking deprecated. */
  predicate AgentCall(c: Call) {
    match c
    case PublishCall(pub, _, _, _) => pub.author.Agent? && pub.visibility.None?
    case UpdateCall(req, _, _, _) => req.author.Agent?
    case EditCall(e, _, _, _) => e.author.Agent?
    case StatusCall(_, _, _) => true
    case TagsCall(_, _) => true
    case _ => false
  }

  /** What a step by an agent leaves as it was. */
  ghost predicate PublicFaceKept(s: Store, s': Store) {
    && (forall d | d in s.db.docs ::
          && d in s'.db.docs
          && s'.db.docs[d].visibility == s.db.docs[d].visibility
          && s'.db.docs[d].revokedAt == s.db.docs[d].revokedAt
          && s'.db.docs[d].published == s.db.docs[d].published
          && (s.db.docs[d].visibility.Public? && s.db.docs[d].Live() ==> s'.db.docs[d].slug == s.db.docs[d].slug))
    && (forall v | v in s.db.vers :: v in s'.db.vers && s'.db.vers[v] == s.db.vers[v])
    && (forall k | k in s.r2 :: k in s'.r2 && s'.r2[k] == s.r2[k])
  }

  lemma WriteKeepsFace(s: Store, s': Store, p: Plan, nonce: string)
    requires NoncesMinted(s) && Wrote(s, s', p) && nonce !in s.nonces
    requires p.row.hKey == Key(p.docId, p.ver, nonce, false) && p.row.sKey == Some(Key(p.docId, p.ver, nonce, true))
    requires p.insert.None? ==> (s.db.docs[p.docId].visibility.Public? ==> p.slug.Keep?)
    ensures PublicFaceKept(s, s')
  {
    hide SlugHeld, PublicIdHeld, TombsAfter;
  }

  lemma AgentStep(env: Env, s: Store, s': Store, c: Call)
    requires NoncesMinted(s) && Next(env, s, s', c) && AgentCall(c)
    ensures PublicFaceKept(s, s')
  {
    hide NoncesMinted, PublicFaceKept, Wrote, ResolveSlug, UsedBytes, SlugHeld, Serve;
    if IsWrite(c) {
      var p, req := WriteEffect(env, s, s', c);
      if p.None? {
        FaceSame(s, s');
      } else {
        WriteKeepsFace(s, s', p.value, NonceOf(c));
      }
    } else {
      ClassifyKeepsFace(env, s, c);
      assert s' == Serve(env, s, c).store;
    }
  }

  lemma FaceSame(s: Store, s': Store)
    requires LeftAlone(s, s')
    ensures PublicFaceKept(s, s')
  {
  }

  lemma ClassifyKeepsFace(env: Env, s: Store, c: Call)
    requires c.StatusCall? || c.TagsCall?
    ensures PublicFaceKept(s, Serve(env, s, c).store)
  {
    hide LivePublicId, PublicFaceKept;
    var s' := Serve(env, s, c).store;
    if s' == s {
      FaceSame(s, s);
    } else {
      FaceOfOne(s, c.doc, s'.db.docs[c.doc]);
    }
  }

  lemma FaceOfOne(s: Store, doc: string, row: Doc)
    requires doc in s.db.docs
    requires row == s.db.docs[doc].(tags := row.tags, status := row.status, supersededBy := row.supersededBy)
    ensures PublicFaceKept(s, WithDoc(s, doc, row))
  {
  }

  /** In a good state, a kept face looks the same to everyone without a key. */
  lemma FaceIsSeen(env: Env, s: Store, s': Store, doc: string, name: string)
    requires Good(env, s) && PublicFaceKept(s, s') && doc in s.db.docs
    ensures Sees(s', Anonymous, doc) == Sees(s, Anonymous, doc)
    ensures Leads(s', name, doc) <==> Leads(s, name, doc)
  {
    hide NoOrphans, NoncesMinted, BlobsOk, SlugHistory.SlugsOk, UsedBytes, PI.RowsOk;
    assert PI.PointersOk(s.db, doc);
    var no := Served(s.db.docs[doc]);
    if s.db.docs[doc].Live() && no.Some? {
      RowsHaveBlobs(env, s, VerId(doc, no.value));
    }
  }

  /** Every row of a live document has both its objects, and they are its own. */
  lemma RowsHaveBlobs(env: Env, s: Store, v: VerId)
    requires BlobsOk(env, s) && v in s.db.vers && IsLive(s.db, v.doc)
    ensures
      var row := s.db.vers[v];
      && row.sKey.Some? && row.sha.Some? && row.hKey in s.r2 && row.sKey.value in s.r2
      && s.r2[row.sKey.value] == row.sha.value.of
      && s.r2[row.hKey] == env.RenderOf(row.sha.value.of, row.format)
  {
    assert PI.RowShaped(v, s.db.vers[v]);
  }

  /** Agent non-interference: over any stretch of agent-only calls, nothing an
      anonymous reader gets from a document that was there, at its address or by
      its name, changes. (New documents may appear: agents publish at the default
      visibility.) */
  lemma {:induction false} AgentsCannotTouchThePublicFace(
    env: Env, states: seq<Store>, calls: seq<Call>, i: nat, j: nat, doc: string, name: string)
    requires IsRun(env, states, calls) && states[0] == NEW_STORE && i <= j < |states|
    requires forall m | i <= m < j :: AgentCall(calls[m])
    requires doc in states[i].db.docs
    ensures doc in states[j].db.docs
    ensures Sees(states[j], Anonymous, doc) == Sees(states[i], Anonymous, doc)
    ensures Leads(states[j], name, doc) <==> Leads(states[i], name, doc)
    decreases j
  {
    hide Next, Sees, Leads, NoOrphans, NoncesMinted, BlobsOk, SlugHistory.SlugsOk, UsedBytes, PI.DbOk, AgentCall;
    if i < j {
      AgentsCannotTouchThePublicFace(env, states, calls, i, j - 1, doc, name);
      RunKeeps(env, states, calls, j - 1);
      assert AgentCall(calls[j - 1]);
      AgentStep(env, states[j - 1], states[j], calls[j - 1]);
      FaceIsSeen(env, states[j - 1], states[j], doc, name);
    }
  }

  /** What an operator has chosen stays chosen while agents write. */
  lemma {:induction false} AgentsKeepTheChoice(env: Env, states: seq<Store>, calls: seq<Call>, i: nat, j: nat, doc: string, v: VerId)
    requires IsRun(env, states, calls) && states[0] == NEW_STORE && i <= j < |states|
    requires forall m | i <= m < j :: AgentCall(calls[m])
    requires IsLive(states[i].db, doc) && v in states[i].db.vers
    ensures IsLive(states[j].db, doc) && states[j].db.docs[doc].published == states[i].db.docs[doc].published
    ensures v in states[j].db.vers && states[j].db.vers[v] == states[i].db.vers[v]
    decreases j
  {
    hide Next, NoOrphans, NoncesMinted, BlobsOk, SlugHistory.SlugsOk, UsedBytes, PI.DbOk, AgentCall;
    if i < j {
      AgentsKeepTheChoice(env, states, calls, i, j - 1, doc, v);
      RunKeeps(env, states, calls, j - 1);
      assert AgentCall(calls[j - 1]);
      AgentStep(env, states[j - 1], states[j], calls[j - 1]);
    }
  }

  /** A version an operator promotes is what the public gets when the door is later
      opened, whatever agents write in between. */
  lemma StagedChoiceIsServed(env: Env, states: seq<Store>, calls: seq<Call>, i: nat, j: nat, doc: string, ver: nat)
    requires IsRun(env, states, calls) && states[0] == NEW_STORE && i < j < |calls|
    requires calls[i] == PromoteCall(doc, ver) && Serve(env, states[i], calls[i]).out.Done?
    requires forall m | i < m < j :: AgentCall(calls[m])
    requires calls[j] == VisibilityCall(doc, Public)
    ensures
      var v := VerId(doc, ver);
      && v in states[i].db.vers && states[i].db.vers[v].sha.Some?
      && var row := states[i].db.vers[v];
      Sees(states[j + 1], Anonymous, doc) == Some(Page(env.RenderOf(row.sha.value.of, row.format), row.title))
  {
    hide NoOrphans, NoncesMinted, BlobsOk, SlugHistory.SlugsOk, UsedBytes, PI.DbOk, AgentCall;
    var v := VerId(doc, ver);
    PromotionTakes(env, states[i], states[i + 1], calls[i]);
    AgentsKeepTheChoice(env, states, calls, i + 1, j, doc, v);
    OpeningTakes(env, states[j], states[j + 1], calls[j]);
    RunKeeps(env, states, calls, j + 1);
    RowsHaveBlobs(env, states[j + 1], v);
  }

  lemma PromotionTakes(env: Env, s: Store, s': Store, c: Call)
    requires Next(env, s, s', c) && c.PromoteCall? && Serve(env, s, c).out.Done?
    ensures c.ver >= 1 && VerId(c.doc, c.ver) in s.db.vers && s'.db.vers == s.db.vers
    ensures IsLive(s'.db, c.doc) && s'.db.docs[c.doc].published == Some(c.ver)
  {
  }

  lemma OpeningTakes(env: Env, s: Store, s': Store, c: Call)
    requires Next(env, s, s', c) && c.VisibilityCall? && c.visibility.Public? && IsLive(s.db, c.doc)
    ensures IsLive(s'.db, c.doc) && s'.db.docs[c.doc].visibility.Public? && s'.db.vers == s.db.vers
    ensures s.db.docs[c.doc].published.Some? ==> s'.db.docs[c.doc].published == s.db.docs[c.doc].published
  {
  }

  // ---- failures --------------------------------------------------------------

  /** A call other than a revoke that is refused, or that fails on the way, leaves
      every row and every object as it was. */
  lemma FailuresChangeNothing(env: Env, s: Store, s': Store, c: Call)
    requires NoncesMinted(s) && Next(env, s, s', c) && !c.RevokeCall?
    requires
      var out := Serve(env, s, c).out;
      out.Failed? || out.InvalidStatus? || out.BadTarget? || out.TombstoneNotFound?
    ensures s'.db == s.db && s'.r2 == s.r2
  {
    hide NoncesMinted, Publish, Update, Edit, Restore, Wrote, ResolveSlug, LivePublicId, TombsAfter;
    if IsWrite(c) {
      var p, _ := WriteEffect(env, s, s', c);
      WritesAnswer(env, s, c);
    }
  }

  lemma WritesAnswer(env: Env, s: Store, c: Call)
    requires IsWrite(c) && NoncesMinted(s) && Supplied(s, c)
    ensures Serve(env, s, c).out.Failed? || Serve(env, s, c).out.Written?
  {
    hide NoncesMinted, Publish, Update, Edit, Restore, Wrote, Appends, Inserts;
    match c {
      case PublishCall(pub, names, now, up) => var _ := PublishEffect(env, s, pub, names, now, up);
      case UpdateCall(req, nonce, now, up) => var _ := UpdateEffect(env, s, req, nonce, now, up);
      case EditCall(e, nonce, now, up) => EditAnswers(env, s, e, nonce, now, up);
      case RestoreCall(doc, from, author, nonce, now, up) =>
        var req := RestoreEffect(env, s, doc, from, author, nonce, now, up);
        if req.Some? { var _ := UpdateEffect(env, s, req.value, nonce, now, up); }
    }
  }

  lemma EditAnswers(env: Env, s: Store, e: Protocol.EditReq, nonce: string, now: string, up: bool)
    requires NoncesMinted(s) && nonce !in s.nonces
    ensures Edit(env, s, e, nonce, now, up).out.Failed? || Edit(env, s, e, nonce, now, up).out.Written?
  {
    hide NoncesMinted, Update, ReadSource;
    var src := ReadSource(s.db, s.r2, e.doc, None);
    if src.Source? {
      var r := Edits.Apply(src.text, e.edits, e.replaceAll);
      if r.Edited? {
        var _ := UpdateEffect(env, s, EditWrite(e, src, r.text), nonce, now, up);
      }
    }
  }

  // ---- revoke ----------------------------------------------------------------

  /** What a purge may be given: keys of the document's rows, all of them when it
      does not fail. */
  ghost predicate Purge(db: Db, doc: string, gone: set<Key>, finished: bool) {
    gone <= Protocol.KeysOf(db, doc) && (finished ==> gone == Protocol.KeysOf(db, doc))
  }

  /** The version numbers of a document are exactly 1 to some m, so it has m rows. */
  lemma RowsAreCounted(db: Db, doc: string, m: nat)
    requires PI.RowsOk(db) && VerId(doc, m) in db.vers && VerId(doc, m + 1) !in db.vers
    ensures |RowsOf(db, doc)| == m
  {
    forall v | v in db.vers && v.doc == doc
      ensures 1 <= v.no <= m
    {
      assert v == VerId(doc, v.no);
    }
    assert RowsOf(db, doc) == UpTo(doc, m);
    UpToCounts(doc, m);
  }

  ghost function UpTo(doc: string, m: nat): set<VerId> { set n: nat | 1 <= n <= m :: VerId(doc, n) }

  lemma {:induction false} UpToCounts(doc: string, m: nat)
    ensures |UpTo(doc, m)| == m
    decreases m
  {
    if m > 0 {
      UpToCounts(doc, m - 1);
      assert UpTo(doc, m) == UpTo(doc, m - 1) + {VerId(doc, m)};
    }
  }

  lemma {:induction false} NewestRow(db: Db, doc: string, n: nat, all: nat) returns (m: nat)
    requires VerId(doc, n) in db.vers && n <= all && forall v | v in db.vers && v.doc == doc :: v.no <= all
    ensures m >= n && VerId(doc, m) in db.vers && VerId(doc, m + 1) !in db.vers
    decreases all - n
  {
    m := n;
    if VerId(doc, n + 1) in db.vers {
      m := NewestRow(db, doc, n + 1, all);
    }
  }

  /** What a revoke does, all of it: the document loses its pointers and its name,
      which is buried as revoked, and is stamped once; the objects the purge got to
      go; rows and every other document stay. It answers how many versions there
      were when the purge went through. */
  lemma RevokeVerdict(env: Env, s: Store, doc: string, now: string, up: bool, gone: set<Key>, finished: bool)
    requires PI.DbOk(s.db) && SlugHistory.SlugsOk(s.db)
    ensures
      var r := Revoke(s, doc, now, up, gone, finished);
      if doc !in s.db.docs then r == Reply(s, Failed(NotFound))
      else
        var d := s.db.docs[doc];
        if d.revokedAt.None? && !up then r == Reply(s, Failed(Thrown))
        else
          && r.store.r2 == s.r2 - gone && r.store.nonces == s.nonces && r.store.db.vers == s.db.vers
          && r.store.db.docs == s.db.docs[doc :=
               d.(revokedAt := Some(if d.revokedAt.Some? then d.revokedAt.value else now), slug := None,
                  current := if d.revokedAt.Some? then d.current else None, published := if d.revokedAt.Some? then d.published else None)]
          && r.store.db.tombs == (if d.slug.Some? then s.db.tombs[d.slug.value := Tomb(Some(doc), now, Revoked, None)] else s.db.tombs)
          && (forall who :: Sees(r.store, who, doc).None?)
          && if finished then
               && r.out.Purged? && VerId(doc, r.out.versions) in s.db.vers && VerId(doc, r.out.versions + 1) !in s.db.vers
             else r.out == Failed(Thrown)
  {
    if doc in s.db.docs {
      var all := Sums.Bound(s.db.vers.Keys);
      var m := NewestRow(s.db, doc, 1, all);
      RowsAreCounted(s.db, doc, m);
    }
  }

  /** A revoke that reports success leaves no object of the document in R2, takes
      its name out of use, and touches no other document's objects. */
  lemma RevokeLeavesNothing(env: Env, s: Store, doc: string, now: string, up: bool, gone: set<Key>, finished: bool)
    requires NoOrphans(s) && BlobsOk(env, s) && Purge(s.db, doc, gone, finished)
    requires Revoke(s, doc, now, up, gone, finished).out.Purged?
    ensures
      var s' := Revoke(s, doc, now, up, gone, finished).store;
      && !IsLive(s'.db, doc)
      && (forall k | k in s'.r2 :: k.doc != doc)
      && (forall k: Key | k.doc != doc :: (k in s'.r2 <==> k in s.r2) && (k in s.r2 ==> s'.r2[k] == s.r2[k]))
      && (forall name | IsLive(s.db, doc) && Holds(s.db, doc, name) :: name in s'.db.tombs && !Holds(s'.db, doc, name))
  {
    hide NoOrphans, BlobsOk;
    forall k | k in s.r2 && k.doc == doc
      ensures k in Protocol.KeysOf(s.db, doc)
    {
      OrphanFree(s, k);
    }
    forall k | k in Protocol.KeysOf(s.db, doc)
      ensures k.doc == doc
    {
      KeysAreOwn(env, s, doc, k);
    }
  }

  lemma OrphanFree(s: Store, k: Key)
    requires NoOrphans(s) && k in s.r2
    ensures VerId(k.doc, k.ver) in s.db.vers && k in s.db.vers[VerId(k.doc, k.ver)].Keys()
  {
  }

  lemma KeysAreOwn(env: Env, s: Store, doc: string, k: Key)
    requires BlobsOk(env, s) && k in Protocol.KeysOf(s.db, doc)
    ensures k.doc == doc
  {
    var v :| v in s.db.vers && v.doc == doc && k in s.db.vers[v].Keys();
    assert PI.RowShaped(v, s.db.vers[v]);
  }

  /** The purge can be retried: revoking again leaves D1 as it is, with the first
      revocation's stamp, and if R2 holds, finishes the job; once finished, one
      more changes nothing. */
  lemma RevokeCanBeRetried(env: Env, s: Store, doc: string, now: string, up: bool, gone: set<Key>, finished: bool)
    requires NoOrphans(s) && BlobsOk(env, s) && Purge(s.db, doc, gone, finished)
    requires doc in s.db.docs && !s.db.docs[doc].Live()
    ensures
      var s' := Revoke(s, doc, now, up, gone, finished).store;
      && s'.db == s.db
      && (finished ==> forall k | k in s'.r2 :: k.doc != doc)
      && ((forall k | k in s.r2 :: k.doc != doc) ==> s' == s)
  {
    hide BlobsOk, NoOrphans;
    if finished {
      RevokeLeavesNothing(env, s, doc, now, up, gone, finished);
    }
    if forall k | k in s.r2 :: k.doc != doc {
      forall k | k in Protocol.KeysOf(s.db, doc)
        ensures k !in s.r2
      {
        KeysAreOwn(env, s, doc, k);
      }
      assert s.r2 - gone == s.r2;
    }
  }
}
