/** What every serial run keeps: rows and pointers in order, every blob accounted
    for, names unique and unretired, the storage total under its cap. */
module SerialInvariant {
  import opened Records
  import opened D1
  import opened Writes
  import opened Serial
  import opened SerialEffects
  import P = Protocol
  import PI = ProtocolInvariant
  import ProtocolSteps
  import ProtocolTheorems
  import SerialIsProtocol
  import SlugHistory
  import Sums

  /** Every object in R2 is named by the version row its key was minted for. */
  ghost predicate NoOrphans(s: Store) {
    forall k | k in s.r2 :: VerId(k.doc, k.ver) in s.db.vers && k in s.db.vers[VerId(k.doc, k.ver)].Keys()
  }

  ghost predicate BlobsOk(env: Env, s: Store) {
    PI.BlobsOk(env, P.Sys(s.db, s.r2, map[], s.nonces, []))
  }

  ghost predicate Good(env: Env, s: Store) {
    && PI.DbOk(s.db) && BlobsOk(env, s) && NoOrphans(s) && NoncesMinted(s)
    && SlugHistory.SlugsOk(s.db)
    && WithinCap(env, s.db)
  }

  // ---- blobs -----------------------------------------------------------------

  lemma WriteKeepsBlobs(s: Store, s': Store, p: Plan, nonce: string)
    requires NoOrphans(s) && NoncesMinted(s) && Wrote(s, s', p)
    requires p.row.hKey == Key(p.docId, p.ver, nonce, false) && p.row.sKey == Some(Key(p.docId, p.ver, nonce, true))
    ensures NoOrphans(s') && NoncesMinted(s')
  {
    hide PublicIdHeld, SlugHeld, TombsAfter;
    assert s'.db.vers == s.db.vers[p.Vid() := p.row];
  }

  lemma OthersKeepBlobs(env: Env, s: Store, s': Store, c: Call)
    requires NoOrphans(s) && NoncesMinted(s) && Next(env, s, s', c) && !IsWrite(c)
    ensures NoOrphans(s') && NoncesMinted(s')
  {
    hide NoOrphans, NoncesMinted, Supplied;
    OthersOnlyPurge(env, s, c);
    Shrinks(s, s');
  }

  /** No row or object is added or changed; objects may be deleted. */
  ghost predicate OnlyPurged(s: Store, s': Store) {
    && s'.db.vers == s.db.vers && s'.nonces == s.nonces && s'.db.docs.Keys == s.db.docs.Keys
    && s'.r2.Keys <= s.r2.Keys && (forall k | k in s'.r2 :: s'.r2[k] == s.r2[k])
  }

  /** No other call adds or changes a row or an object. */
  lemma OthersOnlyPurge(env: Env, s: Store, c: Call)
    requires !IsWrite(c)
    ensures OnlyPurged(s, Serve(env, s, c).store)
    ensures !c.RevokeCall? ==> Serve(env, s, c).store.r2 == s.r2
  {
    hide ChangeSlug, SetVisibility, Promote, SetStatus, ChangeTags, SetRedirect, ClearRedirect, ReleaseTombstone, Revoke, OnlyPurged;
    match c {
      case SlugCall(doc, input, now, up) => SlugOnlyPurges(env, s, doc, input, now, up);
      case RedirectCall(_, _) => RedirectsOnlyPurge(s, c.name, c.target);
      case ClearRedirectCall(_) => RedirectsOnlyPurge(s, c.name, "");
      case ReleaseCall(_) => RedirectsOnlyPurge(s, c.name, "");
      case RevokeCall(doc, now, up, gone, finished) => RevokeOnlyPurges(s, doc, now, up, gone, finished);
      case _ => ClassifyOnlyPurges(env, s, c);
    }
  }

  lemma SlugOnlyPurges(env: Env, s: Store, doc: string, input: string, now: string, up: bool)
    ensures OnlyPurged(s, ChangeSlug(env, s, doc, input, now, up).store) && ChangeSlug(env, s, doc, input, now, up).store.r2 == s.r2
  {
    hide ResolveSlug, TombsAfter;
  }

  lemma RedirectsOnlyPurge(s: Store, name: string, target: string)
    ensures OnlyPurged(s, SetRedirect(s, name, target).store) && SetRedirect(s, name, target).store.r2 == s.r2
    ensures OnlyPurged(s, ClearRedirect(s, name).store) && ClearRedirect(s, name).store.r2 == s.r2
    ensures OnlyPurged(s, ReleaseTombstone(s, name).store) && ReleaseTombstone(s, name).store.r2 == s.r2
  {
    hide LivePublicId;
  }

  lemma RevokeOnlyPurges(s: Store, doc: string, now: string, up: bool, gone: set<Key>, finished: bool)
    ensures OnlyPurged(s, Revoke(s, doc, now, up, gone, finished).store)
  {
  }

  lemma ClassifyOnlyPurges(env: Env, s: Store, c: Call)
    requires c.VisibilityCall? || c.PromoteCall? || c.StatusCall? || c.TagsCall?
    ensures OnlyPurged(s, Serve(env, s, c).store) && Serve(env, s, c).store.r2 == s.r2
  {
    hide LivePublicId;
    match c {
      case VisibilityCall(_, _) =>
      case PromoteCall(_, _) =>
      case StatusCall(_, _, _) =>
      case TagsCall(_, _) =>
    }
  }

  lemma Shrinks(s: Store, s': Store)
    requires NoOrphans(s) && NoncesMinted(s)
    requires s'.db.vers == s.db.vers && s'.nonces == s.nonces && s'.r2.Keys <= s.r2.Keys
    ensures NoOrphans(s') && NoncesMinted(s')
  {
  }

  // ---- the storage total -----------------------------------------------------

  lemma {:induction false} SumAgrees(a: map<VerId, Version>, b: map<VerId, Version>, vs: set<VerId>)
    requires vs <= a.Keys && vs <= b.Keys && forall v | v in vs :: a[v] == b[v]
    ensures SumOf(a, vs) == SumOf(b, vs)
    decreases vs
  {
    if vs != {} {
      var v :| v in vs;
      Sums.Remove(a, vs, v);
      Sums.Remove(b, vs, v);
      SumAgrees(a, b, vs - {v});
    }
  }

  lemma {:induction false} SumSplits(vers: map<VerId, Version>, a: set<VerId>, b: set<VerId>)
    requires a <= vers.Keys && b <= vers.Keys && a !! b
    ensures SumOf(vers, a + b) == SumOf(vers, a) + SumOf(vers, b)
    decreases a
  {
    if a == {} {
      assert a + b == b;
    } else {
      var v :| v in a;
      Sums.Remove(vers, a + b, v);
      Sums.Remove(vers, a, v);
      SumSplits(vers, a - {v}, b);
      assert a + b - {v} == (a - {v}) + b;
    }
  }

  /** A committed write adds its own bytes to the total and nothing else. */
  lemma WriteAddsItsBytes(db: Db, p: Plan)
    requires PI.RowsOk(db) && Accepts(db, p)
    requires if p.insert.Some? then p.insert.value.Live() else IsLive(db, p.docId)
    ensures UsedBytes(Committed(db, p)) == UsedBytes(db) + RowBytes(p.row)
  {
    hide Accepts, Committed, SumOf, PI.RowsOk, Counted;
    var db' := Committed(db, p);
    OneMoreRow(db, p);
    Sums.Remove(db'.vers, Counted(db'), p.Vid());
    assert Counted(db') - {p.Vid()} == Counted(db);
    SumAgrees(db.vers, db'.vers, Counted(db));
  }

  lemma OneMoreRow(db: Db, p: Plan)
    requires PI.RowsOk(db) && Accepts(db, p)
    requires if p.insert.Some? then p.insert.value.Live() else IsLive(db, p.docId)
    ensures
      var db' := Committed(db, p);
      && Counted(db') <= db'.vers.Keys && Counted(db) <= db.vers.Keys
      && db'.vers == db.vers[p.Vid() := p.row] && p.Vid() !in db.vers
      && Counted(db') == Counted(db) + {p.Vid()}
  {
    hide PublicIdHeld, SlugHeld, TombsAfter;
    var db' := Committed(db, p);
    forall v
      ensures v in Counted(db') <==> v in Counted(db) + {p.Vid()}
    {
    }
  }

  /** A revoke takes exactly the document's own bytes off it. */
  lemma RevokeFreesItsBytes(db: Db, doc: string, now: string)
    requires IsLive(db, doc)
    ensures UsedBytes(db) == UsedBytes(Killed(db, doc, now)) + SumOf(db.vers, RowsOf(db, doc))
  {
    hide SumOf;
    var db' := Killed(db, doc, now);
    assert Counted(db) == Counted(db') + RowsOf(db, doc);
    SumSplits(db.vers, Counted(db'), RowsOf(db, doc));
  }

  lemma SameTotal(db: Db, db': Db)
    requires db'.vers == db.vers && db'.docs.Keys == db.docs.Keys
    requires forall d | d in db.docs :: db'.docs[d].Live() == db.docs[d].Live()
    ensures UsedBytes(db') == UsedBytes(db)
  {
    assert Counted(db') == Counted(db);
  }

  lemma OthersKeepLives(env: Env, s: Store, c: Call)
    requires !IsWrite(c) && !c.RevokeCall?
    ensures
      var db' := Serve(env, s, c).store.db;
      && db'.docs.Keys == s.db.docs.Keys
      && forall d | d in s.db.docs :: db'.docs[d].Live() == s.db.docs[d].Live()
  {
    hide ResolveSlug, LivePublicId, TombsAfter;
    match c {
      case SlugCall(_, _, _, _) =>
      case RedirectCall(_, _) =>
      case ClearRedirectCall(_) =>
      case ReleaseCall(_) =>
      case _ => SlugHistory.ClassifyEffect(env, s, c);
    }
  }

  lemma StepKeepsCap(env: Env, s: Store, s': Store, c: Call)
    requires PI.RowsOk(s.db) && NoncesMinted(s) && Next(env, s, s', c) && UsedBytes(s.db) <= env.storageCap
    ensures UsedBytes(s'.db) <= env.storageCap
  {
    hide UsedBytes, NoncesMinted, PI.RowsOk, Accepts, Committed, Serve, Killed, Supplied, SlugHeld, ResolveSlug;
    if IsWrite(c) {
      var p, _ := WriteEffect(env, s, s', c);
      if p.Some? {
        WriteAddsItsBytes(s.db, p.value);
      }
    } else if c.RevokeCall? {
      RevokeKeepsCap(env, s, c);
    } else {
      OthersOnlyPurge(env, s, c);
      OthersKeepLives(env, s, c);
      SameTotal(s.db, s'.db);
    }
  }

  lemma RevokeKeepsCap(env: Env, s: Store, c: Call)
    requires c.RevokeCall?
    ensures UsedBytes(Serve(env, s, c).store.db) <= UsedBytes(s.db)
  {
    hide UsedBytes, Killed;
    if IsLive(s.db, c.doc) && c.up {
      RevokeFreesItsBytes(s.db, c.doc, c.now);
    }
  }

  // ---- runs ------------------------------------------------------------------

  lemma WriteStepBlobs(env: Env, s: Store, s': Store, c: Call)
    requires NoOrphans(s) && NoncesMinted(s) && Next(env, s, s', c) && IsWrite(c)
    ensures NoOrphans(s') && NoncesMinted(s')
  {
    hide NoOrphans, NoncesMinted, Next, Wrote, ResolveSlug, UsedBytes, SlugHeld;
    var p, _ := WriteEffect(env, s, s', c);
    if p.None? {
      Untouched(s, s');
    } else {
      WriteKeepsBlobs(s, s', p.value, NonceOf(c));
    }
  }

  lemma Untouched(s: Store, s': Store)
    requires NoOrphans(s) && NoncesMinted(s) && LeftAlone(s, s')
    ensures NoOrphans(s') && NoncesMinted(s')
  {
  }

  lemma {:induction false} RunKeeps(env: Env, states: seq<Store>, calls: seq<Call>, i: nat)
    requires IsRun(env, states, calls) && states[0] == NEW_STORE && i < |states|
    ensures Good(env, states[i])
  {
    hide Next, Good, NoOrphans, NoncesMinted;
    RunKeepsRows(env, states, calls, i);
    if i == 0 {
      StartIsGood(env);
    } else {
      var s, s', c := states[i - 1], states[i], calls[i - 1];
      RunKeeps(env, states, calls, i - 1);
      StepKeepsGood(env, s, s', c);
    }
  }

  lemma StepKeepsGood(env: Env, s: Store, s': Store, c: Call)
    requires Good(env, s) && Next(env, s, s', c) && PI.DbOk(s'.db) && BlobsOk(env, s')
    ensures Good(env, s')
  {
    hide Next, NoOrphans, NoncesMinted, SlugHistory.SlugsOk, SlugHistory.NamesStep, PI.RowsOk, PI.BlobsOk, PI.PointersOk, UsedBytes;
    SlugHistory.EachStepRetires(env, s, s', c);
    StepKeepsCap(env, s, s', c);
    if IsWrite(c) {
      WriteStepBlobs(env, s, s', c);
    } else {
      OthersKeepBlobs(env, s, s', c);
    }
  }

  lemma StartIsGood(env: Env)
    ensures Good(env, NEW_STORE)
  {
    NothingUsed();
  }

  lemma NothingUsed()
    ensures UsedBytes(EMPTY) == 0
  {
    assert Counted(EMPTY) == {};
  }

  /** Rows, pointers and stored bytes are what the interleaved protocol promises. */
  lemma RunKeepsRows(env: Env, states: seq<Store>, calls: seq<Call>, i: nat)
    requires IsRun(env, states, calls) && states[0] == NEW_STORE && i < |states|
    ensures PI.DbOk(states[i].db) && BlobsOk(env, states[i])
  {
    hide IsRun, P.Reachable, PI.DbOk, PI.LogOk, PI.OpsOk;
    var t := SerialIsProtocol.SerialRunIsInterleaving(env, states, calls, i);
    ProtocolTheorems.ReachableInv(env, t);
  }
}
