/** Calls served one after the other are one of the interleavings of Protocol, so
    everything proved there for every interleaving holds of serial runs too. */
module SerialIsProtocol {
  import opened Records
  import opened D1
  import opened Writes
  import Edits
  import P = Protocol
  import PT = ProtocolTheorems
  import opened Serial
  import Sums

  /** An interleaving can stand at `t` with the stores as `s` has them and no
      request under way. */
  ghost predicate Quiet(env: Env, t: P.Sys, s: Store) {
    P.Reachable(env, t) && t.db == s.db && t.r2 == s.r2 && t.nonces == s.nonces && t.ops == map[]
  }

  lemma Then(env: Env, t: P.Sys, a: P.Action)
    requires P.Reachable(env, t)
    ensures P.Reachable(env, P.Step(env, t, a))
  {
    hide P.Step;
    var states :| P.Ends(env, states, t);
    var t' := P.Step(env, t, a);
    assert P.Next(env, t, t');
    var longer := states + [t'];
    assert P.Ends(env, longer, t');
  }

  lemma Start(env: Env)
    ensures Quiet(env, P.START, NEW_STORE)
  {
    assert P.Ends(env, [P.START], P.START);
  }

  // ---- one write -------------------------------------------------------------

  ghost predicate Only(t: P.Sys, op: P.Op) { t.ops == map[0 := op] }

  lemma PutBlobRuns(env: Env, t: P.Sys, p: Plan, stage: P.Stage, origin: P.Origin) returns (t': P.Sys)
    requires P.Reachable(env, t) && Only(t, P.Writing(p, stage, origin)) && !stage.Commit? && !stage.Rollback?
    requires p.row.sKey.Some? && p.row.sha.Some?
    ensures P.Reachable(env, t') && t'.db == t.db && t'.nonces == t.nonces
    ensures Only(t', P.Writing(p, if stage.StoreH? then P.StoreS else P.Commit, origin))
    ensures t'.r2 == if stage.StoreH? then t.r2[p.row.hKey := p.html] else t.r2[p.row.sKey.value := p.row.sha.value.of]
  {
    hide P.Reachable;
    t' := P.Step(env, t, P.PutBlob(0));
    Then(env, t, P.PutBlob(0));
    assert t' == P.StepPutBlob(t, 0);
  }

  lemma RunBatchRuns(env: Env, t: P.Sys, p: Plan, origin: P.Origin, up: bool) returns (t': P.Sys)
    requires P.Reachable(env, t) && Only(t, P.Writing(p, P.Commit, origin)) && Shaped(p)
    ensures P.Reachable(env, t') && t'.r2 == t.r2 && t'.nonces == t.nonces
    ensures up && Accepts(t.db, p) ==> t'.db == Committed(t.db, p) && t'.ops == map[]
    ensures !(up && Accepts(t.db, p)) ==> t'.db == t.db && Only(t', P.Writing(p, P.Rollback, origin))
  {
    hide P.Reachable, Batch, Statements, Accepts, Committed;
    t' := P.Step(env, t, P.RunBatch(0, up));
    Then(env, t, P.RunBatch(0, up));
    CommitIsAllOrNothing(t.db, p);
    assert t' == P.StepRunBatch(t, 0, up);
    assert t.ops - {0} == map[];
  }

  lemma RollbackRuns(env: Env, t: P.Sys, p: Plan, origin: P.Origin) returns (t': P.Sys)
    requires P.Reachable(env, t) && Only(t, P.Writing(p, P.Rollback, origin))
    ensures P.Reachable(env, t') && t'.r2 == t.r2 - p.row.Keys() && t'.nonces == t.nonces && t'.db == t.db && t'.ops == map[]
  {
    hide P.Reachable;
    t' := P.Step(env, t, P.DeleteBlobs(0, true));
    Then(env, t, P.DeleteBlobs(0, true));
    assert t' == P.StepDeleteBlobs(t, 0, true);
    assert t.ops - {0} == map[];
  }

  /** A write left alone ends as Land says. */
  lemma LandRuns(env: Env, t: P.Sys, s: Store, p: Plan, ok: WriteOk, up: bool, origin: P.Origin) returns (t': P.Sys)
    requires P.Reachable(env, t) && Only(t, P.Writing(p, P.StoreH, origin))
    requires t.db == s.db && t.r2 == s.r2 && t.nonces == s.nonces + {p.row.hKey.nonce}
    requires Shaped(p) && p.row.sKey.Some? && p.row.sha.Some?
    ensures Quiet(env, t', Land(s, p, ok, up).store)
  {
    hide P.Reachable, Accepts, Committed, Shaped;
    var h := PutBlobRuns(env, t, p, P.StoreH, origin);
    var b := PutBlobRuns(env, h, p, P.StoreS, origin);
    t' := RunBatchRuns(env, b, p, origin, up);
    if !(up && Accepts(t.db, p)) {
      t' := RollbackRuns(env, t', p, origin);
    }
  }

  lemma StopRuns(env: Env, t: P.Sys, op: P.Op) returns (t': P.Sys)
    requires P.Reachable(env, t) && Only(t, op)
    ensures P.Reachable(env, t') && t' == t.(ops := map[])
  {
    hide P.Reachable;
    t' := P.Step(env, t, P.Stop(0));
    Then(env, t, P.Stop(0));
    assert t.ops - {0} == map[];
  }

  // ---- publish and update ----------------------------------------------------

  lemma PublishedPlan(env: Env, req: PublishReq, used: nat, slug: SlugResult, names: Names, now: string)
    requires DecidePublish(env, req, used, slug, names, now).Write?
    ensures
      var p := DecidePublish(env, req, used, slug, names, now).plan;
      Shaped(p) && p.row.sKey.Some? && p.row.sha.Some? && p.row.hKey.nonce == names.nonce
  {
    hide ScreenAndPrepare, ResolveMetadata;
  }

  lemma UpdatedPlan(env: Env, view: View, req: WriteReq, used: nat, slug: SlugResult, nonce: string, now: string)
    requires DecideUpdate(env, view, req, used, slug, nonce, now).Write?
    ensures
      var p := DecideUpdate(env, view, req, used, slug, nonce, now).plan;
      Shaped(p) && p.row.sKey.Some? && p.row.sha.Some? && p.row.hKey.nonce == nonce
  {
    hide ScreenAndPrepare, ResolveMetadata;
  }

  lemma PublishRuns(env: Env, t: P.Sys, s: Store, c: Call) returns (t': P.Sys)
    requires c.PublishCall? && Quiet(env, t, s) && Supplied(s, c)
    ensures Quiet(env, t', Publish(env, s, c.pub, c.names, c.now, c.up).store)
  {
    hide P.Reachable, DecidePublish, ResolveSlug, UsedBytes, Land;
    var slug := ResolveSlug(env, s.db, c.pub.opts.slug, None, None, c.pub.allowReserved);
    var used := UsedBytes(s.db);
    var d := DecidePublish(env, c.pub, used, slug, c.names, c.now);
    t' := t;
    if d.Write? {
      PublishedPlan(env, c.pub, used, slug, c.names, c.now);
      t' := PublishBegins(env, t, P.Publish(0, c.pub, used, slug, c.names, c.now));
      t' := LandRuns(env, t', s, d.plan, d.ok, c.up, P.Publication(c.pub));
    }
  }

  lemma PublishBegins(env: Env, t: P.Sys, a: P.Action) returns (t': P.Sys)
    requires P.Reachable(env, t) && t.ops == map[] && a.Publish? && a.op == 0 && a.names.nonce !in t.nonces
    requires DecidePublish(env, a.pub, a.used, a.claim, a.names, a.now).Write?
    ensures P.Reachable(env, t') && t'.db == t.db && t'.r2 == t.r2 && t'.nonces == t.nonces + {a.names.nonce}
    ensures Only(t', P.Writing(DecidePublish(env, a.pub, a.used, a.claim, a.names, a.now).plan, P.StoreH, P.Publication(a.pub)))
  {
    hide P.Reachable, DecidePublish;
    t' := P.Step(env, t, a);
    Then(env, t, a);
    assert t' == P.StepPublish(env, t, a);
  }

  lemma ReadRowRuns(env: Env, t: P.Sys, req: WriteReq, origin: P.Origin, a: P.Action) returns (t': P.Sys)
    requires P.Reachable(env, t) && Only(t, P.Updating(req, origin)) && a.ReadRow? && a.op == 0 && a.nonce !in t.nonces
    ensures P.Reachable(env, t') && t'.db == t.db && t'.r2 == t.r2
    ensures
      var view := LoadView(t.db, req.doc);
      if view.Some? && DecideUpdate(env, view.value, req, a.used, a.claim, a.nonce, a.now).Write? then
        && t'.nonces == t.nonces + {a.nonce}
        && Only(t', P.Writing(DecideUpdate(env, view.value, req, a.used, a.claim, a.nonce, a.now).plan, P.StoreH, origin))
      else t'.nonces == t.nonces && t'.ops == map[]
  {
    hide P.Reachable, DecideUpdate, LoadView;
    t' := P.Step(env, t, a);
    Then(env, t, a);
    assert t' == P.StepReadRow(env, t, a);
    assert t.ops - {0} == map[];
  }

  /** An update already begun, by whichever core, ends as Update says. */
  lemma UpdateEnds(env: Env, t: P.Sys, s: Store, req: WriteReq, origin: P.Origin, nonce: string, now: string, up: bool)
    returns (t': P.Sys)
    requires P.Reachable(env, t) && Only(t, P.Updating(req, origin))
    requires t.db == s.db && t.r2 == s.r2 && t.nonces == s.nonces && nonce !in s.nonces
    ensures Quiet(env, t', Update(env, s, req, nonce, now, up).store)
  {
    hide P.Reachable, DecideUpdate, LoadView, SlugFor, UsedBytes, Land;
    var view := LoadView(s.db, req.doc);
    if |req.body| == 0 || view.None? {
      t' := StopRuns(env, t, P.Updating(req, origin));
    } else {
      var used, slug := UsedBytes(s.db), SlugFor(env, s.db, view.value, req);
      var d := DecideUpdate(env, view.value, req, used, slug, nonce, now);
      t' := ReadRowRuns(env, t, req, origin, P.ReadRow(0, used, slug, nonce, now));
      if d.Write? {
        UpdatedPlan(env, view.value, req, used, slug, nonce, now);
        t' := LandRuns(env, t', s, d.plan, d.ok, up, origin);
      }
    }
  }

  lemma Begins(env: Env, t: P.Sys, a: P.Action, op: P.Op) returns (t': P.Sys)
    requires P.Reachable(env, t) && t.ops == map[]
    requires match a
             case BeginUpdate(o, req) => o == 0 && op == P.Updating(req, P.UpdateOf(req))
             case BeginEdit(o, e) => o == 0 && op == P.Editing(e)
             case BeginRestore(o, doc, from, author) => o == 0 && op == P.Restoring(doc, from, author)
             case BeginRevoke(o, doc) => o == 0 && op == P.Revoking(doc)
             case _ => false
    ensures P.Reachable(env, t') && t' == t.(ops := map[0 := op])
  {
    hide P.Reachable;
    t' := P.Step(env, t, a);
    Then(env, t, a);
  }

  lemma UpdateRuns(env: Env, t: P.Sys, s: Store, c: Call) returns (t': P.Sys)
    requires c.UpdateCall? && Quiet(env, t, s) && Supplied(s, c)
    ensures Quiet(env, t', Update(env, s, c.req, c.nonce, c.now, c.up).store)
  {
    hide P.Reachable, Update;
    t' := Begins(env, t, P.BeginUpdate(0, c.req), P.Updating(c.req, P.UpdateOf(c.req)));
    t' := UpdateEnds(env, t', s, c.req, P.UpdateOf(c.req), c.nonce, c.now, c.up);
  }

  // ---- edit and restore ------------------------------------------------------

  lemma ReadVersionRuns(env: Env, t: P.Sys, op: P.Op) returns (t': P.Sys)
    requires P.Reachable(env, t) && Only(t, op) && (op.Editing? || op.Restoring?)
    requires ReadSource(t.db, t.r2, if op.Editing? then op.edit.doc else op.doc,
                        if op.Restoring? then Some(op.from) else None).Source?
    ensures P.Reachable(env, t')
    ensures
      var src := ReadSource(t.db, t.r2, if op.Editing? then op.edit.doc else op.doc,
                            if op.Restoring? then Some(op.from) else None);
      && src.row.sKey.Some? && src.row.sKey.value in t.r2 && src.text == t.r2[src.row.sKey.value]
      && t' == t.(ops := map[0 :=
                    if op.Editing? then P.EditLoaded(op.edit, src.ver, src.row.sKey.value, src.row.format)
                    else P.RestoreLoaded(op.doc, op.from, op.author, src.row.sKey.value, src.row.format, P.RestoreOpts(src.row))])
  {
    hide P.Reachable;
    t' := P.Step(env, t, P.ReadVersion(0));
    Then(env, t, P.ReadVersion(0));
    assert t' == P.StepReadVersion(t, 0);
  }

  lemma FetchSourceRuns(env: Env, t: P.Sys, op: P.Op, next: P.Op) returns (t': P.Sys)
    requires P.Reachable(env, t) && Only(t, op)
    requires P.StepFetchSource(t, 0) == t.(ops := map[0 := next])
    ensures P.Reachable(env, t') && t' == t.(ops := map[0 := next])
  {
    hide P.Reachable, P.StepFetchSource;
    t' := P.Step(env, t, P.FetchSource(0));
    Then(env, t, P.FetchSource(0));
  }

  lemma EditRuns(env: Env, t: P.Sys, s: Store, c: Call) returns (t': P.Sys)
    requires c.EditCall? && Quiet(env, t, s) && Supplied(s, c)
    ensures Quiet(env, t', Edit(env, s, c.edit, c.nonce, c.now, c.up).store)
  {
    hide P.Reachable, Update, Edits.Apply, ReadSource;
    var e := c.edit;
    var src := ReadSource(s.db, s.r2, e.doc, None);
    t' := t;
    if e.edits != [] && src.Source? && (e.expected.None? || e.expected.value == src.ver)
       && Edits.Apply(src.text, e.edits, e.replaceAll).Edited?
    {
      t' := Begins(env, t, P.BeginEdit(0, e), P.Editing(e));
      t' := ReadVersionRuns(env, t', P.Editing(e));
      var text := Edits.Apply(src.text, e.edits, e.replaceAll).text;
      var origin := P.EditOf(e, src.ver);
      var loaded := P.EditLoaded(e, src.ver, src.row.sKey.value, src.row.format);
      var req := EditWrite(e, src, text);
      t' := FetchSourceRuns(env, t', loaded, P.Updating(req, origin));
      t' := UpdateEnds(env, t', s, req, origin, c.nonce, c.now, c.up);
    }
  }

  lemma RestoreRuns(env: Env, t: P.Sys, s: Store, c: Call) returns (t': P.Sys)
    requires c.RestoreCall? && Quiet(env, t, s) && Supplied(s, c)
    ensures Quiet(env, t', Restore(env, s, c.doc, c.from, c.author, c.nonce, c.now, c.up).store)
  {
    hide P.Reachable, Update, ReadSource, P.RestoreOpts;
    var src := ReadSource(s.db, s.r2, c.doc, Some(c.from));
    t' := t;
    if src.Source? {
      var op := P.Restoring(c.doc, c.from, c.author);
      t' := Begins(env, t, P.BeginRestore(0, c.doc, c.from, c.author), op);
      t' := ReadVersionRuns(env, t', op);
      var loaded := P.RestoreLoaded(c.doc, c.from, c.author, src.row.sKey.value, src.row.format, P.RestoreOpts(src.row));
      var req := RestoreWrite(c.doc, c.author, src);
      t' := FetchSourceRuns(env, t', loaded, P.Updating(req, P.RestoreOf(c.from, c.author)));
      t' := UpdateEnds(env, t', s, req, P.RestoreOf(c.from, c.author), c.nonce, c.now, c.up);
    }
  }

  // ---- slugs and classification ----------------------------------------------

  /** Any change of the columns that hold no pointer, and of the tombstones. */
  lemma ReclassifyRuns(env: Env, t: P.Sys, s: Store, doc: string, row: Doc, tombs: map<string, Tomb>) returns (t': P.Sys)
    requires Quiet(env, t, s) && doc in s.db.docs
    requires row == s.db.docs[doc].(slug := row.slug, tags := row.tags, status := row.status, supersededBy := row.supersededBy)
    ensures Quiet(env, t', s.(db := Db(s.db.docs[doc := row], s.db.vers, tombs)))
  {
    hide P.Reachable;
    var a := P.Reclassify(doc, row.slug, row.tags, row.status, row.supersededBy);
    t' := P.Step(env, t, a);
    Then(env, t, a);
    t' := TombsRun(env, t', s.(db := UpdateDoc(s.db, doc, row)), tombs);
  }

  lemma TombsRun(env: Env, t: P.Sys, s: Store, tombs: map<string, Tomb>) returns (t': P.Sys)
    requires Quiet(env, t, s)
    ensures Quiet(env, t', WithTombs(s, tombs))
  {
    hide P.Reachable;
    t' := P.Step(env, t, P.RewriteTombs(tombs));
    Then(env, t, P.RewriteTombs(tombs));
  }

  lemma VisibilityRuns(env: Env, t: P.Sys, s: Store, c: Call) returns (t': P.Sys)
    requires c.VisibilityCall? && Quiet(env, t, s)
    ensures Quiet(env, t', SetVisibility(s, c.doc, c.visibility).store)
  {
    hide P.Reachable;
    var a := P.SetVisibility(c.doc, c.visibility);
    t' := P.Step(env, t, a);
    Then(env, t, a);
    assert t' == P.StepSetVisibility(t, c.doc, c.visibility);
  }

  lemma PromoteRuns(env: Env, t: P.Sys, s: Store, c: Call) returns (t': P.Sys)
    requires c.PromoteCall? && Quiet(env, t, s)
    ensures Quiet(env, t', Promote(s, c.doc, c.ver).store)
  {
    hide P.Reachable;
    t' := t;
    if c.ver >= 1 && IsLive(s.db, c.doc) && VerId(c.doc, c.ver) in s.db.vers {
      var look := P.LookUpVersion(0, c.doc, c.ver);
      var found := P.Step(env, t, look);
      Then(env, t, look);
      assert found == P.StepLookUpVersion(t, 0, c.doc, c.ver) && found == t.(ops := map[0 := P.Promoting(c.doc, c.ver)]);
      t' := PromoteEnds(env, found, c.doc, c.ver);
    }
  }

  lemma PromoteEnds(env: Env, t: P.Sys, doc: string, ver: nat) returns (t': P.Sys)
    requires P.Reachable(env, t) && Only(t, P.Promoting(doc, ver)) && IsLive(t.db, doc)
    ensures P.Reachable(env, t') && t' == t.(ops := map[], db := UpdateDoc(t.db, doc, t.db.docs[doc].(published := Some(ver))))
  {
    hide P.Reachable;
    t' := P.Step(env, t, P.SetPublished(0));
    Then(env, t, P.SetPublished(0));
    assert t' == P.StepSetPublished(t, 0);
    assert t.ops - {0} == map[];
  }

  lemma ClassifyRuns(env: Env, t: P.Sys, s: Store, c: Call) returns (t': P.Sys)
    requires c.SlugCall? || c.StatusCall? || c.TagsCall?
    requires Quiet(env, t, s)
    ensures Quiet(env, t', Serve(env, s, c).store)
  {
    hide P.Reachable, ResolveSlug, LivePublicId, TombsAfter;
    var s' := Serve(env, s, c).store;
    t' := t;
    if s' != s {
      t' := ReclassifyRuns(env, t, s, c.doc, s'.db.docs[c.doc], s'.db.tombs);
    }
  }

  lemma RedirectRuns(env: Env, t: P.Sys, s: Store, c: Call) returns (t': P.Sys)
    requires c.RedirectCall? || c.ClearRedirectCall? || c.ReleaseCall?
    requires Quiet(env, t, s)
    ensures Quiet(env, t', Serve(env, s, c).store)
  {
    hide P.Reachable, LivePublicId;
    t' := TombsRun(env, t, s, Serve(env, s, c).store.db.tombs);
  }

  // ---- revoke ----------------------------------------------------------------

  /** A purge that gets to `gone` of its keys, one at a time. */
  lemma {:induction false} PurgeRuns(env: Env, t: P.Sys, doc: string, keys: set<Key>, gone: set<Key>) returns (t': P.Sys)
    requires P.Reachable(env, t) && Only(t, P.Purging(doc, keys)) && gone <= keys
    ensures P.Reachable(env, t') && t' == t.(ops := map[], r2 := t.r2 - gone)
    decreases gone
  {
    hide P.Reachable, P.Step;
    if gone == {} {
      t' := StopRuns(env, t, P.Purging(doc, keys));
    } else {
      var k :| k in gone;
      t' := P.Step(env, t, P.PurgeChunk(0, {k}));
      Then(env, t, P.PurgeChunk(0, {k}));
      PurgeOne(env, t, doc, keys, k);
      if keys - {k} != {} {
        t' := PurgeRuns(env, t', doc, keys - {k}, gone - {k});
      }
      assert t.r2 - {k} - (gone - {k}) == t.r2 - gone;
    }
  }

  lemma PurgeOne(env: Env, t: P.Sys, doc: string, keys: set<Key>, k: Key)
    requires Only(t, P.Purging(doc, keys)) && k in keys
    ensures P.Step(env, t, P.PurgeChunk(0, {k})) ==
              t.(ops := if keys == {k} then map[] else map[0 := P.Purging(doc, keys - {k})], r2 := t.r2 - {k})
    ensures keys - {k} == {} <==> keys == {k}
  {
    assert P.Step(env, t, P.PurgeChunk(0, {k})) == P.StepPurgeChunk(t, 0, {k});
    assert t.ops - {0} == map[];
    if keys - {k} == {} {
      assert keys == {k};
    }
  }

  lemma ReadForRevoke(env: Env, t: P.Sys, doc: string) returns (t': P.Sys)
    requires P.Reachable(env, t) && Only(t, P.Revoking(doc)) && doc in t.db.docs
    ensures P.Reachable(env, t')
    ensures t' == t.(ops := map[0 := P.RevokeKeys(doc, !t.db.docs[doc].Live(), t.db.docs[doc].slug, P.KeysOf(t.db, doc))])
  {
    hide P.Reachable, P.KeysOf;
    t' := P.Step(env, t, P.ReadRevoke(0));
    Then(env, t, P.ReadRevoke(0));
    assert t' == P.StepReadRevoke(t, 0);
    t' := ReadKeysRuns(env, t', doc, !t.db.docs[doc].Live(), t.db.docs[doc].slug);
  }

  lemma ReadKeysRuns(env: Env, t: P.Sys, doc: string, already: bool, slug: Option<string>) returns (t': P.Sys)
    requires P.Reachable(env, t) && Only(t, P.RevokeRead(doc, already, slug))
    ensures P.Reachable(env, t') && t' == t.(ops := map[0 := P.RevokeKeys(doc, already, slug, P.KeysOf(t.db, doc))])
  {
    hide P.Reachable, P.KeysOf;
    t' := P.Step(env, t, P.ReadKeys(0));
    Then(env, t, P.ReadKeys(0));
    assert t' == P.StepReadKeys(t, 0);
  }

  lemma KillRuns(env: Env, t: P.Sys, doc: string, now: string, up: bool) returns (t': P.Sys)
    requires doc in t.db.docs && P.Reachable(env, t)
    requires Only(t, P.RevokeKeys(doc, !t.db.docs[doc].Live(), t.db.docs[doc].slug, P.KeysOf(t.db, doc)))
    ensures P.Reachable(env, t')
    ensures
      if t.db.docs[doc].Live() && !up then t' == t.(ops := map[])
      else t' == t.(ops := map[0 := P.Purging(doc, P.KeysOf(t.db, doc))],
                    db := if t.db.docs[doc].Live() then Killed(t.db, doc, now) else t.db)
  {
    hide P.Reachable, P.KeysOf, P.KillStatements, Batch, Killed;
    Sums.KillBatch(t.db, doc, now);
    t' := P.Step(env, t, P.KillBatch(0, now, up));
    Then(env, t, P.KillBatch(0, now, up));
    assert t' == P.StepKillBatch(t, 0, now, up);
    assert t.ops - {0} == map[];
  }

  lemma RevokeRuns(env: Env, t: P.Sys, s: Store, c: Call) returns (t': P.Sys)
    requires c.RevokeCall? && Quiet(env, t, s) && Supplied(s, c)
    ensures Quiet(env, t', Revoke(s, c.doc, c.now, c.up, c.gone, c.finished).store)
  {
    hide P.Reachable, P.KeysOf, Killed;
    t' := t;
    if c.doc in s.db.docs {
      t' := Begins(env, t, P.BeginRevoke(0, c.doc), P.Revoking(c.doc));
      t' := ReadForRevoke(env, t', c.doc);
      t' := KillRuns(env, t', c.doc, c.now, c.up);
      if !(s.db.docs[c.doc].Live() && !c.up) {
        t' := PurgeRuns(env, t', c.doc, P.KeysOf(s.db, c.doc), c.gone);
      }
    }
  }

  // ---- runs ------------------------------------------------------------------

  /** One call, undisturbed, is a run of protocol steps. */
  lemma CallRuns(env: Env, t: P.Sys, s: Store, s': Store, c: Call) returns (t': P.Sys)
    requires Quiet(env, t, s) && Next(env, s, s', c)
    ensures Quiet(env, t', s')
  {
    hide Quiet, Supplied, Publish, Update, Edit, Restore, ChangeSlug, SetVisibility, Promote, SetStatus, ChangeTags,
      SetRedirect, ClearRedirect, ReleaseTombstone, Revoke;
    match c {
      case PublishCall(_, _, _, _) => t' := PublishRuns(env, t, s, c);
      case UpdateCall(_, _, _, _) => t' := UpdateRuns(env, t, s, c);
      case EditCall(_, _, _, _) => t' := EditRuns(env, t, s, c);
      case RestoreCall(_, _, _, _, _, _) => t' := RestoreRuns(env, t, s, c);
      case VisibilityCall(_, _) => t' := VisibilityRuns(env, t, s, c);
      case PromoteCall(_, _) => t' := PromoteRuns(env, t, s, c);
      case RevokeCall(_, _, _, _, _) => t' := RevokeRuns(env, t, s, c);
      case SlugCall(_, _, _, _) => t' := ClassifyRuns(env, t, s, c);
      case StatusCall(_, _, _) => t' := ClassifyRuns(env, t, s, c);
      case TagsCall(_, _) => t' := ClassifyRuns(env, t, s, c);
      case _ => t' := RedirectRuns(env, t, s, c);
    }
  }

  /** Every state of a serial run is one the interleaved protocol reaches with
      nothing under way. */
  lemma {:induction false} SerialRunIsInterleaving(env: Env, states: seq<Store>, calls: seq<Call>, i: nat) returns (t: P.Sys)
    requires IsRun(env, states, calls) && states[0] == NEW_STORE && i < |states|
    ensures Quiet(env, t, states[i])
  {
    hide Quiet, Next;
    if i == 0 {
      Start(env);
      t := P.START;
    } else {
      t := SerialRunIsInterleaving(env, states, calls, i - 1);
      t := CallRuns(env, t, states[i - 1], states[i], calls[i - 1]);
    }
  }
}
