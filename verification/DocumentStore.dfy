/** The cores as they run: D1 and R2 change step by step, and each method is
    proved to leave and to answer exactly what its function in Serial says. */
module DocumentStore {
  import opened Records
  import opened D1
  import opened Writes
  import opened Serial
  import Edits
  import Protocol
  import Sums

  class DocumentStore {
    const env: Env
    var db: Db
    var r2: map<Key, string>
    ghost var nonces: set<string>

    ghost function State(): Store
      reads this
    {
      Store(db, r2, nonces)
    }

    constructor (env: Env)
      ensures this.env == env && State() == NEW_STORE
    {
      this.env := env;
      db, r2, nonces := EMPTY, map[], {};
    }

    // ---- D1 and R2 -----------------------------------------------------------

    /** A batch, when D1 is `up`: all of it or none of it. */
    method RunBatch(ss: seq<Stmt>, up: bool) returns (ok: bool)
      modifies this`db
      ensures ok == (up && Batch(old(db), ss).Some?)
      ensures db == if ok then Batch(old(db), ss).value else old(db)
    {
      ok := false;
      if up {
        var r := Batch(db, ss);
        if r.Some? {
          db, ok := r.value, true;
        }
      }
    }

    method PutVersionBlobs(p: Plan)
      modifies this`r2, this`nonces
      ensures r2 == WithBlobs(old(r2), p) && nonces == old(nonces) + {p.row.hKey.nonce}
    {
      r2 := r2[p.row.hKey := p.html];
      if p.row.sKey.Some? && p.row.sha.Some? {
        r2 := r2[p.row.sKey.value := p.row.sha.value.of];
      }
      nonces := nonces + {p.row.hKey.nonce};
    }

    // ---- writes --------------------------------------------------------------

    /** Blobs first, then the statements, then the two deletes if D1 refused. */
    method Commit(p: Plan, ok: WriteOk, up: bool) returns (out: Outcome)
      requires Shaped(p)
      modifies this
      ensures Reply(State(), out) == Land(old(State()), p, ok, up)
    {
      hide Accepts, Committed;
      PutVersionBlobs(p);
      var statements;
      if p.insert.Some? {
        statements := [InsertDocument(p.docId, p.insert.value), InsertVersion(p.Vid(), p.row), SetCurrent(p.docId, p.ver)];
      } else {
        statements := [InsertVersion(p.Vid(), p.row), SetCurrent(p.docId, p.ver)];
        if p.slug.Claim? {
          statements := statements + [SetSlug(p.docId, Some(p.slug.name))];
          if p.slug.retire.Some? {
            statements := statements + [RetireSlug(p.slug.retire.value, Tomb(Some(p.docId), p.now, Renamed, Some(p.publicId)))];
          }
        } else if p.slug.Clear? {
          statements := statements + [SetSlug(p.docId, None)];
          statements := statements + [RetireSlug(p.slug.retired, Tomb(Some(p.docId), p.now, Released, None))];
        }
        if p.tags.Some? {
          statements := statements + [SetTags(p.docId, p.tags.value)];
        }
      }
      assert statements == Statements(p);
      CommitIsAllOrNothing(db, p);
      var done := RunBatch(statements, up);
      if done {
        return Written(ok, 0);
      }
      r2 := r2 - p.row.Keys();
      return Failed(Thrown);
    }

    method PublishDocumentCore(req: PublishReq, names: Names, now: string, up: bool) returns (out: Outcome)
      modifies this
      ensures Reply(State(), out) == Publish(env, old(State()), req, names, now, up)
    {
      hide ScreenAndPrepare, UsedBytes, ResolveSlug, Land, ResolveMetadata;
      var screened := Screen(env, req.body, req.format);
      if screened.Refused? {
        return Failed(screened.err);
      }
      var prep := screened.prep;
      var used := Sums.CurrentStorageUsedBytes(db);
      if used + prep.Bytes() > env.storageCap {
        return Failed(StorageCapExceeded(used, env.storageCap, prep.Bytes()));
      }
      var meta := ResolveMetadata(env, prep.html, req.opts, None);
      var tags := if req.opts.tags.Some? then env.cleanTags(req.opts.tags.value) else [];
      var slugResult := ResolveSlug(env, db, req.opts.slug, None, None, req.allowReserved);
      if slugResult.SlugErr? {
        return Failed(slugResult.err);
      }
      var name := if slugResult.action.Claim? then Some(slugResult.action.name) else None;
      var visibility := if req.visibility.Some? then req.visibility.value else env.defaultVisibility;
      var doc := Doc(names.publicId, None, if visibility.Public? then Some(1) else None,
                     req.author.AgentId(), req.author.Kind(), None, name, visibility, tags, Active, None, now);
      var plan := Plan(names.docId, names.publicId, 1, Some(doc),
                       NewRow(env, prep, names.docId, 1, names.nonce, meta, req.author, now),
                       prep.html, Keep(name), None, now);
      out := Commit(plan, WriteOk(1, false, Utf8Size(prep.html), Digest(prep.source), meta.title, meta.description, tags, name), up);
    }

    method UpdateDocumentCore(req: WriteReq, nonce: string, now: string, up: bool) returns (out: Outcome)
      modifies this
      ensures Reply(State(), out) == Update(env, old(State()), req, nonce, now, up)
    {
      hide ScreenAndPrepare, UsedBytes, ResolveSlug, Land, ResolveMetadata, LoadView, DecideScreened;
      if |req.body| == 0 {
        return Failed(EmptyBody);
      }
      var loaded := LoadView(db, req.doc);
      if loaded.None? {
        return Failed(NotFound);
      }
      var row := loaded.value;
      if req.expected.Some? && req.expected.value != row.current {
        return Failed(VersionConflict(row.current, req.expected.value));
      }
      var screened := Screen(env, req.body, req.format);
      if screened.Refused? {
        return Failed(screened.err);
      }
      var prep := screened.prep;
      var used := Sums.CurrentStorageUsedBytes(db);
      if used + prep.Bytes() > env.storageCap {
        return Failed(StorageCapExceeded(used, env.storageCap, prep.Bytes()));
      }
      var slugResult := ResolveSlug(env, db, req.opts.slug, row.slug, Some(row.id), req.allowReserved);
      if slugResult.SlugErr? {
        return Failed(slugResult.err);
      }
      out := WriteScreened(req, row, prep, slugResult.action, nonce, now, up);
    }

    /** The rest of an update, once its slug claim is known: the slug lock, the
        no-op gate, the write. */
    method WriteScreened(req: WriteReq, row: View, prep: Prep, slugAction: SlugAction, nonce: string, now: string, up: bool)
      returns (out: Outcome)
      modifies this
      ensures Reply(State(), out) == Conclude(old(State()), DecideScreened(env, row, req, prep, slugAction, nonce, now), up)
    {
      hide Land, ResolveMetadata;
      var meta := ResolveMetadata(env, prep.html, req.opts, Some(Meta(row.Title(), row.Description())));
      var tagsUpdate := if req.opts.tags.Some? then Some(env.cleanTags(req.opts.tags.value)) else None;
      var resolvedTags := if tagsUpdate.Some? then tagsUpdate.value else row.tags;
      if req.author.Agent? && row.visibility.Public? && !slugAction.Keep? {
        return Failed(SlugLocked);
      }
      var contentIdentical :=
        && row.prior.Some?
        && row.prior.value.sha == Some(Digest(prep.source))
        && row.prior.value.sanitizer == env.sanitizerVersion
        && row.prior.value.format == prep.format;
      var metadataIdentical :=
        && meta.title == row.Title()
        && meta.description == row.Description()
        && slugAction.Keep?
        && (tagsUpdate.None? || tagsUpdate.value == row.tags);
      if contentIdentical && metadataIdentical {
        return Written(WriteOk(row.current, true, Utf8Size(prep.html), Digest(prep.source), meta.title, meta.description,
                               resolvedTags, slugAction.After()), 0);
      }
      var nextVer := row.current + 1;
      var plan := Plan(row.id, row.publicId, nextVer, None,
                       NewRow(env, prep, row.id, nextVer, nonce, meta, req.author, now),
                       prep.html, slugAction, tagsUpdate, now);
      out := Commit(plan, WriteOk(nextVer, false, Utf8Size(prep.html), Digest(prep.source), meta.title, meta.description,
                                  resolvedTags, slugAction.After()), up);
    }

    method EditDocumentCore(e: Protocol.EditReq, nonce: string, now: string, up: bool) returns (out: Outcome)
      modifies this
      ensures Reply(State(), out) == Edit(env, old(State()), e, nonce, now, up)
    {
      hide Update, Edits.Apply, ReadSource;
      if |e.edits| == 0 {
        return Failed(EditFailed(Edits.NoEdits));
      }
      var current := ReadSource(db, r2, e.doc, None);
      if current.NoSource? {
        return Failed(current.err);
      }
      if e.expected.Some? && e.expected.value != current.ver {
        return Failed(VersionConflict(current.ver, e.expected.value));
      }
      var applied := Edits.ApplyEdits(current.text, e.edits, e.replaceAll);
      if !applied.Edited? {
        return Failed(EditFailed(applied));
      }
      out := UpdateDocumentCore(EditWrite(e, current, applied.text), nonce, now, up);
      if out.Written? {
        out := Written(out.ok, applied.replacements);
      }
    }

    method RestoreVersionCore(doc: string, from: nat, author: Author, nonce: string, now: string, up: bool)
      returns (out: Outcome)
      modifies this
      ensures Reply(State(), out) == Restore(env, old(State()), doc, from, author, nonce, now, up)
    {
      hide Update, ReadSource;
      var src := ReadSource(db, r2, doc, Some(from));
      if src.NoSource? {
        return Failed(src.err);
      }
      out := UpdateDocumentCore(RestoreWrite(doc, author, src), nonce, now, up);
    }

    // ---- slugs and classification --------------------------------------------

    method SetDocumentSlugCore(doc: string, input: string, now: string, up: bool) returns (out: Outcome)
      modifies this`db
      ensures Reply(State(), out) == ChangeSlug(env, old(State()), doc, input, now, up)
    {
      hide SlugHeld, Batch;
      if !IsLive(db, doc) {
        return Failed(NotFound);
      }
      var row := db.docs[doc];
      var slugResult := ResolveSlug(env, db, Some(input), row.slug, Some(doc), false);
      if slugResult.SlugErr? {
        return Failed(slugResult.err);
      }
      var action := slugResult.action;
      var statements: seq<Stmt> := [];
      var retired: Option<string> := None;
      var redirected := false;
      if action.Claim? {
        statements := statements + [SetSlug(doc, Some(action.name))];
        if action.retire.Some? {
          statements := statements + [RetireSlug(action.retire.value, Tomb(Some(doc), now, Renamed, Some(row.publicId)))];
          retired, redirected := action.retire, true;
        }
      } else if action.Clear? {
        statements := statements + [SetSlug(doc, None)];
        statements := statements + [RetireSlug(action.retired, Tomb(Some(doc), now, Released, None))];
        retired := Some(action.retired);
      }
      if statements != [] {
        assert statements == SlugStatements(doc, row.publicId, action, now);
        SlugBatch(db, doc, row.publicId, action, now);
        var done := RunBatch(statements, up);
        if !done {
          return Failed(Thrown);
        }
      }
      return SlugSet(action.After(), retired, redirected);
    }

    method SetDocumentVisibilityCore(doc: string, visibility: Visibility) returns (out: Outcome)
      modifies this`db
      ensures Reply(State(), out) == SetVisibility(old(State()), doc, visibility)
    {
      if !IsLive(db, doc) {
        return Failed(NotFound);
      }
      var row := db.docs[doc].(visibility := visibility);
      if visibility.Public? && row.published.None? {
        row := row.(published := row.current);
      }
      db := UpdateDoc(db, doc, row);
      return Done;
    }

    method PromoteVersionCore(doc: string, ver: int) returns (out: Outcome)
      modifies this`db
      ensures Reply(State(), out) == Promote(old(State()), doc, ver)
    {
      if ver < 1 {
        return Failed(VersionNotFound);
      }
      if !IsLive(db, doc) {
        return Failed(NotFound);
      }
      if VerId(doc, ver) !in db.vers {
        return Failed(VersionNotFound);
      }
      db := UpdateDoc(db, doc, db.docs[doc].(published := Some(ver)));
      return Done;
    }

    method SetDocumentStatusCore(doc: string, status: Status, successor: Option<string>) returns (out: Outcome)
      modifies this`db
      ensures Reply(State(), out) == SetStatus(old(State()), doc, status, successor)
    {
      if status.Archived? {
        return InvalidStatus;
      }
      var supersededBy: Option<string> := None;
      if status.Deprecated? && successor.Some? && successor.value != "" {
        if doc in db.docs && db.docs[doc].publicId == successor.value {
          return BadTarget(successor.value);
        }
        if !LivePublicId(db, successor.value) {
          return BadTarget(successor.value);
        }
        supersededBy := successor;
      }
      if !IsLive(db, doc) {
        return Failed(NotFound);
      }
      db := UpdateDoc(db, doc, db.docs[doc].(status := status, supersededBy := supersededBy));
      return Done;
    }

    method SetDocumentTagsCore(doc: string, tags: seq<string>) returns (out: Outcome)
      modifies this`db
      ensures Reply(State(), out) == ChangeTags(env, old(State()), doc, tags)
    {
      if !IsLive(db, doc) {
        return Failed(NotFound);
      }
      db := UpdateDoc(db, doc, db.docs[doc].(tags := env.cleanTags(tags)));
      return Done;
    }

    method SetSlugRedirectCore(name: string, target: string) returns (out: Outcome)
      modifies this`db
      ensures Reply(State(), out) == SetRedirect(old(State()), name, target)
    {
      if name !in db.tombs {
        return TombstoneNotFound;
      }
      if !LivePublicId(db, target) {
        return BadTarget(target);
      }
      db := db.(tombs := db.tombs[name := db.tombs[name].(redirect := Some(target))]);
      return Done;
    }

    method ClearSlugRedirectCore(name: string) returns (out: Outcome)
      modifies this`db
      ensures Reply(State(), out) == ClearRedirect(old(State()), name)
    {
      if name !in db.tombs {
        return TombstoneNotFound;
      }
      db := db.(tombs := db.tombs[name := db.tombs[name].(redirect := None)]);
      return Done;
    }

    method ReleaseSlugTombstoneCore(name: string) returns (out: Outcome)
      modifies this`db
      ensures Reply(State(), out) == ReleaseTombstone(old(State()), name)
    {
      if name !in db.tombs {
        return TombstoneNotFound;
      }
      db := db.(tombs := db.tombs - {name});
      return Done;
    }

    // ---- revoke --------------------------------------------------------------

    /** The rows of a document, by version number. */
    method VersionRows(doc: string) returns (rows: seq<VerId>)
      ensures Sums.SetOf(rows) == RowsOf(db, doc) && Sums.Ascending(rows)
    {
      hide Sums.Split;
      var left := set v | v in db.vers && v.doc == doc;
      ghost var all := left;
      ghost var top: int := Sums.Bound(left);
      rows := [];
      var n := 0;
      Sums.SplitStart(doc, all, top);
      while left != {}
        invariant Sums.Split(doc, all, rows, left, n, top)
        decreases top - n
      {
        Sums.SplitNext(doc, all, rows, left, n, top);
        if VerId(doc, n) in left {
          rows, left := rows + [VerId(doc, n)], left - {VerId(doc, n)};
        }
        n := n + 1;
      }
      Sums.SplitEnd(doc, all, rows, n, top);
    }

    /** R2 takes so many keys a call; `calls` of them go through before it fails. */
    method DeleteR2Keys(keys: seq<Key>, calls: nat) returns (ok: bool, ghost gone: set<Key>)
      modifies this`r2
      ensures r2 == old(r2) - gone && gone <= Sums.SetOf(keys)
      ensures ok ==> gone == Sums.SetOf(keys)
      ensures ok <==> |keys| <= calls * Protocol.R2_DELETE_BATCH
    {
      var i, left := 0, calls;
      gone := {};
      assert gone == Sums.SetOf(keys[..0]);
      while i < |keys|
        invariant i == (calls - left) * Protocol.R2_DELETE_BATCH
        invariant 0 <= left <= calls && i - Protocol.R2_DELETE_BATCH < |keys|
        invariant gone == Sums.SetOf(keys[..if i < |keys| then i else |keys|])
        invariant r2 == old(r2) - gone
      {
        if left == 0 {
          Sums.SetOfPlus(keys[..i], keys[i..]);
          assert keys[..i] + keys[i..] == keys;
          return false, gone;
        }
        var end := if i + Protocol.R2_DELETE_BATCH < |keys| then i + Protocol.R2_DELETE_BATCH else |keys|;
        Sums.SetOfPlus(keys[..i], keys[i..end]);
        assert keys[..end] == keys[..i] + keys[i..end];
        gone := gone + Sums.SetOf(keys[i..end]);
        r2 := r2 - set k | k in keys[i..end];
        i, left := i + Protocol.R2_DELETE_BATCH, left - 1;
      }
      assert keys[..|keys|] == keys;
      return true, gone;
    }

    method RevokeDocumentCore(doc: string, now: string, up: bool, calls: nat) returns (out: Outcome, ghost gone: set<Key>)
      modifies this
      ensures gone <= Protocol.KeysOf(old(db), doc) && (out.Purged? ==> gone == Protocol.KeysOf(old(db), doc))
      ensures Reply(State(), out) == Revoke(old(State()), doc, now, up, gone, out.Purged?)
    {
      hide Batch, RowsOf, Sums.SetOf, Sums.KeysNamed, Protocol.KeysOf, Sums.Ascending;
      gone := {};
      if doc !in db.docs {
        return Failed(NotFound), gone;
      }
      var row := db.docs[doc];
      var rows := VersionRows(doc);
      ghost var was := db;
      Sums.KeysNamedAll(was, doc, rows);
      Sums.AscendingCount(rows);
      if row.Live() {
        var statements := [Kill(doc, now)];
        if row.slug.Some? {
          statements := statements + [RetireSlug(row.slug.value, Tomb(Some(doc), now, Revoked, None))];
        }
        assert statements == Protocol.KillStatements(doc, row.slug, now);
        Sums.KillBatch(db, doc, now);
        var done := RunBatch(statements, up);
        if !done {
          return Failed(Thrown), gone;
        }
      }
      assert db.vers == was.vers;
      var purge: seq<Key> := [];
      assert Sums.SetOf(purge) == Sums.KeysNamed(db.vers, rows[..0]) by { Sums.NothingNamed(db.vers, rows); }
      for i := 0 to |rows|
        modifies {}
        invariant Sums.SetOf(purge) == Sums.KeysNamed(db.vers, rows[..i])
      {
        Sums.Listed(was, doc, rows, i);
        Sums.KeysNamedNext(db.vers, rows, i);
        var version := db.vers[rows[i]];
        var keys := if version.sKey.None? then [version.hKey] else [version.hKey, version.sKey.value];
        Sums.SetOfPlus(purge, keys);
        assert Sums.SetOf(keys) == version.Keys() by { Sums.KeysAsList(version); }
        purge := purge + keys;
      }
      assert rows[..|rows|] == rows;
      var ok;
      ok, gone := DeleteR2Keys(purge, calls);
      if !ok {
        return Failed(Thrown), gone;
      }
      return Purged(|rows|), gone;
    }
  }
}
