/** What becomes of a link when its target is renamed or revoked: the link rows
    stay as they were written, and what they are shown as follows the document. */
module LinkHistory {
  import opened Records
  import opened D1
  import opened Writes
  import opened Serial
  import opened Links
  import AskedWrites
  import PI = ProtocolInvariant
  import SerialTheorems
  import SlugHistory

  /** A renamed document keeps every link to it: the old name is shown as forwarding
      to it, the new one and its address as live, with the title it has now. */
  lemma LinksFollowARename(env: Env, s: Store, doc: string, input: string, now: string, up: bool, former: string, name: string, o: OutboundLink)
    requires SlugHistory.SlugsOk(s.db) && UniquePublicIds(s.db) && Serial.IsLive(s.db, doc) && s.db.docs[doc].slug == Some(former)
    requires ChangeSlug(env, s, doc, input, now, up).out == SlugSet(Some(name), Some(former), true)
    ensures
      var db := ChangeSlug(env, s, doc, input, now, up).store.db;
      var home, title := Some(s.db.docs[doc].publicId), CurrentTitle(s.db, doc);
      && (Resolves(db, ToSlug(former), o) ==> o == OutboundLink(ToSlug(former), RedirectedTarget, home, None))
      && (Resolves(db, ToSlug(name), o) ==> o == OutboundLink(ToSlug(name), LiveTarget, home, title))
      && (Resolves(db, ToPublicId(home.value), o) ==> o == OutboundLink(ToPublicId(home.value), LiveTarget, home, title))
  {
    hide ChangeSlug, AskedWrites.NameOpen, AskedWrites.NameAfter, AskedWrites.NameRefusal;
    AskedWrites.NamingVerdict(env, s, doc, input, now, up);
    var db := ChangeSlug(env, s, doc, input, now, up).store.db;
    assert db.docs == s.db.docs[doc := s.db.docs[doc].(slug := Some(name))] && db.vers == s.db.vers;
    NamesAfterRename(env, s, doc, input, now, up, former, name);
    assert HasSlug(db, doc, name) && HasPublicId(db, doc, s.db.docs[doc].publicId);
  }

  lemma NamesAfterRename(env: Env, s: Store, doc: string, input: string, now: string, up: bool, former: string, name: string)
    requires SlugHistory.SlugsOk(s.db) && Serial.IsLive(s.db, doc) && s.db.docs[doc].slug == Some(former)
    requires ChangeSlug(env, s, doc, input, now, up).out == SlugSet(Some(name), Some(former), true)
    ensures former != name
    ensures forall d | d in s.db.docs && d != doc :: s.db.docs[d].slug != Some(name) && s.db.docs[d].slug != Some(former)
    ensures
      var db := ChangeSlug(env, s, doc, input, now, up).store.db;
      former in db.tombs && db.tombs[former].redirect == Some(s.db.docs[doc].publicId) && name !in db.tombs
  {
    AskedWrites.NameVerdict(env, s.db, Some(input), s.db.docs[doc].slug, Some(doc), false);
  }

  /** Every link to a revoked document is told as broken: its address as revoked,
      its name as retired, with nothing of the document left to see. */
  lemma LinksToTheRevoked(env: Env, s: Store, doc: string, now: string, up: bool, gone: set<Key>, finished: bool, o: OutboundLink)
    requires PI.DbOk(s.db) && SlugHistory.SlugsOk(s.db) && UniquePublicIds(s.db) && Serial.IsLive(s.db, doc) && up
    ensures
      var db, d := Revoke(s, doc, now, up, gone, finished).store.db, s.db.docs[doc];
      && (Resolves(db, ToPublicId(d.publicId), o) ==> o == OutboundLink(ToPublicId(d.publicId), RevokedTarget, None, None))
      && (d.slug.Some? && Resolves(db, ToSlug(d.slug.value), o) ==> o == OutboundLink(ToSlug(d.slug.value), RetiredTarget, None, None))
  {
    hide Revoke, PI.DbOk, CurrentTitle;
    SerialTheorems.RevokeVerdict(env, s, doc, now, up, gone, finished);
    assert HasPublicId(Revoke(s, doc, now, up, gone, finished).store.db, doc, s.db.docs[doc].publicId);
  }
}
