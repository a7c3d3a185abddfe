/** The D1 tables and the statements the cores put in a batch, with the
    constraints SQLite enforces. A batch commits whole or changes nothing. */
module D1 {
  import opened Records

  datatype Db = Db(docs: map<string, Doc>, vers: map<VerId, Version>, tombs: map<string, Tomb>)

  const EMPTY := Db(map[], map[], map[])

  datatype Stmt =
    | InsertDocument(id: string, doc: Doc)
    | InsertVersion(vid: VerId, row: Version)
    | SetCurrent(id: string, ver: nat)
    | SetSlug(id: string, slug: Option<string>)
    | SetTags(id: string, tags: seq<string>)
    | RetireSlug(name: string, tomb: Tomb)
    | Kill(id: string, now: string)

  /** Some document other than `self` holds `slug`; the partial unique index on
      `documents.slug` then refuses it to `self`. */
  predicate SlugHeld(docs: map<string, Doc>, slug: string, self: Option<string>) {
    exists d :: d in docs && self != Some(d) && docs[d].slug == Some(slug)
  }

  predicate PublicIdHeld(docs: map<string, Doc>, publicId: string) {
    exists d :: d in docs && docs[d].publicId == publicId
  }

  function UpdateDoc(db: Db, id: string, doc: Doc): Db {
    db.(docs := db.docs[id := doc])
  }

  /** One statement, or None when a constraint refuses it. */
  function Exec(db: Db, s: Stmt): Option<Db> {
    match s
    case InsertDocument(id, doc) =>
      if id in db.docs || PublicIdHeld(db.docs, doc.publicId)
         || (doc.slug.Some? && SlugHeld(db.docs, doc.slug.value, None)) then None
      else Some(UpdateDoc(db, id, doc))
    case InsertVersion(vid, row) =>
      if vid in db.vers || vid.doc !in db.docs then None
      else Some(db.(vers := db.vers[vid := row]))
    case SetCurrent(id, ver) =>
      if id !in db.docs then Some(db)
      else Some(UpdateDoc(db, id, db.docs[id].(current := Some(ver))))
    case SetSlug(id, slug) =>
      if id !in db.docs then Some(db)
      else if slug.Some? && SlugHeld(db.docs, slug.value, Some(id)) then None
      else Some(UpdateDoc(db, id, db.docs[id].(slug := slug)))
    case SetTags(id, tags) =>
      if id !in db.docs then Some(db)
      else Some(UpdateDoc(db, id, db.docs[id].(tags := tags)))
    case RetireSlug(slug, tomb) =>
      if slug in db.tombs then Some(db) else Some(db.(tombs := db.tombs[slug := tomb]))
    case Kill(id, now) =>
      if id !in db.docs then Some(db)
      else Some(UpdateDoc(db, id, db.docs[id].(revokedAt := Some(now), current := None, published := None, slug := None)))
  }

  function Batch(db: Db, ss: seq<Stmt>): Option<Db>
    decreases ss
  {
    if ss == [] then Some(db)
    else
      match Exec(db, ss[0])
      case None => None
      case Some(next) => Batch(next, ss[1..])
  }

  lemma {:induction false} BatchConcat(db: Db, a: seq<Stmt>, b: seq<Stmt>)
    ensures Batch(db, a + b) ==
              match Batch(db, a)
              case None => None
              case Some(mid) => Batch(mid, b)
    decreases a
  {
    if a == [] {
      assert a + b == b;
    } else {
      assert (a + b)[1..] == a[1..] + b;
      match Exec(db, a[0])
      case None =>
      case Some(next) => BatchConcat(next, a[1..], b);
    }
  }

  /** What no batch undoes: rows and tombstones are never changed or taken away, a
      document stays under its public id, and one revoked stays revoked. */
  ghost predicate Keeps(db: Db, db': Db) {
    && (forall v | v in db.vers :: v in db'.vers && db'.vers[v] == db.vers[v])
    && (forall n | n in db.tombs :: n in db'.tombs && db'.tombs[n] == db.tombs[n])
    && (forall d | d in db.docs :: d in db'.docs
          && db'.docs[d].publicId == db.docs[d].publicId && (!db.docs[d].Live() ==> !db'.docs[d].Live()))
  }

  lemma StatementKeeps(db: Db, s: Stmt)
    ensures Exec(db, s).Some? ==> Keeps(db, Exec(db, s).value)
  {
    hide SlugHeld, PublicIdHeld;
  }

  lemma {:induction false} BatchKeeps(db: Db, ss: seq<Stmt>)
    ensures Batch(db, ss).Some? ==> Keeps(db, Batch(db, ss).value)
    decreases ss
  {
    hide Exec;
    if ss != [] {
      StatementKeeps(db, ss[0]);
      match Exec(db, ss[0])
      case None =>
      case Some(next) => BatchKeeps(next, ss[1..]);
    }
  }
}
