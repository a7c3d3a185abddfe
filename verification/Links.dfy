/** The link graph: rows stored raw when a version is written, resolved against
    the documents when they are read (src/document-link-sync.ts, src/links-core.ts). */
module Links {
  import opened Records
  import opened D1
  import Corpus
  import Export

  const MAX_DOCUMENT_LINKS := 200
  const LINK_INSERT_CHUNK := 20
  const LINK_RESOLVE_CHUNK := 80
  const LISTING_LIMIT := 200

  datatype Link = ToPublicId(value: string) | ToSlug(value: string)

  /** Link rows by source document and position. */
  type LinkTable = map<string, map<nat, Link>>

  datatype Graph = Graph(db: Db, links: LinkTable)

  // ---- writing ---------------------------------------------------------------

  predicate SelfLink(l: Link, publicId: string, slug: Option<string>) {
    l == ToPublicId(publicId) || (slug.Some? && l == ToSlug(slug.value))
  }

  function WithoutSelf(ls: seq<Link>, publicId: string, slug: Option<string>): (r: seq<Link>)
    ensures forall l :: l in r <==> l in ls && !SelfLink(l, publicId, slug)
  {
    if ls == [] then []
    else (if SelfLink(ls[0], publicId, slug) then [] else [ls[0]]) + WithoutSelf(ls[1..], publicId, slug)
  }

  /** The links a version stores: none to itself, two hundred at most. */
  function ExtractDocumentLinks(outbound: seq<Link>, publicId: string, slug: Option<string>): seq<Link> {
    var others := WithoutSelf(outbound, publicId, slug);
    if |others| > MAX_DOCUMENT_LINKS then others[..MAX_DOCUMENT_LINKS] else others
  }

  datatype LinkStmt =
    | DeleteRows(doc: string)
    | InsertRows(doc: string, start: nat, chunk: seq<Link>)

  /** Rows of one document after a statement; an insert refuses a target already
      stored (the table's key is source and target). */
  function ExecLink(rows: map<nat, Link>, s: LinkStmt): Option<map<nat, Link>> {
    match s
    case DeleteRows(_) => Some(map[])
    case InsertRows(_, start, chunk) =>
      if (exists i :: 0 <= i < |chunk| && chunk[i] in rows.Values)
         || (exists i, j :: 0 <= i < j < |chunk| && chunk[i] == chunk[j]) then None
      else Some(Put(rows, start, chunk))
  }

  function Put(rows: map<nat, Link>, start: nat, chunk: seq<Link>): map<nat, Link>
    decreases chunk
  {
    if chunk == [] then rows else Put(rows[start := chunk[0]], start + 1, chunk[1..])
  }

  function ExecLinks(rows: map<nat, Link>, ss: seq<LinkStmt>): Option<map<nat, Link>>
    decreases ss
  {
    if ss == [] then Some(rows)
    else
      match ExecLink(rows, ss[0])
      case None => None
      case Some(next) => ExecLinks(next, ss[1..])
  }

  /** The first `n` links at positions 0 to n-1. */
  function Placed(ls: seq<Link>, n: nat): map<nat, Link>
    requires n <= |ls|
  {
    map i | 0 <= i < n :: ls[i]
  }

  lemma {:induction false} ExecLinksPlus(rows: map<nat, Link>, a: seq<LinkStmt>, s: LinkStmt)
    ensures ExecLinks(rows, a + [s]) ==
              match ExecLinks(rows, a)
              case None => None
              case Some(mid) => ExecLink(mid, s)
    decreases a
  {
    hide ExecLink;
    if a == [] {
      assert a + [s] == [s] && [s][1..] == [];
    } else {
      assert (a + [s])[1..] == a[1..] + [s];
      match ExecLink(rows, a[0])
      case None =>
      case Some(next) => ExecLinksPlus(next, a[1..], s);
    }
  }

  lemma ChunkPlaced(ls: seq<Link>, doc: string, i: nat, end: nat)
    requires i <= end <= |ls| && forall j, k | 0 <= j < k < |ls| :: ls[j] != ls[k]
    ensures ExecLink(Placed(ls, i), InsertRows(doc, i, ls[i..end])) == Some(Placed(ls, end))
  {
    forall j | 0 <= j < |ls[i..end]|
      ensures ls[i..end][j] !in Placed(ls, i).Values
    {
      forall k | k in Placed(ls, i)
        ensures Placed(ls, i)[k] != ls[i + j]
      {
      }
    }
    PutPlaced(ls, i, end);
  }

  lemma {:induction false} PutPlaced(ls: seq<Link>, i: nat, end: nat)
    requires i <= end <= |ls|
    ensures Put(Placed(ls, i), i, ls[i..end]) == Placed(ls, end)
    decreases end - i
  {
    if i < end {
      assert Placed(ls, i)[i := ls[i]] == Placed(ls, i + 1);
      assert ls[i..end][1..] == ls[i + 1..end];
      PutPlaced(ls, i + 1, end);
    }
  }

  /** The delete and the chunked inserts: run on any rows, they leave exactly the
      given links in their order. */
  method LinkSyncStatements(doc: string, links: seq<Link>) returns (statements: seq<LinkStmt>)
    requires forall j, k | 0 <= j < k < |links| :: links[j] != links[k]
    ensures forall rows :: ExecLinks(rows, statements) == Some(Placed(links, |links|))
    ensures forall i | 0 <= i < |statements| && statements[i].InsertRows? :: 0 < |statements[i].chunk| <= LINK_INSERT_CHUNK
  {
    hide ExecLink, ExecLinks, Placed;
    statements := [DeleteRows(doc)];
    forall rows
      ensures ExecLinks(rows, statements) == Some(Placed(links, 0))
    {
      Cleared(rows, doc, links);
    }
    var i := 0;
    while i < |links|
      invariant 0 <= i
      invariant forall rows :: ExecLinks(rows, statements) == Some(Placed(links, if i < |links| then i else |links|))
      invariant forall k | 0 <= k < |statements| && statements[k].InsertRows? :: 0 < |statements[k].chunk| <= LINK_INSERT_CHUNK
    {
      var end := if i + LINK_INSERT_CHUNK < |links| then i + LINK_INSERT_CHUNK else |links|;
      var insert := InsertRows(doc, i, links[i..end]);
      ChunkPlaced(links, doc, i, end);
      forall rows
        ensures ExecLinks(rows, statements + [insert]) == Some(Placed(links, end))
      {
        ExecLinksPlus(rows, statements, insert);
      }
      statements := statements + [insert];
      i := i + LINK_INSERT_CHUNK;
    }
  }

  lemma Cleared(rows: map<nat, Link>, doc: string, links: seq<Link>)
    ensures ExecLinks(rows, [DeleteRows(doc)]) == Some(Placed(links, 0))
  {
    assert [DeleteRows(doc)][1..] == [];
    assert Placed(links, 0) == map[];
  }

  // ---- resolving -------------------------------------------------------------

  datatype LinkState = LiveTarget | RedirectedTarget | RetiredTarget | RevokedTarget | MissingTarget

  datatype OutboundLink = OutboundLink(link: Link, state: LinkState, target: Option<string>, title: Option<string>)

  ghost predicate UniqueNames(db: Db) {
    forall a, b | a in db.docs && b in db.docs && a != b && db.docs[a].Live() && db.docs[b].Live() && db.docs[a].slug.Some? ::
      db.docs[a].slug != db.docs[b].slug
  }

  ghost predicate UniquePublicIds(db: Db) {
    forall a, b | a in db.docs && b in db.docs && a != b :: db.docs[a].publicId != db.docs[b].publicId
  }

  /** Live names and public ids name one document each. */
  ghost predicate OneEach(db: Db) { UniqueNames(db) && UniquePublicIds(db) }

  predicate HasSlug(db: Db, doc: string, name: string) {
    doc in db.docs && db.docs[doc].Live() && db.docs[doc].slug == Some(name)
  }

  predicate HasPublicId(db: Db, doc: string, publicId: string) {
    doc in db.docs && db.docs[doc].publicId == publicId
  }

  function CurrentTitle(db: Db, doc: string): Option<string> {
    if doc in db.docs && db.docs[doc].current.Some? && VerId(doc, db.docs[doc].current.value) in db.vers
    then db.vers[VerId(doc, db.docs[doc].current.value)].title else None
  }

  /** What an outbound entry says about a link, seen against the documents now. */
  ghost predicate Resolves(db: Db, l: Link, o: OutboundLink) {
    && o.link == l
    && match l
       case ToSlug(name) =>
         if exists d :: HasSlug(db, d, name) then
           exists d :: HasSlug(db, d, name) && o.state.LiveTarget? && o.target == Some(db.docs[d].publicId) && o.title == CurrentTitle(db, d)
         else if name in db.tombs then
           && o.state == (if db.tombs[name].redirect.Some? then RedirectedTarget else RetiredTarget)
           && o.target == db.tombs[name].redirect && o.title.None?
         else o == OutboundLink(l, MissingTarget, None, None)
       case ToPublicId(p) =>
         if exists d :: HasPublicId(db, d, p) then
           exists d :: HasPublicId(db, d, p) &&
             if db.docs[d].Live() then o == OutboundLink(l, LiveTarget, Some(p), CurrentTitle(db, d))
             else o == OutboundLink(l, RevokedTarget, None, None)
         else o == OutboundLink(l, MissingTarget, None, None)
  }

  /** The answers of a chunked `in (…)` lookup: each name found, mapped to one of
      the documents that answer to it. */
  ghost predicate Answers(db: Db, hit: (Db, string, string) -> bool, names: seq<string>, found: map<string, string>) {
    && (forall n | n in found :: hit(db, found[n], n))
    && (forall n | n in names && n !in found :: forall d | d in db.docs :: !hit(db, d, n))
  }

  method LookUp(db: Db, hit: (Db, string, string) -> bool, names: seq<string>) returns (found: map<string, string>)
    requires forall d, n | hit(db, d, n) :: d in db.docs
    ensures Answers(db, hit, names, found)
  {
    found := map[];
    var i := 0;
    while i < |names|
      invariant 0 <= i && Answers(db, hit, names[..if i < |names| then i else |names|], found)
    {
      var end := if i + LINK_RESOLVE_CHUNK < |names| then i + LINK_RESOLVE_CHUNK else |names|;
      var chunk := names[i..end];
      var rows := set d, n | d in db.docs && n in chunk && hit(db, d, n) :: (d, n);
      assert names[..end] == names[..i] + chunk;
      found := Filled(db, hit, names[..i], chunk, rows, found);
      i := i + LINK_RESOLVE_CHUNK;
    }
    assert names[..|names|] == names;
  }

  /** The rows of one chunk go into the map, in whatever order they come. */
  method Filled(db: Db, hit: (Db, string, string) -> bool, before: seq<string>, chunk: seq<string>, rows: set<(string, string)>,
                found: map<string, string>) returns (more: map<string, string>)
    requires Answers(db, hit, before, found)
    requires forall d, n :: (d, n) in rows <==> d in db.docs && n in chunk && hit(db, d, n)
    ensures Answers(db, hit, before + chunk, more)
  {
    more := found;
    var left := rows;
    while left != {}
      invariant left <= rows && found.Keys <= more.Keys
      invariant forall n | n in more :: hit(db, more[n], n)
      invariant forall d, n | (d, n) in rows && (d, n) !in left :: n in more
      decreases left
    {
      var row :| row in left;
      assert (row.0, row.1) == row;
      more, left := more[row.1 := row.0], left - {row};
    }
    forall n | n in before + chunk && n !in more
      ensures forall d | d in db.docs :: !hit(db, d, n)
    {
      forall d | d in db.docs
        ensures !hit(db, d, n)
      {
        assert (d, n) !in rows;
      }
    }
  }

  function SlugTargets(ls: seq<Link>): (names: seq<string>)
    ensures forall i | 0 <= i < |ls| && ls[i].ToSlug? :: ls[i].value in names
  {
    if ls == [] then [] else (if ls[0].ToSlug? then [ls[0].value] else []) + SlugTargets(ls[1..])
  }

  function PublicIdTargets(ls: seq<Link>): (names: seq<string>)
    ensures forall i | 0 <= i < |ls| && ls[i].ToPublicId? :: ls[i].value in names
  {
    if ls == [] then [] else (if ls[0].ToPublicId? then [ls[0].value] else []) + PublicIdTargets(ls[1..])
  }

  /** The outbound half of documentLinksCore: three batched lookups, then one
      entry for each stored link, in order. */
  method Outbound(db: Db, stored: seq<Link>) returns (outbound: seq<OutboundLink>)
    ensures |outbound| == |stored| && forall i | 0 <= i < |stored| :: Resolves(db, stored[i], outbound[i])
  {
    hide SlugTargets, PublicIdTargets, CurrentTitle;
    var liveBySlug := LookUp(db, HasSlug, SlugTargets(stored));
    var byPid := LookUp(db, HasPublicId, PublicIdTargets(stored));
    outbound := [];
    for i := 0 to |stored|
      invariant |outbound| == i && forall k | 0 <= k < i :: Resolves(db, stored[k], outbound[k])
    {
      var l := stored[i];
      var o;
      if l.ToSlug? {
        if l.value in liveBySlug {
          var d := liveBySlug[l.value];
          assert HasSlug(db, d, l.value);
          o := OutboundLink(l, LiveTarget, Some(db.docs[d].publicId), CurrentTitle(db, d));
        } else if l.value in db.tombs {
          var redirectTo := db.tombs[l.value].redirect;
          o := OutboundLink(l, if redirectTo.Some? then RedirectedTarget else RetiredTarget, redirectTo, None);
        } else {
          o := OutboundLink(l, MissingTarget, None, None);
        }
      } else if l.value !in byPid {
        o := OutboundLink(l, MissingTarget, None, None);
      } else {
        var d := byPid[l.value];
        assert HasPublicId(db, d, l.value);
        o := if db.docs[d].Live() then OutboundLink(l, LiveTarget, Some(l.value), CurrentTitle(db, d))
             else OutboundLink(l, RevokedTarget, None, None);
      }
      assert Resolves(db, l, o);
      outbound := outbound + [o];
    }
  }

  // ---- the three queries -----------------------------------------------------

  predicate IsLive(db: Db, d: string) { d in db.docs && db.docs[d].Live() }

  /** `document_links` joined with the documents on the source. */
  function Joined(g: Graph): set<(string, Link)> {
    set s, i | s in g.links && s in g.db.docs && i in g.links[s] :: (s, g.links[s][i])
  }

  /** SQL's `=` between a value and a column that may be null. */
  predicate SqlEq(value: string, column: Option<string>) {
    column.Some? && column.value == value
  }

  /** `a` comes before `b` where the newest come first. */
  predicate Newer(db: Db, a: string, b: string) {
    && a in db.docs && b in db.docs
    && Corpus.KeyLess(Corpus.WalkKey(db.docs[b].createdAt, b), Corpus.WalkKey(db.docs[a].createdAt, a))
  }

  function Ahead(db: Db, rows: set<string>, d: string): set<string> {
    set x | x in rows && Newer(db, x, d)
  }

  /** `order by created_at desc, id desc limit 200`, as the set it returns. */
  function Newest(db: Db, rows: set<string>): set<string> {
    set d | d in rows && |Ahead(db, rows, d)| < LISTING_LIMIT
  }

  /** The clauses the backlink query is built from: the public id, and the name if
      there is one. */
  function TargetClauses(doc: Doc): seq<Link> {
    var clauses := [ToPublicId(doc.publicId)];
    if doc.slug.Some? then clauses + [ToSlug(doc.slug.value)] else clauses
  }

  /** `select distinct` over the rows that match a clause. */
  function Matching(g: Graph, d: string): set<string>
    requires d in g.db.docs
  {
    set row | row in Joined(g) && row.1 in TargetClauses(g.db.docs[d]) && g.db.docs[row.0].Live() && row.0 != d :: row.0
  }

  function Backlinks(g: Graph, d: string): set<string>
    requires d in g.db.docs
  {
    Newest(g.db, Matching(g, d))
  }

  /** `not exists` over the same rows, the target's columns compared in SQL. */
  function Unlinked(g: Graph): set<string> {
    set d | d in g.db.docs && g.db.docs[d].Live() &&
      !exists row :: row in Joined(g) && g.db.docs[row.0].Live() && row.0 != d &&
        match row.1
        case ToPublicId(value) => value == g.db.docs[d].publicId
        case ToSlug(value) => SqlEq(value, g.db.docs[d].slug)
  }

  function ListOrphanDocuments(g: Graph): set<string> { Newest(g.db, Unlinked(g)) }

  /** `order by position`: `ps` are a document's positions, ascending. */
  ghost predicate ByPosition(rows: map<nat, Link>, ps: seq<nat>, stored: seq<Link>) {
    && |stored| == |ps|
    && (forall i, j | 0 <= i < j < |ps| :: ps[i] < ps[j])
    && (forall p | p in rows :: p in ps)
    && (forall i | 0 <= i < |ps| :: ps[i] in rows && stored[i] == rows[ps[i]])
  }

  /** The primary key of `document_links`: a document links a target once. */
  ghost predicate Keyed(rows: map<nat, Link>) {
    forall p, q | p in rows && q in rows && p != q :: rows[p] != rows[q]
  }

  function RowsOf(g: Graph, s: string): map<nat, Link> {
    if s in g.links then g.links[s] else map[]
  }

  method StoredLinks(rows: map<nat, Link>) returns (stored: seq<Link>, ghost ps: seq<nat>)
    ensures ByPosition(rows, ps, stored)
  {
    var left := rows.Keys;
    ghost var top := Above(left);
    var n := 0;
    stored, ps := [], [];
    while left != {}
      invariant left <= rows.Keys && n <= top && forall p | p in left :: n <= p < top
      invariant forall p | p in rows :: p in left || p in ps
      invariant forall i, j | 0 <= i < j < |ps| :: ps[i] < ps[j]
      invariant |stored| == |ps| && forall i | 0 <= i < |ps| :: ps[i] < n && ps[i] in rows && stored[i] == rows[ps[i]]
      decreases top - n
    {
      if n in left {
        stored, left := stored + [rows[n]], left - {n};
        ps := ps + [n];
      }
      n := n + 1;
    }
  }

  lemma {:induction false} Above(ns: set<nat>) returns (top: nat)
    ensures forall n | n in ns :: n < top
    decreases ns
  {
    if ns == {} {
      top := 0;
    } else {
      var n :| n in ns;
      var rest := Above(ns - {n});
      top := if n < rest then rest else n + 1;
      assert ns == (ns - {n}) + {n};
    }
  }

  datatype DocumentLinks = DocumentLinks(backlinks: set<string>, outbound: seq<OutboundLink>)

  /** What the outbound half owes for a document. */
  ghost predicate IsOutbound(g: Graph, s: string, out: seq<OutboundLink>) {
    exists ps, stored :: ResolvedFrom(g, s, ps, stored, out)
  }

  ghost predicate ResolvedFrom(g: Graph, s: string, ps: seq<nat>, stored: seq<Link>, out: seq<OutboundLink>) {
    && ByPosition(RowsOf(g, s), ps, stored) && |out| == |stored|
    && forall i | 0 <= i < |stored| :: Resolves(g.db, stored[i], out[i])
  }

  method DocumentLinksCore(g: Graph, d: string) returns (r: Option<DocumentLinks>)
    ensures r.Some? <==> IsLive(g.db, d)
    ensures r.Some? ==> r.value.backlinks == Backlinks(g, d) && IsOutbound(g, d, r.value.outbound)
  {
    hide ByPosition, Resolves, Backlinks;
    if !IsLive(g.db, d) {
      return None;
    }
    var stored, ps := StoredLinks(RowsOf(g, d));
    var outbound := Outbound(g.db, stored);
    assert ResolvedFrom(g, d, ps, stored, outbound);
    r := Some(DocumentLinks(Backlinks(g, d), outbound));
  }

  // ---- both directions -------------------------------------------------------

  /** A live entry for the document. */
  ghost predicate Lists(out: seq<OutboundLink>, publicId: string) {
    exists i :: 0 <= i < |out| && out[i].state.LiveTarget? && out[i].target == Some(publicId)
  }

  lemma MatchesAre(g: Graph, s: string, d: string)
    requires d in g.db.docs
    ensures s in Matching(g, d) <==>
              IsLive(g.db, s) && s != d && exists l :: l in RowsOf(g, s).Values && l in TargetClauses(g.db.docs[d])
  {
    if s in Matching(g, d) {
      var row :| row in Joined(g) && row.1 in TargetClauses(g.db.docs[d]) && g.db.docs[row.0].Live() && row.0 != d && row.0 == s;
      assert row.1 in RowsOf(g, s).Values;
    }
    if IsLive(g.db, s) && s != d {
      forall l | l in RowsOf(g, s).Values && l in TargetClauses(g.db.docs[d])
        ensures s in Matching(g, d)
      {
        var i :| i in RowsOf(g, s) && RowsOf(g, s)[i] == l;
        assert (s, l) in Joined(g);
      }
    }
  }

  /** A stored link gives a live entry for `d` exactly when it is one of the clauses
      `d` is looked up by. */
  lemma EntryIsClause(db: Db, l: Link, o: OutboundLink, d: string)
    requires OneEach(db) && IsLive(db, d) && Resolves(db, l, o)
    ensures o.state.LiveTarget? && o.target == Some(db.docs[d].publicId) <==> l in TargetClauses(db.docs[d])
  {
    hide CurrentTitle;
    match l {
      case ToSlug(name) =>
        if db.docs[d].slug == Some(name) {
          assert HasSlug(db, d, name);
        }
      case ToPublicId(p) =>
        if p == db.docs[d].publicId {
          assert HasPublicId(db, d, p);
        }
    }
  }

  /** The stored list holds exactly the rows' links. */
  lemma StoredAreRows(rows: map<nat, Link>, ps: seq<nat>, stored: seq<Link>, l: Link)
    requires ByPosition(rows, ps, stored)
    ensures l in rows.Values <==> exists i :: 0 <= i < |stored| && stored[i] == l
  {
    if l in rows.Values {
      var p :| p in rows && rows[p] == l;
      assert p in ps;
      var i :| 0 <= i < |ps| && ps[i] == p;
      assert stored[i] == l;
    }
    forall i | 0 <= i < |stored| && stored[i] == l
      ensures l in rows.Values
    {
      assert rows[ps[i]] == l;
    }
  }

  /** Before the cap: `s` matches the backlink query of `d` exactly when the list
      its own outbound half returns has a live entry for `d`. */
  lemma MatchIffListed(g: Graph, s: string, d: string, out: seq<OutboundLink>)
    requires OneEach(g.db) && IsLive(g.db, s) && IsLive(g.db, d) && s != d && IsOutbound(g, s, out)
    ensures s in Matching(g, d) <==> Lists(out, g.db.docs[d].publicId)
  {
    hide Resolves, Matching, TargetClauses, OneEach, ByPosition, RowsOf;
    var ps, stored :| ResolvedFrom(g, s, ps, stored, out);
    var doc := g.db.docs[d];
    MatchesAre(g, s, d);
    if s in Matching(g, d) {
      var l :| l in RowsOf(g, s).Values && l in TargetClauses(doc);
      StoredAreRows(RowsOf(g, s), ps, stored, l);
      var i :| 0 <= i < |stored| && stored[i] == l;
      EntryIsClause(g.db, stored[i], out[i], d);
    }
    if Lists(out, doc.publicId) {
      var i :| 0 <= i < |out| && out[i].state.LiveTarget? && out[i].target == Some(doc.publicId);
      EntryIsClause(g.db, stored[i], out[i], d);
      StoredAreRows(RowsOf(g, s), ps, stored, stored[i]);
    }
  }

  /** Link-graph duality: among distinct live documents, `s` is returned as a
      backlink of `d` exactly when the outbound list of `s`, whichever of its
      possible answers it gives, has a live entry for `d` and fewer than two
      hundred newer documents link there. */
  lemma BacklinkIffLiveOutbound(g: Graph, s: string, d: string, out: seq<OutboundLink>)
    requires OneEach(g.db) && IsLive(g.db, s) && IsLive(g.db, d) && s != d && IsOutbound(g, s, out)
    ensures s in Backlinks(g, d) <==>
              Lists(out, g.db.docs[d].publicId) && |Ahead(g.db, Matching(g, d), s)| < LISTING_LIMIT
  {
    hide Matching, IsOutbound, Lists, OneEach, Ahead;
    MatchIffListed(g, s, d, out);
  }

  /** The newest of some documents, with none ahead of it. */
  lemma {:induction false} NewestOf(db: Db, rows: set<string>) returns (d: string)
    requires rows != {} && rows <= db.docs.Keys
    ensures d in rows && Ahead(db, rows, d) == {}
    decreases rows
  {
    hide Corpus.KeyLess;
    var x :| x in rows;
    var rest := rows - {x};
    NotNewer(db, x, x);
    if rest == {} {
      assert rows == {x};
      return x;
    }
    var y := NewestOf(db, rest);
    d := if Newer(db, x, y) then x else y;
    forall z | z in rows
      ensures !Newer(db, z, d)
    {
      if z in rest {
        assert z !in Ahead(db, rest, y);
      }
      if Newer(db, z, x) && Newer(db, x, y) {
        NewerStill(db, z, x, y);
      }
    }
  }

  lemma NotNewer(db: Db, x: string, y: string)
    ensures !(Newer(db, x, y) && Newer(db, y, x))
  {
    hide Corpus.KeyLess;
    if Newer(db, x, y) {
      Corpus.KeyLessOneWay(Corpus.WalkKey(db.docs[y].createdAt, y), Corpus.WalkKey(db.docs[x].createdAt, x));
    }
  }

  lemma NewerStill(db: Db, x: string, y: string, z: string)
    requires Newer(db, x, y) && Newer(db, y, z)
    ensures Newer(db, x, z)
  {
    hide Corpus.KeyLess;
    Export.KeyLessTrans(Corpus.WalkKey(db.docs[z].createdAt, z), Corpus.WalkKey(db.docs[y].createdAt, y),
                        Corpus.WalkKey(db.docs[x].createdAt, x));
  }

  /** A capped listing is empty only when there is nothing to list. */
  lemma NewestIsEmpty(db: Db, rows: set<string>)
    requires rows <= db.docs.Keys
    ensures Newest(db, rows) == {} <==> rows == {}
  {
    hide Newer;
    if rows != {} {
      var d := NewestOf(db, rows);
      assert d in Newest(db, rows);
    }
  }

  /** The `not exists` of the orphan query and the clauses of the backlink query
      select the same documents. */
  lemma UnlinkedIsUnmatched(g: Graph, d: string)
    requires IsLive(g.db, d)
    ensures d in Unlinked(g) <==> Matching(g, d) == {}
  {
    var doc := g.db.docs[d];
    forall row: (string, Link)
      ensures row.1 in TargetClauses(doc) <==>
                match row.1
                case ToPublicId(value) => value == doc.publicId
                case ToSlug(value) => SqlEq(value, doc.slug)
    {
    }
    hide TargetClauses, SqlEq;
    if d !in Unlinked(g) {
      var row :| row in Joined(g) && g.db.docs[row.0].Live() && row.0 != d && row.1 in TargetClauses(doc);
      assert row.0 in Matching(g, d);
    }
  }

  /** A live document that no backlink is returned for is an orphan, and the orphan
      list holds the two hundred newest of these and nothing else. */
  lemma OrphanIffNoBacklinks(g: Graph, d: string)
    requires IsLive(g.db, d)
    ensures d in ListOrphanDocuments(g) <==>
              Backlinks(g, d) == {} && |Ahead(g.db, Unlinked(g), d)| < LISTING_LIMIT
  {
    UnlinkedIsUnmatched(g, d);
    NewestIsEmpty(g.db, Matching(g, d));
    hide Matching, Unlinked, Ahead;
  }

  /** Without unique live names duality fails: with a name held twice and linked
      once, both holders count the source among their backlinks, but whatever its
      outbound list is, it misses one of them. */
  lemma SharedNamesBreakDuality(g: Graph, s: string, a: string, b: string, name: string, out: seq<OutboundLink>)
    requires UniquePublicIds(g.db) && a != b && HasSlug(g.db, a, name) && HasSlug(g.db, b, name)
    requires IsLive(g.db, s) && s != a && s != b && Keyed(RowsOf(g, s)) && IsOutbound(g, s, out)
    requires
      var ls := RowsOf(g, s).Values;
      ToSlug(name) in ls && ToPublicId(g.db.docs[a].publicId) !in ls && ToPublicId(g.db.docs[b].publicId) !in ls
    ensures s in Matching(g, a) && s in Matching(g, b)
    ensures !(Lists(out, g.db.docs[a].publicId) && Lists(out, g.db.docs[b].publicId))
  {
    hide Matching, TargetClauses, CurrentTitle;
    MatchesAre(g, s, a);
    MatchesAre(g, s, b);
    NameIsClause(g.db.docs[a], name);
    NameIsClause(g.db.docs[b], name);
    var pa, pb := g.db.docs[a].publicId, g.db.docs[b].publicId;
    if Lists(out, pa) && Lists(out, pb) {
      var ps, stored :| ResolvedFrom(g, s, ps, stored, out);
      var i :| 0 <= i < |out| && out[i].state.LiveTarget? && out[i].target == Some(pa);
      var j :| 0 <= j < |out| && out[j].state.LiveTarget? && out[j].target == Some(pb);
      assert RowsOf(g, s)[ps[i]] == stored[i] && RowsOf(g, s)[ps[j]] == stored[j];
      EntryOfHolder(g.db, stored[i], out[i], a, name);
      EntryOfHolder(g.db, stored[j], out[j], b, name);
      assert false;
    }
  }

  lemma NameIsClause(doc: Doc, name: string)
    requires doc.slug == Some(name)
    ensures ToSlug(name) in TargetClauses(doc)
  {
    assert TargetClauses(doc)[1] == ToSlug(name);
  }

  /** A live entry for a holder comes from its public id or its name. */
  lemma EntryOfHolder(db: Db, l: Link, o: OutboundLink, d: string, name: string)
    requires UniquePublicIds(db) && HasSlug(db, d, name) && Resolves(db, l, o)
    requires o.state.LiveTarget? && o.target == Some(db.docs[d].publicId)
    ensures l == ToSlug(name) || l == ToPublicId(db.docs[d].publicId)
  {
    hide CurrentTitle;
  }

  /** `ls` are the elements of `all` at the positions `ps`. */
  ghost predicate Picks(all: seq<Link>, ps: seq<nat>, ls: seq<Link>) {
    && |ps| == |ls|
    && (forall i | 0 <= i < |ps| :: ps[i] < |all| && ls[i] == all[ps[i]])
    && (forall i, j | 0 <= i < j < |ps| :: ps[i] < ps[j])
  }

  function Shifted(ps: seq<nat>): (r: seq<nat>)
    ensures |r| == |ps| && forall i | 0 <= i < |ps| :: r[i] == ps[i] + 1
  {
    seq(|ps|, i requires 0 <= i < |ps| => ps[i] + 1)
  }

  lemma PicksLater(all: seq<Link>, ps: seq<nat>, ls: seq<Link>)
    requires all != [] && Picks(all[1..], ps, ls)
    ensures Picks(all, Shifted(ps), ls) && Picks(all, [0] + Shifted(ps), [all[0]] + ls)
  {
  }

  /** Every link to another document stands at one of the positions. */
  ghost predicate PicksAll(all: seq<Link>, publicId: string, slug: Option<string>, ps: seq<nat>) {
    forall q | 0 <= q < |all| && !SelfLink(all[q], publicId, slug) :: exists i :: 0 <= i < |ps| && ps[i] == q
  }

  lemma PicksAllLater(all: seq<Link>, publicId: string, slug: Option<string>, rest: seq<nat>, ps: seq<nat>)
    requires all != [] && PicksAll(all[1..], publicId, slug, rest)
    requires ps == if SelfLink(all[0], publicId, slug) then Shifted(rest) else [0] + Shifted(rest)
    ensures PicksAll(all, publicId, slug, ps)
  {
    hide SelfLink;
    forall q | 0 <= q < |all| && !SelfLink(all[q], publicId, slug)
      ensures exists i :: 0 <= i < |ps| && ps[i] == q
    {
      if q == 0 {
        assert ps[0] == 0;
      } else {
        assert all[q] == all[1..][q - 1];
        var i :| 0 <= i < |rest| && rest[i] == q - 1;
        assert Shifted(rest)[i] == q;
        assert ps[|ps| - |rest| + i] == q;
      }
    }
  }

  lemma {:induction false} PicksOthers(all: seq<Link>, publicId: string, slug: Option<string>) returns (ps: seq<nat>)
    ensures Picks(all, ps, WithoutSelf(all, publicId, slug)) && PicksAll(all, publicId, slug, ps)
    decreases all
  {
    hide SelfLink, Picks, PicksAll;
    if all == [] {
      ps := [];
      NothingPicked(publicId, slug);
    } else {
      var rest := PicksOthers(all[1..], publicId, slug);
      ps := if SelfLink(all[0], publicId, slug) then Shifted(rest) else [0] + Shifted(rest);
      var others := WithoutSelf(all[1..], publicId, slug);
      PicksLater(all, rest, others);
      PicksAllLater(all, publicId, slug, rest, ps);
      assert [] + others == others;
    }
  }

  lemma NothingPicked(publicId: string, slug: Option<string>)
    ensures Picks([], [], []) && PicksAll([], publicId, slug, [])
  {
  }

  /** At one of the positions, or behind the last of `most`. */
  ghost predicate Kept(ps: seq<nat>, q: nat, most: nat)
    requires most > 0
  {
    (exists i :: 0 <= i < |ps| && ps[i] == q) || (|ps| == most && ps[most - 1] < q)
  }

  lemma FirstKept(all: seq<Link>, ps: seq<nat>, ls: seq<Link>, publicId: string, slug: Option<string>, most: nat)
    requires most > 0 && Picks(all, ps, ls) && PicksAll(all, publicId, slug, ps) && |ps| > most
    ensures Picks(all, ps[..most], ls[..most])
    ensures forall q | 0 <= q < |all| && !SelfLink(all[q], publicId, slug) :: Kept(ps[..most], q, most)
  {
    hide SelfLink;
    var first := ps[..most];
    forall q | 0 <= q < |all| && !SelfLink(all[q], publicId, slug)
      ensures Kept(first, q, most)
    {
      var i :| 0 <= i < |ps| && ps[i] == q;
      if i < most {
        assert first[i] == q;
      } else {
        assert first[most - 1] == ps[most - 1];
      }
    }
  }

  /** The stored list keeps the page's order: it is the links to others in the
      order they stand in, and when there are too many, the first two hundred. */
  lemma StoredLinksKeepOrder(outbound: seq<Link>, publicId: string, slug: Option<string>) returns (ps: seq<nat>)
    ensures Picks(outbound, ps, ExtractDocumentLinks(outbound, publicId, slug))
    ensures forall q | 0 <= q < |outbound| && !SelfLink(outbound[q], publicId, slug) :: Kept(ps, q, 200)
  {
    hide SelfLink, Picks;
    ps := PicksOthers(outbound, publicId, slug);
    var others := WithoutSelf(outbound, publicId, slug);
    assert |ps| == |others| by { SameNumber(outbound, ps, others); }
    if |ps| > MAX_DOCUMENT_LINKS {
      FirstKept(outbound, ps, others, publicId, slug, MAX_DOCUMENT_LINKS);
      ps := ps[..MAX_DOCUMENT_LINKS];
    }
  }

  lemma SameNumber(all: seq<Link>, ps: seq<nat>, ls: seq<Link>)
    requires Picks(all, ps, ls)
    ensures |ps| == |ls|
  {
  }

  /** Stored links never include the document itself under the names it had when
      they were stored, and at most two hundred of them. */
  lemma StoredLinksLeaveItself(outbound: seq<Link>, publicId: string, slug: Option<string>)
    ensures
      var ls := ExtractDocumentLinks(outbound, publicId, slug);
      && |ls| <= MAX_DOCUMENT_LINKS && ls <= WithoutSelf(outbound, publicId, slug)
      && (forall l | l in ls :: l in outbound && !SelfLink(l, publicId, slug))
      && (|WithoutSelf(outbound, publicId, slug)| <= MAX_DOCUMENT_LINKS ==>
            forall l | l in outbound && !SelfLink(l, publicId, slug) :: l in ls)
  {
  }
}
