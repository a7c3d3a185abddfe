/** The export walk: one page at a time over five tables, resumed by a cursor
    (exportBackupPage in src/backup.ts). */
module Export {
  import opened Records
  import opened Corpus

  /** An empty `ts` means the start of the phase. */
  datatype Cursor = Cursor(phase: Phase, ts: string, id: string)

  datatype Page = Page(header: bool, units: seq<Unit>, footer: bool, next: Option<Cursor>)

  function AfterKey(rows: seq<Unit>, key: WalkKey): seq<Unit> {
    if rows == [] then []
    else (if KeyLess(key, rows[0].At()) then [rows[0]] else []) + AfterKey(rows[1..], key)
  }

  function After(rows: seq<Unit>, key: Option<WalkKey>): seq<Unit> {
    if key.Some? then AfterKey(rows, key.value) else rows
  }

  /** fetchPhase: the first `take` rows past a key, in walk order. */
  function FetchPhase(t: Tables, p: Phase, key: Option<WalkKey>, take: nat): seq<Unit> {
    var rows := After(t.Rows(p), key);
    if take < |rows| then rows[..take] else rows
  }

  function KeyOf(c: Cursor): Option<WalkKey> {
    if c.ts == "" then None else Some(WalkKey(c.ts, c.id))
  }

  /** The units a walk resumed at a cursor has still to emit. */
  function Rest(t: Tables, cursor: Option<Cursor>): seq<Unit> {
    match cursor
    case None => t.All()
    case Some(c) => After(t.Rows(c.phase), KeyOf(c)) + t.Later(c.phase)
  }

  // ---- resuming past a row ---------------------------------------------------

  ghost predicate Ascending(rows: seq<Unit>) {
    forall i, j | 0 <= i < j < |rows| :: KeyLess(rows[i].At(), rows[j].At())
  }

  lemma {:induction false} AfterAll(rows: seq<Unit>, key: WalkKey)
    requires forall i | 0 <= i < |rows| :: KeyLess(key, rows[i].At())
    ensures AfterKey(rows, key) == rows
    decreases rows
  {
    if rows != [] {
      AfterAll(rows[1..], key);
      assert [rows[0]] + rows[1..] == rows;
    }
  }

  /** Past a row's own key come exactly the rows that follow it. */
  lemma {:induction false} AfterRow(rows: seq<Unit>, i: nat)
    requires Ascending(rows) && i < |rows|
    ensures AfterKey(rows, rows[i].At()) == rows[i + 1..]
    decreases rows
  {
    if i == 0 {
      if KeyLess(rows[0].At(), rows[0].At()) {
        KeyLessOneWay(rows[0].At(), rows[0].At());
      }
      AfterAll(rows[1..], rows[0].At());
    } else {
      KeyLessOneWay(rows[0].At(), rows[i].At());
      AfterRow(rows[1..], i - 1);
      assert rows[1..][i..] == rows[i + 1..];
    }
  }

  /** What is past a key is a tail of the table. */
  lemma {:induction false} AfterIsTail(rows: seq<Unit>, key: WalkKey) returns (n: nat)
    requires Ascending(rows)
    ensures n <= |rows| && AfterKey(rows, key) == rows[n..]
    decreases rows
  {
    if rows == [] {
      n := 0;
    } else if KeyLess(key, rows[0].At()) {
      n := AfterIsTail(rows[1..], key);
      Above(rows, key);
      AfterAll(rows, key);
      n := 0;
    } else {
      n := AfterIsTail(rows[1..], key);
      assert rows[1..][n..] == rows[n + 1..];
      n := n + 1;
    }
  }

  lemma Above(rows: seq<Unit>, key: WalkKey)
    requires Ascending(rows) && rows != [] && KeyLess(key, rows[0].At())
    ensures forall i | 0 <= i < |rows| :: KeyLess(key, rows[i].At())
  {
    forall i | 0 <= i < |rows|
      ensures KeyLess(key, rows[i].At())
    {
      if i > 0 {
        KeyLessTrans(key, rows[0].At(), rows[i].At());
      }
    }
  }

  lemma {:induction false} TextLessTrans(a: string, b: string, c: string)
    requires TextLess(a, b) && TextLess(b, c)
    ensures TextLess(a, c)
    decreases a
  {
    if a != "" && a[0] == b[0] && b[0] == c[0] {
      TextLessTrans(a[1..], b[1..], c[1..]);
    }
  }

  lemma KeyLessTrans(a: WalkKey, b: WalkKey, c: WalkKey)
    requires KeyLess(a, b) && KeyLess(b, c)
    ensures KeyLess(a, c)
  {
    if TextLess(a.ts, b.ts) && TextLess(b.ts, c.ts) {
      TextLessTrans(a.ts, b.ts, c.ts);
    } else if a.ts == b.ts && b.ts == c.ts {
      TextLessTrans(a.id, b.id, c.id);
    }
  }

  /** A fetch of rows past a key, resumed past the last of them. */
  lemma ResumePast(rows: seq<Unit>, key: Option<WalkKey>, take: nat)
    requires Ascending(rows) && 0 < take <= |After(rows, key)|
    ensures
      var got := After(rows, key);
      After(rows, Some(got[take - 1].At())) == got[take..]
  {
    hide AfterKey;
    var n := 0;
    if key.Some? {
      n := AfterIsTail(rows, key.value);
    }
    ResumeTail(rows, n, take);
  }

  lemma ResumeTail(rows: seq<Unit>, n: nat, take: nat)
    requires Ascending(rows) && n + take <= |rows| && take > 0
    ensures AfterKey(rows, rows[n..][take - 1].At()) == rows[n..][take..]
  {
    hide AfterKey, Unit.At;
    AfterRow(rows, n + take - 1);
    assert rows[n..][take..] == rows[n + take..];
  }

  // ---- one page --------------------------------------------------------------

  /** What one page owes the cursor it was asked at. */
  ghost predicate IsPage(t: Tables, cursor: Option<Cursor>, limit: nat, page: Page) {
    && page.header == cursor.None? && page.footer == page.next.None?
    && Rest(t, cursor) == page.units + (if page.next.Some? then Rest(t, page.next) else [])
    && |page.units| <= limit && (page.next.Some? ==> |page.units| == limit)
  }

  method ExportPage(t: Tables, cursor: Option<Cursor>, limit: nat) returns (page: Page)
    requires t.Ordered() && limit >= 1
    ensures IsPage(t, cursor, limit, page)
  {
    hide After, FetchPhase, Rest, Tables.Later, Tables.Ordered, Tables.Rows, Ahead, Past, Unit.At;
    var units: seq<Unit> := [];
    var phase := if cursor.Some? then cursor.value.phase else Agents;
    var after := if cursor.Some? then KeyOf(cursor.value) else None;
    var remaining := limit;
    var next: Option<Cursor> := None;
    RestOf(t, cursor);
    assert [] + Ahead(t, phase, after) == Ahead(t, phase, after);
    while remaining > 0
      invariant 0 <= remaining <= limit && |units| == limit - remaining
      invariant Rest(t, cursor) == units + Ahead(t, phase, after)
      invariant next.None? ==> units == []
      invariant next.Some? ==> Rest(t, next) == Ahead(t, phase, after)
      decreases remaining, phase.Left()
    {
      var rows := FetchPhase(t, phase, after, remaining + 1);
      var take := if |rows| < remaining then |rows| else remaining;
      Taken(t, phase, after, remaining);
      assert units + (rows[..take] + Past(t, phase, after, take)) == units + rows[..take] + Past(t, phase, after, take);
      units := units + rows[..take];
      if take > 0 {
        next := Some(Cursor(phase, rows[take - 1].At().ts, rows[take - 1].At().id));
        RestOf(t, next);
      }
      remaining := remaining - take;
      if |rows| <= take {
        if phase.Next().None? {
          page := Page(cursor.None?, units, true, None);
          assert units + [] == units;
          return;
        }
        phase, after := phase.Next().value, None;
        next := Some(Cursor(phase, "", ""));
        RestOf(t, next);
      } else {
        after := KeyOf(next.value);
      }
    }
    page := Page(cursor.None?, units, false, next);
  }

  /** What is ahead of a position in the walk. */
  ghost function Ahead(t: Tables, p: Phase, key: Option<WalkKey>): seq<Unit> { After(t.Rows(p), key) + t.Later(p) }

  ghost function Past(t: Tables, p: Phase, key: Option<WalkKey>, take: nat): seq<Unit>
    requires take <= |After(t.Rows(p), key)|
  {
    After(t.Rows(p), key)[take..] + t.Later(p)
  }

  lemma RestOf(t: Tables, cursor: Option<Cursor>)
    ensures Rest(t, cursor) == if cursor.Some? then Ahead(t, cursor.value.phase, KeyOf(cursor.value)) else Ahead(t, Agents, None)
  {
  }

  /** One fetch, split into what the page takes and what stays ahead. */
  lemma Taken(t: Tables, p: Phase, key: Option<WalkKey>, remaining: nat)
    requires t.Ordered() && remaining > 0
    ensures
      var rows := FetchPhase(t, p, key, remaining + 1);
      var take := if |rows| < remaining then |rows| else remaining;
      && take <= |After(t.Rows(p), key)|
      && Ahead(t, p, key) == rows[..take] + Past(t, p, key, take)
      && (|rows| > take ==> take == remaining)
      && (take > 0 ==>
            var last := rows[take - 1].At();
            && KeyOf(Cursor(p, last.ts, last.id)) == Some(last)
            && Ahead(t, p, Some(last)) == Past(t, p, key, take))
      && (|rows| <= take ==> Past(t, p, key, take) == if p.Next().Some? then Ahead(t, p.Next().value, None) else [])
  {
    hide AfterKey, Tables.Ordered, Tables.Later, Tables.Rows;
    var rows, all := FetchPhase(t, p, key, remaining + 1), After(t.Rows(p), key);
    var take := if |rows| < remaining then |rows| else remaining;
    assert rows[..take] == all[..take];
    assert all == all[..take] + all[take..];
    assert all + t.Later(p) == all[..take] + (all[take..] + t.Later(p));
    LaterIs(t, p);
    if take > 0 {
      PhaseAscends(t, p);
      Stamped(t, p, key, take - 1);
      ResumePast(t.Rows(p), key, take);
    }
    if |rows| <= take {
      assert all[take..] == [];
      assert [] + t.Later(p) == t.Later(p);
    }
  }

  lemma PhaseAscends(t: Tables, p: Phase)
    requires t.Ordered()
    ensures Ascending(t.Rows(p))
  {
  }

  lemma LaterIs(t: Tables, p: Phase)
    ensures t.Later(p) == match p.Next() case None => [] case Some(q) => t.Rows(q) + t.Later(q)
  {
  }

  lemma Stamped(t: Tables, p: Phase, key: Option<WalkKey>, i: nat)
    requires t.Ordered() && i < |After(t.Rows(p), key)|
    ensures After(t.Rows(p), key)[i].At().ts != ""
  {
    PhaseAscends(t, p);
    if key.Some? {
      var n := AfterIsTail(t.Rows(p), key.value);
    }
  }

  // ---- the whole walk --------------------------------------------------------

  /** One page fetched at the cursor another left. */
  ghost predicate Follows(t: Tables, limit: nat, before: Page, page: Page) {
    before.next.Some? && IsPage(t, before.next, limit, page)
  }

  /** Pages fetched by following `next_cursor` until it is null. */
  ghost predicate IsWalk(t: Tables, cursor: Option<Cursor>, limit: nat, pages: seq<Page>) {
    && pages != [] && IsPage(t, cursor, limit, pages[0]) && pages[|pages| - 1].next.None?
    && forall i, j | 0 <= i < j < |pages| && j == i + 1 :: Follows(t, limit, pages[i], pages[j])
  }

  lemma WalkGoesOn(t: Tables, cursor: Option<Cursor>, limit: nat, pages: seq<Page>)
    requires IsWalk(t, cursor, limit, pages) && |pages| > 1
    ensures pages[0].next.Some? && IsWalk(t, pages[0].next, limit, pages[1..])
  {
    hide IsPage;
    assert Follows(t, limit, pages[0], pages[1]);
    forall i, j | 0 <= i < j < |pages[1..]| && j == i + 1
      ensures Follows(t, limit, pages[1..][i], pages[1..][j])
    {
      assert Follows(t, limit, pages[i + 1], pages[j + 1]);
    }
  }

  lemma WalkFrom(t: Tables, cursor: Option<Cursor>, limit: nat, page: Page, more: seq<Page>)
    requires IsPage(t, cursor, limit, page) && page.next.Some? && IsWalk(t, page.next, limit, more)
    ensures IsWalk(t, cursor, limit, [page] + more)
  {
    hide IsPage;
    var pages := [page] + more;
    forall i, j | 0 <= i < j < |pages| && j == i + 1
      ensures Follows(t, limit, pages[i], pages[j])
    {
      if i > 0 {
        assert Follows(t, limit, more[i - 1], more[j - 1]);
      }
    }
  }

  function UnitsOf(pages: seq<Page>): seq<Unit> {
    if pages == [] then [] else pages[0].units + UnitsOf(pages[1..])
  }

  /** Following cursors from null ends, whatever the limit. */
  method ExportCorpus(t: Tables, limit: nat) returns (pages: seq<Page>)
    requires t.Ordered() && limit >= 1
    ensures IsWalk(t, None, limit, pages)
  {
    pages := ExportFrom(t, None, limit);
  }

  method ExportFrom(t: Tables, cursor: Option<Cursor>, limit: nat) returns (pages: seq<Page>)
    requires t.Ordered() && limit >= 1
    ensures IsWalk(t, cursor, limit, pages)
    decreases |Rest(t, cursor)|
  {
    hide Rest;
    var page := ExportPage(t, cursor, limit);
    if page.next.None? {
      return [page];
    }
    var more := ExportFrom(t, page.next, limit);
    pages := [page] + more;
    WalkFrom(t, cursor, limit, page, more);
  }

  /** Every unit of every table is exported exactly once, in walk order; every page
      but the last holds exactly `limit` units and no footer; the last, and only
      the last, carries the footer; only the first carries the header. */
  lemma {:induction false} WalkCoversEachUnitOnce(t: Tables, cursor: Option<Cursor>, limit: nat, pages: seq<Page>)
    requires IsWalk(t, cursor, limit, pages)
    ensures UnitsOf(pages) == Rest(t, cursor)
    ensures forall i | 0 <= i < |pages| ::
      && (pages[i].footer <==> i == |pages| - 1) && (pages[i].next.None? <==> i == |pages| - 1)
      && (i < |pages| - 1 ==> |pages[i].units| == limit) && |pages[i].units| <= limit
      && (pages[i].header <==> i == 0 && cursor.None?)
    decreases |pages|
  {
    hide Rest;
    if |pages| > 1 {
      WalkGoesOn(t, cursor, limit, pages);
      WalkCoversEachUnitOnce(t, pages[0].next, limit, pages[1..]);
      forall i | 1 <= i < |pages|
        ensures pages[i] == pages[1..][i - 1]
      {
      }
    }
  }

  // ---- the order of the walk -------------------------------------------------

  /** Text is compared at the first character that differs, and a text comes before
      any longer one it begins. */
  lemma {:induction false} TextOrder(start: string, a: string, b: string)
    requires a == "" || b == "" || a[0] != b[0]
    ensures TextLess(start + a, start + b) <==> b != "" && (a == "" || a[0] < b[0])
    decreases start
  {
    if start == "" {
      assert start + a == a && start + b == b;
    } else {
      assert (start + a)[1..] == start[1..] + a && (start + b)[1..] == start[1..] + b;
      TextOrder(start[1..], a, b);
    }
  }

  /** A whole walk gives the five tables in turn, agents before what belongs to them
      and documents before the names that point at them; within a table no row comes
      before one with an earlier stamp, nor, stamped alike, before one with a lesser
      id. */
  lemma WalkGivesTheTables(t: Tables, limit: nat, pages: seq<Page>)
    requires t.Ordered() && IsWalk(t, None, limit, pages)
    ensures UnitsOf(pages) == t.agents + t.keys + t.clients + t.docs + t.tombs
    ensures forall p: Phase, i, j | 0 <= i < j < |t.Rows(p)| ::
      var a, b := t.Rows(p)[i].At(), t.Rows(p)[j].At();
      !TextLess(b.ts, a.ts) && (a.ts == b.ts ==> TextLess(a.id, b.id))
  {
    hide IsWalk, UnitsOf, TextLess;
    WalkCoversEachUnitOnce(t, None, limit, pages);
    LaterIs(t, Agents);
    LaterIs(t, AgentKeys);
    LaterIs(t, OAuthClients);
    LaterIs(t, Documents);
    LaterIs(t, SlugTombstones);
    forall p: Phase, i, j | 0 <= i < j < |t.Rows(p)|
      ensures
        var a, b := t.Rows(p)[i].At(), t.Rows(p)[j].At();
        !TextLess(b.ts, a.ts) && (a.ts == b.ts ==> TextLess(a.id, b.id))
    {
      var a, b := t.Rows(p)[i].At(), t.Rows(p)[j].At();
      assert KeyLess(a, b);
      KeyLessOneWay(a, b);
      if a.ts == b.ts && TextLess(a.ts, b.ts) {
        TextLessOneWay(a.ts, b.ts);
      }
    }
  }
}
