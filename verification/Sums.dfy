/** Sums and bounds over sets of version rows. */
module Sums {
  import opened Records
  import opened D1
  import opened Writes
  import opened Serial
  import Protocol

  /** A sum does not depend on the order its rows are taken in. */
  lemma {:induction false} Remove(vers: map<VerId, Version>, vs: set<VerId>, v: VerId)
    requires vs <= vers.Keys && v in vs
    ensures SumOf(vers, vs) == RowBytes(vers[v]) + SumOf(vers, vs - {v})
    decreases vs
  {
    var w :| w in vs && SumOf(vers, vs) == RowBytes(vers[w]) + SumOf(vers, vs - {w});
    if v != w {
      Remove(vers, vs - {w}, v);
      Remove(vers, vs - {v}, w);
      assert vs - {v} - {w} == vs - {w} - {v};
    }
  }

  /** The storage total, row by row. */
  method CurrentStorageUsedBytes(db: Db) returns (used: nat)
    ensures used == UsedBytes(db)
  {
    var left := Counted(db);
    used := 0;
    while left != {}
      invariant left <= Counted(db)
      invariant used + SumOf(db.vers, left) == UsedBytes(db)
      decreases left
    {
      var v :| v in left;
      Remove(db.vers, left, v);
      used, left := used + RowBytes(db.vers[v]), left - {v};
    }
  }

  lemma {:induction false} Bound(vs: set<VerId>) returns (top: nat)
    ensures forall v | v in vs :: v.no < top
    decreases vs
  {
    if vs == {} {
      top := 0;
    } else {
      var v :| v in vs;
      var rest := Bound(vs - {v});
      top := if v.no < rest then rest else v.no + 1;
    }
  }

  lemma KillBatch(db: Db, doc: string, now: string)
    requires doc in db.docs
    ensures Batch(db, Protocol.KillStatements(doc, db.docs[doc].slug, now)) == Some(Killed(db, doc, now))
  {
    var slug := db.docs[doc].slug;
    var rest := if slug.Some? then [RetireSlug(slug.value, Tomb(Some(doc), now, Revoked, None))] else [];
    assert Protocol.KillStatements(doc, slug, now) == [Kill(doc, now)] + rest;
    BatchCons(db, Kill(doc, now), rest);
    if slug.Some? {
      BatchOne(Exec(db, Kill(doc, now)).value, rest[0]);
    }
  }

  // ---- listings --------------------------------------------------------------

  ghost function SetOf<T>(s: seq<T>): set<T> { set x | x in s }

  lemma SetOfPlus<T>(a: seq<T>, b: seq<T>)
    ensures SetOf(a + b) == SetOf(a) + SetOf(b)
  {
  }

  /** Rows of one document, in the order of their version numbers. */
  ghost predicate Ascending(rows: seq<VerId>) {
    forall i, j | 0 <= i < j < |rows| :: rows[i].no < rows[j].no
  }

  lemma {:induction false} AscendingCount(rows: seq<VerId>)
    requires Ascending(rows)
    ensures |SetOf(rows)| == |rows|
    decreases rows
  {
    if rows == [] {
      assert SetOf(rows) == {};
    } else {
      var n := |rows| - 1;
      AscendingCount(rows[..n]);
      assert rows == rows[..n] + [rows[n]];
      assert SetOf(rows) == SetOf(rows[..n]) + {rows[n]};
      assert rows[n] !in SetOf(rows[..n]);
    }
  }

  /** The numbers still to come are all above those listed. */
  ghost predicate Split(doc: string, all: set<VerId>, rows: seq<VerId>, left: set<VerId>, n: nat, top: int) {
    && Ascending(rows)
    && SetOf(rows) + left == all
    && (forall v | v in left :: v.doc == doc && n <= v.no < top)
    && (forall v | v in rows :: v.no < n)
  }

  lemma SplitNext(doc: string, all: set<VerId>, rows: seq<VerId>, left: set<VerId>, n: nat, top: int)
    requires Split(doc, all, rows, left, n, top)
    ensures left != {} ==> n < top
    ensures
      var v := VerId(doc, n);
      if v in left then Split(doc, all, rows + [v], left - {v}, n + 1, top) else Split(doc, all, rows, left, n + 1, top)
  {
    var v := VerId(doc, n);
    if v in left {
      var next := rows + [v];
      SetOfPlus(rows, [v]);
      assert SetOf([v]) == {v};
      forall i, j | 0 <= i < j < |next|
        ensures next[i].no < next[j].no
      {
        assert rows[i] in rows;
      }
    }
  }

  /** The keys the listed rows name. */
  ghost function KeysNamed(vers: map<VerId, Version>, rows: seq<VerId>): set<Key> {
    set v, k | v in rows && v in vers && k in vers[v].Keys() :: k
  }

  lemma KeysNamedNext(vers: map<VerId, Version>, rows: seq<VerId>, i: nat)
    requires i < |rows| && rows[i] in vers
    ensures KeysNamed(vers, rows[..i + 1]) == KeysNamed(vers, rows[..i]) + vers[rows[i]].Keys()
  {
    assert rows[..i + 1] == rows[..i] + [rows[i]];
  }

  lemma KeysNamedAll(db: Db, doc: string, rows: seq<VerId>)
    requires SetOf(rows) == RowsOf(db, doc)
    ensures KeysNamed(db.vers, rows) == Protocol.KeysOf(db, doc)
  {
    forall v: VerId
      ensures v in rows <==> v in db.vers && v.doc == doc
    {
      assert v in SetOf(rows) <==> v in RowsOf(db, doc);
    }
  }

  lemma NothingNamed(vers: map<VerId, Version>, rows: seq<VerId>)
    ensures SetOf<Key>([]) == KeysNamed(vers, rows[..0])
  {
  }

  lemma Listed(db: Db, doc: string, rows: seq<VerId>, i: nat)
    requires SetOf(rows) == RowsOf(db, doc) && i < |rows|
    ensures rows[i] in db.vers
  {
    assert rows[i] in SetOf(rows);
  }

  lemma KeysAsList(row: Version)
    ensures SetOf(if row.sKey.None? then [row.hKey] else [row.hKey, row.sKey.value]) == row.Keys()
  {
  }

  lemma SplitStart(doc: string, all: set<VerId>, top: int)
    requires forall v | v in all :: v.doc == doc && v.no < top
    ensures Split(doc, all, [], all, 0, top)
  {
  }

  lemma SplitEnd(doc: string, all: set<VerId>, rows: seq<VerId>, n: nat, top: int)
    requires Split(doc, all, rows, {}, n, top)
    ensures SetOf(rows) == all && Ascending(rows)
  {
  }
}
