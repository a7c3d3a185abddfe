/** Literal find/replace (src/edit.ts): greedy non-overlapping counting, the
    split/join replacement, and the sequential edit list. */
module Edits {

  datatype EditSpec = EditSpec(oldString: string, newString: string)

  datatype EditResult =
    | Edited(text: string, replacements: nat)
    | NoEdits
    | EmptyOldString(index: nat)
    | NoopEdit(index: nat)
    | NoMatch(index: nat, oldString: string)
    | NotUnique(index: nat, oldString: string, count: nat)

  predicate OccursAt(text: string, needle: string, at: nat) {
    at + |needle| <= |text| && text[at..at + |needle|] == needle
  }

  /** String.prototype.indexOf: the first occurrence at or after `from`, or -1. */
  function IndexOf(text: string, needle: string, from: nat): (at: int)
    ensures at == -1 || (from <= at <= at + |needle| <= |text| && OccursAt(text, needle, at))
    decreases |text| - from
  {
    if OccursAt(text, needle, from) then from
    else if from >= |text| then -1
    else IndexOf(text, needle, from + 1)
  }

  lemma {:induction false} IndexOfIsFirst(text: string, needle: string, from: nat, p: nat)
    requires from <= p && OccursAt(text, needle, p)
    ensures 0 <= IndexOf(text, needle, from) <= p
    decreases |text| - from
  {
    if from < p {
      IndexOfIsFirst(text, needle, from + 1, p);
    }
  }

  // ---- counting --------------------------------------------------------------

  /** The occurrences a left-to-right scan that never overlaps takes. */
  function Greedy(text: string, needle: string, from: nat): (ps: seq<nat>)
    requires needle != ""
    decreases |text| - from
  {
    var at := IndexOf(text, needle, from);
    if at < 0 then [] else [at] + Greedy(text, needle, at + |needle|)
  }

  /** Pairwise disjoint occurrences, listed left to right. */
  ghost predicate Disjoint(text: string, needle: string, from: nat, ps: seq<nat>) {
    && (forall k | 0 <= k < |ps| :: from <= ps[k] && OccursAt(text, needle, ps[k]))
    && (forall j, k | 0 <= j < k < |ps| :: ps[j] + |needle| <= ps[k])
  }

  lemma {:induction false} GreedyIsDisjoint(text: string, needle: string, from: nat)
    requires needle != ""
    ensures Disjoint(text, needle, from, Greedy(text, needle, from))
    decreases |text| - from
  {
    var at := IndexOf(text, needle, from);
    if at >= 0 {
      GreedyIsDisjoint(text, needle, at + |needle|);
    }
  }

  /** No family of disjoint occurrences is larger than the greedy one. */
  lemma {:induction false} GreedyIsMaximal(text: string, needle: string, from: nat, ps: seq<nat>)
    requires needle != "" && Disjoint(text, needle, from, ps)
    ensures |ps| <= |Greedy(text, needle, from)|
    decreases |text| - from
  {
    hide OccursAt;
    if ps != [] {
      var at := IndexOf(text, needle, from);
      IndexOfIsFirst(text, needle, from, ps[0]);
      GreedyIsMaximal(text, needle, at + |needle|, ps[1..]);
    }
  }

  /** `n` is the largest number of pairwise disjoint occurrences of `needle`. */
  ghost predicate LargestDisjoint(text: string, needle: string, n: nat) {
    && (exists ps :: Disjoint(text, needle, 0, ps) && |ps| == n)
    && (forall ps | Disjoint(text, needle, 0, ps) :: |ps| <= n)
  }

  function Count(text: string, needle: string): nat {
    if needle == "" then 0 else |Greedy(text, needle, 0)|
  }

  lemma CountIsLargest(text: string, needle: string)
    requires needle != ""
    ensures LargestDisjoint(text, needle, Count(text, needle))
  {
    GreedyIsDisjoint(text, needle, 0);
    forall ps | Disjoint(text, needle, 0, ps)
      ensures |ps| <= Count(text, needle)
    {
      GreedyIsMaximal(text, needle, 0, ps);
    }
  }

  method CountOccurrences(haystack: string, needle: string) returns (count: nat)
    ensures count == Count(haystack, needle)
  {
    if |needle| == 0 {
      return 0;
    }
    count := 0;
    var pos := 0;
    while true
      invariant 0 <= pos
      invariant count + |Greedy(haystack, needle, pos)| == Count(haystack, needle)
      decreases |haystack| - pos
    {
      var idx := IndexOf(haystack, needle, pos);
      if idx == -1 {
        break;
      }
      count := count + 1;
      pos := idx + |needle|;
    }
  }

  // ---- replacing -------------------------------------------------------------

  /** String.prototype.split on a literal separator, from `from` on. */
  function Split(text: string, needle: string, from: nat): (parts: seq<string>)
    requires needle != "" && from <= |text|
    ensures parts != []
    decreases |text| - from
  {
    var at := IndexOf(text, needle, from);
    if at < 0 then [text[from..]]
    else [text[from..at]] + Split(text, needle, at + |needle|)
  }

  lemma {:induction false} SplitCount(text: string, needle: string, from: nat)
    requires needle != "" && from <= |text|
    ensures |Split(text, needle, from)| == |Greedy(text, needle, from)| + 1
    decreases |text| - from
  {
    hide OccursAt;
    var at := IndexOf(text, needle, from);
    if at >= 0 {
      SplitCount(text, needle, at + |needle|);
    }
  }

  function Join(parts: seq<string>, glue: string): string
    requires parts != []
  {
    if |parts| == 1 then parts[0] else parts[0] + glue + Join(parts[1..], glue)
  }

  function ReplaceAll(text: string, before: string, after: string): string
    requires before != ""
  {
    Join(Split(text, before, 0), after)
  }

  lemma CutAt(text: string, needle: string, from: nat, at: nat)
    requires from <= at && OccursAt(text, needle, at)
    ensures text[from..] == text[from..at] + needle + text[at + |needle|..]
  {
    assert text[from..] == text[from..at] + text[at..at + |needle|] + text[at + |needle|..];
  }

  /** Joining what split cut, on the same separator, gives the text back. */
  lemma {:induction false} SplitThenJoin(text: string, needle: string, from: nat)
    requires needle != "" && from <= |text|
    ensures Join(Split(text, needle, from), needle) == text[from..]
    decreases |text| - from
  {
    hide OccursAt;
    var at := IndexOf(text, needle, from);
    if at >= 0 {
      SplitThenJoin(text, needle, at + |needle|);
      CutAt(text, needle, from, at);
    }
  }

  function TotalLength(parts: seq<string>): nat {
    if parts == [] then 0 else |parts[0]| + TotalLength(parts[1..])
  }

  lemma {:induction false} JoinLength(parts: seq<string>, glue: string)
    requires parts != []
    ensures |Join(parts, glue)| == TotalLength(parts) + (|parts| - 1) * |glue|
  {
    if |parts| > 1 {
      JoinLength(parts[1..], glue);
      var rest := |parts| - 2;
      assert (rest + 1) * |glue| == rest * |glue| + |glue|;
    }
  }

  /** Every counted occurrence is substituted, and nothing else changes length. */
  lemma ReplaceAllLength(text: string, before: string, after: string)
    requires before != ""
    ensures |ReplaceAll(text, before, after)| == |text| + Count(text, before) * (|after| - |before|)
  {
    var parts := Split(text, before, 0);
    SplitThenJoin(text, before, 0);
    JoinLength(parts, before);
    JoinLength(parts, after);
    SplitCount(text, before, 0);
    var n := Count(text, before);
    assert n * (|after| - |before|) == n * |after| - n * |before|;
  }

  lemma OccursInside(text: string, needle: string, from: nat, stop: nat, p: nat)
    requires from <= stop <= |text|
    ensures OccursAt(text[from..stop], needle, p) ==> OccursAt(text, needle, from + p)
    ensures OccursAt(text[from..stop], needle, p) ==>
              0 <= IndexOf(text, needle, from) <= from + p && from + p + |needle| <= stop
  {
    if OccursAt(text[from..stop], needle, p) {
      var inside, outside := text[from..stop][p..p + |needle|], text[from + p..from + p + |needle|];
      forall j | 0 <= j < |needle|
        ensures inside[j] == outside[j]
      {
      }
      assert inside == outside;
      IndexOfIsFirst(text, needle, from, from + p);
    }
  }

  /** A split leaves no occurrence inside any piece. */
  lemma {:induction false} PiecesAreClean(text: string, needle: string, from: nat, k: nat, p: nat)
    requires needle != "" && from <= |text| && k < |Split(text, needle, from)|
    ensures !OccursAt(Split(text, needle, from)[k], needle, p)
    decreases |text| - from
  {
    hide OccursAt;
    var at := IndexOf(text, needle, from);
    if at < 0 {
      assert text[from..] == text[from..|text|];
      OccursInside(text, needle, from, |text|, p);
    } else if k == 0 {
      OccursInside(text, needle, from, at, p);
    } else {
      PiecesAreClean(text, needle, at + |needle|, k - 1, p);
    }
  }

  /** With one occurrence, cutting by index and replacing all agree. */
  lemma SpliceIsReplaceAll(text: string, before: string, after: string)
    requires before != "" && Count(text, before) == 1
    ensures
      var at := IndexOf(text, before, 0);
      at >= 0 && ReplaceAll(text, before, after) == text[..at] + after + text[at + |before|..]
  {
    var at := IndexOf(text, before, 0);
    assert Greedy(text, before, 0) == [at] + Greedy(text, before, at + |before|);
    var rest := at + |before|;
    assert IndexOf(text, before, rest) < 0;
    assert Split(text, before, rest) == [text[rest..]];
    assert Split(text, before, 0) == [text[0..at]] + [text[rest..]];
    var parts := [text[0..at], text[rest..]];
    assert Split(text, before, 0) == parts;
    assert parts[1..] == [text[rest..]];
    assert Join(parts, after) == parts[0] + after + Join(parts[1..], after);
    assert text[0..at] == text[..at];
  }

  /** The only occurrence cut out by index, `after` put in its place. */
  function Splice(text: string, before: string, after: string): (r: string)
    requires before != "" && Count(text, before) == 1
    ensures r == ReplaceAll(text, before, after)
  {
    SpliceIsReplaceAll(text, before, after);
    var idx := IndexOf(text, before, 0);
    text[..idx] + after + text[idx + |before|..]
  }

  // ---- the edit list ---------------------------------------------------------

  /** One edit, failing with position 0. */
  function ApplyOne(text: string, e: EditSpec, replaceAll: bool): (r: EditResult)
    ensures !r.NoEdits?
  {
    if e.oldString == "" then EmptyOldString(0)
    else if e.oldString == e.newString then NoopEdit(0)
    else
      var count := Count(text, e.oldString);
      if count == 0 then NoMatch(0, e.oldString)
      else if count > 1 && !replaceAll then NotUnique(0, e.oldString, count)
      else Edited(ReplaceAll(text, e.oldString, e.newString), count)
  }

  /** A failure moved `shift` places down the list. */
  function Relabel(r: EditResult, shift: nat): EditResult {
    match r
    case EmptyOldString(i) => EmptyOldString(i + shift)
    case NoopEdit(i) => NoopEdit(i + shift)
    case NoMatch(i, o) => NoMatch(i + shift, o)
    case NotUnique(i, o, c) => NotUnique(i + shift, o, c)
    case _ => r
  }

  function ApplyFrom(text: string, edits: seq<EditSpec>, replaceAll: bool, index: nat, done: nat): EditResult
    decreases edits
  {
    if edits == [] then Edited(text, done)
    else
      var r := ApplyOne(text, edits[0], replaceAll);
      if r.Edited? then ApplyFrom(r.text, edits[1..], replaceAll, index + 1, done + r.replacements)
      else Relabel(r, index)
  }

  function Apply(text: string, edits: seq<EditSpec>, replaceAll: bool): EditResult {
    if edits == [] then NoEdits else ApplyFrom(text, edits, replaceAll, 0, 0)
  }

  lemma ApplyFromEnd(text: string, edits: seq<EditSpec>, replaceAll: bool, done: nat)
    ensures ApplyFrom(text, edits[|edits|..], replaceAll, |edits|, done) == Edited(text, done)
  {
  }

  lemma ApplyFromStep(text: string, edits: seq<EditSpec>, replaceAll: bool, i: nat, done: nat)
    requires i < |edits|
    ensures
      var r := ApplyOne(text, edits[i], replaceAll);
      ApplyFrom(text, edits[i..], replaceAll, i, done) ==
        if r.Edited? then ApplyFrom(r.text, edits[i + 1..], replaceAll, i + 1, done + r.replacements)
        else Relabel(r, i)
  {
    assert edits[i..][1..] == edits[i + 1..];
  }

  method ApplyEdits(html: string, edits: seq<EditSpec>, replaceAll: bool) returns (r: EditResult)
    ensures r == Apply(html, edits, replaceAll)
  {
    hide ApplyFrom, Count, ReplaceAll;
    if |edits| == 0 {
      return NoEdits;
    }
    ghost var goal := Apply(html, edits, replaceAll);
    assert edits[0..] == edits;
    var current := html;
    var replacements: nat := 0;
    for i := 0 to |edits|
      invariant ApplyFrom(current, edits[i..], replaceAll, i, replacements) == goal
    {
      ghost var one := ApplyOne(current, edits[i], replaceAll);
      ApplyFromStep(current, edits, replaceAll, i, replacements);
      var oldString, newString := edits[i].oldString, edits[i].newString;
      if |oldString| == 0 {
        return EmptyOldString(i);
      }
      if oldString == newString {
        return NoopEdit(i);
      }
      var count := CountOccurrences(current, oldString);
      if count == 0 {
        return NoMatch(i, oldString);
      }
      if count > 1 && !replaceAll {
        return NotUnique(i, oldString, count);
      }
      if replaceAll {
        current := ReplaceAll(current, oldString, newString);
        replacements := replacements + count;
      } else {
        current := Splice(current, oldString, newString);
        replacements := replacements + 1;
      }
      assert one == Edited(current, count);
    }
    ApplyFromEnd(current, edits, replaceAll, replacements);
    r := Edited(current, replacements);
  }

  /** `second` run on the outcome of a first list of `n` edits. */
  function Then(first: EditResult, n: nat, second: seq<EditSpec>, replaceAll: bool): EditResult {
    if !first.Edited? then first
    else
      match Apply(first.text, second, replaceAll)
      case Edited(text, more) => Edited(text, first.replacements + more)
      case failed => Relabel(failed, n)
  }

  lemma {:induction false} ApplyFromShift(text: string, edits: seq<EditSpec>, replaceAll: bool, index: nat, done: nat)
    decreases edits
    ensures
      var base := ApplyFrom(text, edits, replaceAll, 0, 0);
      ApplyFrom(text, edits, replaceAll, index, done) ==
        match base
        case Edited(t, n) => Edited(t, done + n)
        case failed => Relabel(failed, index)
  {
    hide ApplyOne;
    if edits != [] {
      var r := ApplyOne(text, edits[0], replaceAll);
      if r.Edited? {
        ApplyFromShift(r.text, edits[1..], replaceAll, index + 1, done + r.replacements);
        ApplyFromShift(r.text, edits[1..], replaceAll, 1, r.replacements);
      }
    }
  }

  lemma {:induction false} ApplyFromSplits(text: string, a: seq<EditSpec>, b: seq<EditSpec>, replaceAll: bool, index: nat, done: nat)
    decreases a
    ensures
      var first := ApplyFrom(text, a, replaceAll, index, done);
      ApplyFrom(text, a + b, replaceAll, index, done) ==
        if first.Edited? then ApplyFrom(first.text, b, replaceAll, index + |a|, first.replacements) else first
  {
    hide ApplyOne;
    if a == [] {
      assert a + b == b;
    } else {
      assert (a + b)[1..] == a[1..] + b;
      var r := ApplyOne(text, a[0], replaceAll);
      if r.Edited? {
        ApplyFromSplits(r.text, a[1..], b, replaceAll, index + 1, done + r.replacements);
      }
    }
  }

  /** A concatenated list acts as its parts in sequence: counts add, and a
      failure in the second part keeps its position in the whole list. */
  lemma ApplyConcat(text: string, a: seq<EditSpec>, b: seq<EditSpec>, replaceAll: bool)
    requires a != [] && b != []
    ensures Apply(text, a + b, replaceAll) == Then(Apply(text, a, replaceAll), |a|, b, replaceAll)
  {
    hide ApplyOne;
    ApplyFromSplits(text, a, b, replaceAll, 0, 0);
    var first := Apply(text, a, replaceAll);
    if first.Edited? {
      ApplyFromShift(first.text, b, replaceAll, |a|, first.replacements);
    }
  }

  lemma {:induction false} RunsReplaceSomething(text: string, edits: seq<EditSpec>, replaceAll: bool, index: nat, done: nat)
    decreases edits
    ensures
      var r := ApplyFrom(text, edits, replaceAll, index, done);
      r.Edited? ==> r.replacements >= done + |edits| && (!replaceAll ==> r.replacements == done + |edits|)
  {
    if edits != [] {
      var r := ApplyOne(text, edits[0], replaceAll);
      if r.Edited? {
        RunsReplaceSomething(r.text, edits[1..], replaceAll, index + 1, done + r.replacements);
      }
    }
  }

  /** A list that succeeds substituted at least once per edit, and exactly once
      per edit when only unique matches are allowed. */
  lemma EveryEditLands(text: string, edits: seq<EditSpec>, replaceAll: bool)
    ensures
      var r := Apply(text, edits, replaceAll);
      r.Edited? ==> r.replacements >= |edits| && (!replaceAll ==> r.replacements == |edits|)
  {
    if edits != [] {
      RunsReplaceSomething(text, edits, replaceAll, 0, 0);
    }
  }

  // ---- what an edit list means -----------------------------------------------

  /** Disjoint occurrences taken as far left as they come: each is the first one
      after the one before it, and none is left over. */
  ghost predicate Leftmost(text: string, needle: string, from: nat, ps: seq<nat>)
    decreases |ps|
  {
    if ps == [] then forall p: nat | from <= p :: !OccursAt(text, needle, p)
    else
      && from <= ps[0] && OccursAt(text, needle, ps[0])
      && (forall p: nat | from <= p < ps[0] :: !OccursAt(text, needle, p))
      && Leftmost(text, needle, ps[0] + |needle|, ps[1..])
  }

  /** `after` in place of what stands at each of the positions. */
  ghost function Substituted(text: string, width: nat, after: string, from: nat, ps: seq<nat>): string
    decreases |ps|
  {
    if ps == [] then if from <= |text| then text[from..] else ""
    else (if from <= ps[0] <= |text| then text[from..ps[0]] else "") + after + Substituted(text, width, after, ps[0] + width, ps[1..])
  }

  lemma {:induction false} ReplacesLeftmost(text: string, before: string, after: string, from: nat, ps: seq<nat>)
    requires before != "" && from <= |text| && Leftmost(text, before, from, ps)
    ensures Join(Split(text, before, from), after) == Substituted(text, |before|, after, from, ps)
    ensures |Greedy(text, before, from)| == |ps|
    decreases |ps|
  {
    hide OccursAt;
    var at := IndexOf(text, before, from);
    if ps != [] {
      IndexOfIsFirst(text, before, from, ps[0]);
      assert at == ps[0];
      ReplacesLeftmost(text, before, after, at + |before|, ps[1..]);
      var rest := Split(text, before, at + |before|);
      assert ([text[from..at]] + rest)[1..] == rest;
    } else {
      assert at < 0;
    }
  }

  lemma {:induction false} GreedyIsLeftmost(text: string, needle: string, from: nat)
    requires needle != ""
    ensures Leftmost(text, needle, from, Greedy(text, needle, from))
    decreases |text| - from
  {
    hide OccursAt;
    var at := IndexOf(text, needle, from);
    forall p: nat | from <= p && (at < 0 || p < at)
      ensures !OccursAt(text, needle, p)
    {
      if OccursAt(text, needle, p) {
        IndexOfIsFirst(text, needle, from, p);
      }
    }
    if at >= 0 {
      GreedyIsLeftmost(text, needle, at + |needle|);
    }
  }

  /** The edit goes through: what it names is there, once or everywhere, and gives
      way to its replacement; `n` places changed. */
  ghost predicate Lands(text: string, e: EditSpec, replaceAll: bool, text': string, n: nat) {
    && e.oldString != "" && e.oldString != e.newString
    && LargestDisjoint(text, e.oldString, n) && n >= 1 && (!replaceAll ==> n == 1)
    && exists ps :: |ps| == n && Leftmost(text, e.oldString, 0, ps)
         && text' == Substituted(text, |e.oldString|, e.newString, 0, ps)
  }

  /** The edit is refused, for the first reason there is. */
  ghost predicate Refused(text: string, e: EditSpec, replaceAll: bool, i: nat, r: EditResult) {
    match r
    case Edited(_, _) => false
    case NoEdits => false
    case EmptyOldString(at) => at == i && e.oldString == ""
    case NoopEdit(at) => at == i && e.oldString == e.newString != ""
    case NoMatch(at, o) =>
      at == i && o == e.oldString != "" && o != e.newString && forall p: nat :: !OccursAt(text, o, p)
    case NotUnique(at, o, n) =>
      at == i && o == e.oldString != "" && o != e.newString && !replaceAll && n >= 2 && LargestDisjoint(text, o, n)
  }

  /** What the list comes to from edit `i` on, `done` places having changed before:
      each edit in turn lands on the text the one before it left, up to the first
      that is refused. */
  ghost predicate Means(text: string, edits: seq<EditSpec>, replaceAll: bool, i: nat, done: nat, r: EditResult)
    decreases edits
  {
    if edits == [] then r == Edited(text, done)
    else
      || (exists text', n: nat :: Lands(text, edits[0], replaceAll, text', n) && Means(text', edits[1..], replaceAll, i + 1, done + n, r))
      || Refused(text, edits[0], replaceAll, i, r)
  }

  lemma LargestIsOne(text: string, needle: string, m: nat, n: nat)
    requires LargestDisjoint(text, needle, m) && LargestDisjoint(text, needle, n)
    ensures m == n
  {
    var ps :| Disjoint(text, needle, 0, ps) && |ps| == m;
    var qs :| Disjoint(text, needle, 0, qs) && |qs| == n;
  }

  lemma NoneIsNowhere(text: string, needle: string)
    requires needle != ""
    ensures Count(text, needle) == 0 <==> forall p: nat :: !OccursAt(text, needle, p)
  {
    hide OccursAt;
    if Count(text, needle) == 0 {
      forall p: nat
        ensures !OccursAt(text, needle, p)
      {
        if OccursAt(text, needle, p) {
          IndexOfIsFirst(text, needle, 0, p);
        }
      }
    }
  }

  /** One edit lands on exactly one text in exactly one way, or is refused for
      exactly one reason, and `ApplyOne` says which. */
  lemma OneEdit(text: string, e: EditSpec, replaceAll: bool, i: nat)
    ensures
      var r := ApplyOne(text, e, replaceAll);
      && (forall text', n: nat :: Lands(text, e, replaceAll, text', n) <==> r == Edited(text', n))
      && (forall f :: Refused(text, e, replaceAll, i, f) <==> !r.Edited? && f == Relabel(r, i))
  {
    hide OccursAt, ReplaceAll, Substituted, Leftmost, LargestDisjoint;
    var r := ApplyOne(text, e, replaceAll);
    if e.oldString != "" && e.oldString != e.newString {
      var n := Count(text, e.oldString);
      CountIsLargest(text, e.oldString);
      NoneIsNowhere(text, e.oldString);
      forall m: nat | LargestDisjoint(text, e.oldString, m)
        ensures m == n
      {
        LargestIsOne(text, e.oldString, m, n);
      }
      var ps := Greedy(text, e.oldString, 0);
      GreedyIsLeftmost(text, e.oldString, 0);
      forall qs | Leftmost(text, e.oldString, 0, qs)
        ensures ReplaceAll(text, e.oldString, e.newString) == Substituted(text, |e.oldString|, e.newString, 0, qs)
      {
        ReplacesLeftmost(text, e.oldString, e.newString, 0, qs);
        AllReplaced(text, e.oldString, e.newString);
      }
      forall text', m: nat
        ensures Lands(text, e, replaceAll, text', m) <==> r == Edited(text', m)
      {
        if r == Edited(text', m) {
          assert |ps| == m && text' == Substituted(text, |e.oldString|, e.newString, 0, ps);
        }
      }
    }
  }

  lemma AllReplaced(text: string, before: string, after: string)
    requires before != ""
    ensures ReplaceAll(text, before, after) == Join(Split(text, before, 0), after)
  {
  }

  lemma {:induction false} ListMeans(text: string, edits: seq<EditSpec>, replaceAll: bool, i: nat, done: nat, r: EditResult)
    ensures Means(text, edits, replaceAll, i, done, r) <==> r == ApplyFrom(text, edits, replaceAll, i, done)
    decreases edits
  {
    hide Lands, Refused, ApplyOne;
    if edits != [] {
      OneEdit(text, edits[0], replaceAll, i);
      var one := ApplyOne(text, edits[0], replaceAll);
      if one.Edited? {
        assert Lands(text, edits[0], replaceAll, one.text, one.replacements);
        ListMeans(one.text, edits[1..], replaceAll, i + 1, done + one.replacements, r);
        NotBoth(text, edits[0], replaceAll, i, r);
      }
    }
  }

  lemma NotBoth(text: string, e: EditSpec, replaceAll: bool, i: nat, r: EditResult)
    requires ApplyOne(text, e, replaceAll).Edited?
    ensures !Refused(text, e, replaceAll, i, r)
  {
    hide ApplyOne, Refused;
    OneEdit(text, e, replaceAll, i);
  }

  /** A list of edits comes to just what its edits mean in turn, told from
      occurrences alone: the text with each named place replaced, or the first
      refusal, at its index. In particular an edit that is to be unique lands
      exactly when there is one place for it, and is refused with the number of
      places when there are more. */
  lemma ApplyMeans(text: string, edits: seq<EditSpec>, replaceAll: bool, r: EditResult)
    ensures Apply(text, edits, replaceAll) == r <==> if edits == [] then r == NoEdits else Means(text, edits, replaceAll, 0, 0, r)
  {
    hide Means, ApplyFrom;
    ListMeans(text, edits, replaceAll, 0, 0, r);
  }

  lemma SingleEdit(text: string, e: EditSpec, replaceAll: bool)
    ensures Apply(text, [e], replaceAll) == ApplyOne(text, e, replaceAll)
  {
    hide ApplyOne;
    ApplyFromStep(text, [e], replaceAll, 0, 0);
    assert [e][0..] == [e] && [e][1..] == [];
  }

  /** An edit asked to be unique: accepted exactly when at most one place can be
      taken at a time and there is one, and then the first place it fits gives way. */
  lemma UniqueEdit(text: string, e: EditSpec, p: nat)
    ensures
      var r := Apply(text, [e], false);
      && (r.Edited? <==> e.oldString != "" && e.oldString != e.newString && LargestDisjoint(text, e.oldString, 1))
      && (r.Edited? && OccursAt(text, e.oldString, p) && (forall q: nat | q < p :: !OccursAt(text, e.oldString, q)) ==>
            r == Edited(text[..p] + e.newString + text[p + |e.oldString|..], 1))
  {
    hide ReplaceAll, LargestDisjoint, OccursAt, Apply;
    SingleEdit(text, e, false);
    if e.oldString != "" && e.oldString != e.newString {
      CountIsLargest(text, e.oldString);
      if LargestDisjoint(text, e.oldString, 1) {
        LargestIsOne(text, e.oldString, Count(text, e.oldString), 1);
      }
      hide Count;
      if Count(text, e.oldString) == 1 {
        SpliceIsReplaceAll(text, e.oldString, e.newString);
        if OccursAt(text, e.oldString, p) {
          IndexOfIsFirst(text, e.oldString, 0, p);
        }
      }
    }
  }
}
