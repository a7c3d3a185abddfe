/** The scan itself (src/depth.ts): one left-to-right pass, a bounded stack and
    two index markers, against the uncapped measure of DepthSpec. Each method
    also counts the characters it visits and the names it compares. */
module DepthScan {
  import opened DepthSpec
  import opened DepthCost

  method TagNameEnd(html: string, from: nat) returns (j: nat, ghost work: nat)
    requires from <= |html|
    ensures j == NameEnd(html, from)
    ensures work == NameWork(html, from)
  {
    j := from;
    work := 1;
    while j < |html| && !EndsName(html[j])
      invariant from <= j <= |html|
      invariant NameEnd(html, j) == NameEnd(html, from)
      invariant work == j - from + 1
    {
      j := j + 1;
      work := work + 1;
    }
  }

  method FindTagEnd(html: string, from: nat) returns (r: TagEnd, ghost work: nat)
    requires from <= |html|
    ensures r == FindEnd(html, from, from)
    ensures work == FindWork(html, from)
  {
    var i := from;
    work := 0;
    while i < |html|
      invariant from <= i <= |html|
      invariant FindEnd(html, from, i) == FindEnd(html, from, from)
      invariant work + FindWork(html, i) == FindWork(html, from)
    {
      work := work + 1;
      var code := html[i];
      if code == '\"' || code == '\'' {
        var close := CharIndex(html, code, i + 1);
        if close < 0 {
          return TagEnd(-1, false), work + (|html| - i - 1);
        }
        work := work + (close - i);
        i := close + 1;
      } else if code == '>' {
        return TagEnd(i, i > from && html[i - 1] == '/'), work;
      } else {
        i := i + 1;
      }
    }
    r := TagEnd(-1, false);
  }

  /** The case-insensitive compare at `i`, one character at a time. */
  method MatchesRawClose(html: string, i: nat, lowerName: string) returns (matched: bool, ghost work: nat)
    requires i < |html|
    ensures matched == RawCloseAt(html, i, lowerName)
    ensures work == MatchWork(html, i, lowerName)
  {
    if html[i] != '<' {
      return false, 1;
    }
    if i + 1 >= |html| || html[i + 1] != '/' {
      return false, 2;
    }
    work := 2;
    var k := 0;
    while k < |lowerName| && i + 2 + k < |html| && LowerChar(html[i + 2 + k]) == lowerName[k]
      invariant 0 <= k <= |lowerName| && i + 2 + k <= |html|
      invariant forall j | 0 <= j < k :: LowerChar(html[i + 2 + j]) == lowerName[j]
      invariant work + SameWork(html, i + 2 + k, lowerName, k) == 2 + SameWork(html, i + 2, lowerName, 0)
    {
      k := k + 1;
      work := work + 1;
    }
    work := work + 1;
    var after := i + 2 + |lowerName|;
    if k < |lowerName| {
      assert after <= |html| ==> Lower(html[i + 2..after])[k] != lowerName[k];
      return false, work;
    }
    assert Lower(html[i + 2..after]) == lowerName;
    matched := after == |html| || EndsName(html[after]);
  }

  method FindRawClose(html: string, from: nat, lowerName: string) returns (next: nat, ghost work: nat)
    requires from <= |html|
    ensures next == RawEnd(html, from, lowerName)
    ensures work == RawWork(html, from, lowerName)
  {
    hide MatchWork, RawCloseAt;
    var i := from;
    work := 0;
    while i < |html|
      invariant from <= i <= |html|
      invariant RawEnd(html, i, lowerName) == RawEnd(html, from, lowerName)
      invariant work + RawWork(html, i, lowerName) == RawWork(html, from, lowerName)
    {
      var matched, cost := MatchesRawClose(html, i, lowerName);
      work := work + cost;
      if matched {
        MatchAdvances(html, i, lowerName);
        next := PastGt(html, i + 2 + |lowerName|);
        work := work + (next - i);
        return;
      }
      i := i + 1;
    }
    next := |html|;
  }

  // ---- the stack and its markers ---------------------------------------------

  /** Index of the first open foreign root, or -1. */
  ghost function ForeignAt(open: seq<string>): int {
    FirstIn(open, FOREIGN_ROOTS, 0)
  }

  /** Index of the first integration point open above it, or -1. */
  ghost function IntegrationAt(open: seq<string>): int {
    if ForeignAt(open) < 0 then -1 else FirstIn(open, HTML_INTEGRATION_POINTS, ForeignAt(open) + 1)
  }

  /** Two indices are enough to answer the declarative question. */
  lemma MarkersDecideForeign(open: seq<string>)
    ensures InForeign(open) <==> ForeignAt(open) >= 0 && IntegrationAt(open) < 0
  {
    var f := ForeignAt(open);
    if f >= 0 && IntegrationAt(open) < 0 {
      assert forall k | f < k < |open| :: open[k] !in HTML_INTEGRATION_POINTS;
      assert forall j | 0 <= j < f :: open[j] !in FOREIGN_ROOTS;
    }
    if InForeign(open) {
      var g :| && 0 <= g < |open| && open[g] in FOREIGN_ROOTS
               && (forall j | 0 <= j < g :: open[j] !in FOREIGN_ROOTS)
               && (forall k | g < k < |open| :: open[k] !in HTML_INTEGRATION_POINTS);
      assert f == g;
    }
  }

  lemma FirstInPush(open: seq<string>, names: set<string>, from: nat, name: string)
    requires from <= |open|
    ensures
      var k := FirstIn(open, names, from);
      FirstIn(open + [name], names, from) == if k >= 0 then k else if name in names then |open| else -1
  {
    var longer := open + [name];
    var k, m := FirstIn(open, names, from), FirstIn(longer, names, from);
    assert forall j | 0 <= j < |open| :: longer[j] == open[j];
    assert longer[|open|] == name;
    if k >= 0 {
      assert longer[k] in names;
    }
  }

  lemma FirstInPop(open: seq<string>, names: set<string>, from: nat, n: nat)
    requires n <= |open|
    ensures
      var k := FirstIn(open, names, from);
      FirstIn(open[..n], names, from) == if k < n then k else -1
  {
    var shorter := open[..n];
    var k, m := FirstIn(open, names, from), FirstIn(shorter, names, from);
    if 0 <= k < n {
      assert shorter[k] in names;
    }
  }

  lemma MarkersPop(open: seq<string>, n: nat)
    requires n <= |open|
    ensures ForeignAt(open[..n]) == if ForeignAt(open) < n then ForeignAt(open) else -1
    ensures IntegrationAt(open[..n]) == if IntegrationAt(open) < n then IntegrationAt(open) else -1
  {
    FirstInPop(open, FOREIGN_ROOTS, 0, n);
    if ForeignAt(open) >= 0 {
      FirstInPop(open, HTML_INTEGRATION_POINTS, ForeignAt(open) + 1, n);
    }
  }

  lemma MarkersPush(open: seq<string>, name: string)
    ensures ForeignAt(open + [name]) ==
              if ForeignAt(open) >= 0 then ForeignAt(open) else if name in FOREIGN_ROOTS then |open| else -1
    ensures IntegrationAt(open + [name]) ==
              if IntegrationAt(open) >= 0 then IntegrationAt(open)
              else if ForeignAt(open) >= 0 && name in HTML_INTEGRATION_POINTS then |open| else -1
  {
    FirstInPush(open, FOREIGN_ROOTS, 0, name);
    if ForeignAt(open) >= 0 {
      FirstInPush(open, HTML_INTEGRATION_POINTS, ForeignAt(open) + 1, name);
    }
  }

  method CloseTop(open: seq<string>, name: string) returns (rest: seq<string>, ghost work: nat)
    ensures rest == CloseElement(open, name)
    ensures work == CloseWork(open, name, MAX_CLOSE_SEARCH)
  {
    var floor := if |open| > MAX_CLOSE_SEARCH then |open| - MAX_CLOSE_SEARCH else 0;
    var k := |open| - 1;
    work := 0;
    assert open[..|open|] == open;
    while k >= floor
      invariant floor - 1 <= k < |open|
      invariant forall j | k < j < |open| :: open[j] != name && open[j] !in SEARCH_BARRIER_ELEMENTS
      invariant k + 1 >= |open| - MAX_CLOSE_SEARCH
      invariant work + CloseWork(open[..k + 1], name, MAX_CLOSE_SEARCH - (|open| - 1 - k)) == CloseWork(open, name, MAX_CLOSE_SEARCH)
    {
      work := work + 1;
      assert open[..k + 1][..k] == open[..k];
      if open[k] == name {
        assert PopsTo(open, name, k);
        forall j: nat | PopsTo(open, name, j) ensures j == k { PopsToUnique(open, name, j, k); }
        return open[..k], work;
      }
      if open[k] in SEARCH_BARRIER_ELEMENTS {
        assert forall j: nat :: !PopsTo(open, name, j);
        return open, work;
      }
      k := k - 1;
    }
    assert forall j: nat :: !PopsTo(open, name, j);
    rest := open;
  }

  // ---- the pass --------------------------------------------------------------

  /** The cap holds back every depth but 0. */
  function Saturate(depth: nat, cap: int): int {
    if depth == 0 || depth < cap then depth else cap
  }

  /** What the scan keeps in hand: the open elements and the two markers. */
  datatype Stack = Stack(open: seq<string>, foreignAt: int, integrationAt: int)
  {
    ghost predicate Valid() {
      foreignAt == ForeignAt(open) && integrationAt == IntegrationAt(open)
    }
  }

  method EndTag(stack: Stack, name: string) returns (r: Stack, ghost work: nat)
    requires stack.Valid()
    ensures r.Valid()
    ensures forall max: nat :: Step(Scan(stack.open, max), Close(name)) == Scan(r.open, max)
    ensures forall max: nat :: work == StepWork(Scan(stack.open, max), Close(name))
  {
    var open, foreignAt, integrationAt := stack.open, stack.foreignAt, stack.integrationAt;
    work := 0;
    if !IsVoid(name) {
      open, work := CloseTop(open, name);
    }
    assert open == stack.open[..|open|];
    MarkersPop(stack.open, |open|);
    if integrationAt >= 0 && |open| <= integrationAt { integrationAt := -1; }
    if foreignAt >= 0 && |open| <= foreignAt { foreignAt := -1; }
    r := Stack(open, foreignAt, integrationAt);
  }

  method StartTag(stack: Stack, name: string, selfClosing: bool) returns (r: Stack)
    requires stack.Valid()
    ensures r.Valid()
    ensures r.open == stack.open || r.open == stack.open + [name]
    ensures forall max: nat | |stack.open| <= max ::
      Step(Scan(stack.open, max), Open(name, selfClosing)) == Scan(r.open, Max(max, |r.open|))
  {
    var open, foreignAt, integrationAt := stack.open, stack.foreignAt, stack.integrationAt;
    MarkersDecideForeign(open);
    var inForeign := foreignAt >= 0 && |open| > foreignAt && !(integrationAt >= 0 && |open| > integrationAt);
    if !(selfClosing && inForeign) && !IsVoid(name) {
      MarkersPush(open, name);
      if name in FOREIGN_ROOTS {
        if foreignAt < 0 { foreignAt := |open|; }
      } else if inForeign && name in HTML_INTEGRATION_POINTS {
        if integrationAt < 0 { integrationAt := |open|; }
      }
      open := open + [name];
    }
    r := Stack(open, foreignAt, integrationAt);
  }

  /** Reads what the `<` at `lt` starts: a comment or declaration, an end tag, a
      start tag (raw text with its content), or a bare `<`. */
  method ReadMarkup(lower: string -> string, html: string, lt: nat) returns (p: Piece, ghost work: nat)
    requires lt < |html| && html[lt] == '<'
    ensures p == TokenAt(lower, html, lt)
    ensures work == TokenWork(lower, html, lt)
  {
    hide NameEnd, FindEnd, RawEnd, CharIndex, PastGt, PastComment, StartsAt, IsAlpha, FindWork, RawWork, NameWork;
    var n := |html|;
    if lt + 1 >= n {
      return Piece(Skip, lt + 1), 1;
    }
    var next := html[lt + 1];

    // <!-- comment -->, <!doctype ...>, <![CDATA[ ... ]]>
    if next == '!' {
      if StartsAt(html, "<!--", lt) {
        assert lt + 4 <= n by { CommentFits(html, lt); }
        var end := PastComment(html, lt + 4);
        return Piece(Skip, end), end - lt;
      }
      var end := PastGt(html, lt + 2);
      return Piece(Skip, end), end - lt;
    }

    // <? processing instruction
    if next == '?' {
      var end := PastGt(html, lt + 2);
      return Piece(Skip, end), end - lt;
    }

    // </close>
    if next == '/' {
      var end := PastGt(html, lt + 2);
      if lt + 2 < n && IsAlpha(html[lt + 2]) {
        var j, cost := TagNameEnd(html, lt + 2);
        return Piece(Close(lower(html[lt + 2..j])), end), cost + (end - lt);
      }
      return Piece(Skip, end), end - lt;
    }

    // <open ...>
    if IsAlpha(next) {
      var j, cost := TagNameEnd(html, lt + 1);
      var name := lower(html[lt + 1..j]);
      var end, cost' := FindTagEnd(html, j);
      work := cost + cost';
      var body := if end.gt < 0 then n else end.gt + 1;
      if IsRawText(name) {
        var past, cost'' := FindRawClose(html, body, name);
        return Piece(Raw(name), past), work + cost'';
      }
      return Piece(Open(name, end.selfClosing), body), work;
    }

    // a bare '<' is text
    return Piece(Skip, lt + 1), 1;
  }

  /** The whole scan. `stacks` are the open elements it held after each tag it
      read, `work` what reading them cost. */
  method MaxNestingDepth(lower: string -> string, html: string, cap: int)
    returns (depth: int, ghost stacks: seq<seq<string>>, ghost work: nat)
    ensures depth == Saturate(Depth(lower, html), cap)
    ensures stacks == Stacks(Scan([], 0), Tokens(lower, html, 0), cap)
    ensures work == Cost(lower, html, cap)
  {
    hide Tokens, TokenAt, Run, Stack.Valid, InForeign, CloseElement, TokenWork, ScanWork, Stacks, Step, StepWork;
    var n := |html|;
    var i := 0;
    var stack := Stack([], -1, -1);
    assert stack.Valid() by { EmptyStack(); }
    var max: nat := 0;
    stacks, work := [], 0;
    assert [] + Stacks(Scan([], 0), Tokens(lower, html, 0), cap) == Stacks(Scan([], 0), Tokens(lower, html, 0), cap);
    while i < n
      invariant 0 <= i <= n
      invariant Run(Scan(stack.open, max), Tokens(lower, html, i)).max == Depth(lower, html)
      invariant |stack.open| <= max && (max == 0 || max < cap)
      invariant stack.Valid()
      invariant stacks + Stacks(Scan(stack.open, max), Tokens(lower, html, i), cap)
                == Stacks(Scan([], 0), Tokens(lower, html, 0), cap)
      invariant work + ScanWork(lower, html, i, Scan(stack.open, max), cap) == Cost(lower, html, cap)
    {
      ghost var before := Scan(stack.open, max);
      var lt := CharIndex(html, '<', i);
      if lt < 0 {
        NoMoreTags(lower, html, i, before, cap);
        work := work + (n - i);
        i := n;
        break;
      }
      Advance(lower, html, i, before, cap);
      var piece, cost := ReadMarkup(lower, html, lt);
      work := work + (lt - i + 1) + cost;
      var level := 0;
      match piece.token {
        case Skip =>
          StepSkip(before);
        case Close(name) =>
          stack, cost := EndTag(stack, name);
          work := work + cost;
          CloseShrinks(before, name);
        case Raw(name) =>
          level := |stack.open| + 1;
          StepRaw(before, name);
        case Open(name, selfClosing) =>
          stack := StartTag(stack, name, selfClosing);
          level := |stack.open|;
          StepOpen(before, name, selfClosing);
      }
      if !piece.token.Skip? {
        stacks := stacks + [stack.open];
      }
      if level > max {
        max := level;
        if max >= cap {
          // the answer can only grow from here
          MaxNeverDrops(Step(before, piece.token), Tokens(lower, html, piece.next));
          return cap, stacks, work;
        }
      }
      i := piece.next;
    }
    NoTagsAtEnd(lower, html, Scan(stack.open, max), cap);
    depth := max;
  }

  /** One piece of the text, as all three measures see it. */
  lemma Advance(lower: string -> string, html: string, i: nat, s: Scan, cap: int)
    requires CharIndex(html, '<', i) >= 0 && i <= |html|
    ensures
      var lt := CharIndex(html, '<', i);
      var p := TokenAt(lower, html, lt);
      var s' := Step(s, p.token);
      var answered := Answered(s, s', cap);
      && Run(s, Tokens(lower, html, i)) == Run(s', Tokens(lower, html, p.next))
      && Stacks(s, Tokens(lower, html, i), cap) ==
           (if p.token.Skip? then [] else [s'.open]) + (if answered then [] else Stacks(s', Tokens(lower, html, p.next), cap))
      && ScanWork(lower, html, i, s, cap) ==
           (lt - i + 1) + TokenWork(lower, html, lt) + StepWork(s, p.token)
           + (if answered then 0 else ScanWork(lower, html, p.next, s', cap))
  {
    hide TokenAt, Step, TokenWork, StepWork;
    var p := TokenAt(lower, html, CharIndex(html, '<', i));
    if p.token.Skip? {
      StepSkip(s);
      assert Tokens(lower, html, i) == [] + Tokens(lower, html, p.next) == Tokens(lower, html, p.next);
      assert [] + Stacks(s, Tokens(lower, html, p.next), cap) == Stacks(s, Tokens(lower, html, p.next), cap);
    } else {
      assert Tokens(lower, html, i) == [p.token] + Tokens(lower, html, p.next);
      assert Tokens(lower, html, i)[1..] == Tokens(lower, html, p.next);
    }
  }

  lemma StepSkip(s: Scan)
    ensures Step(s, Skip) == s && StepWork(s, Skip) == 0
  {
  }

  lemma CloseShrinks(s: Scan, name: string)
    ensures Step(s, Close(name)).max == s.max && |Step(s, Close(name)).open| <= |s.open|
  {
  }

  lemma StepRaw(s: Scan, name: string)
    ensures Step(s, Raw(name)) == s.(max := Max(s.max, |s.open| + 1)) && StepWork(s, Raw(name)) == 0
  {
  }

  lemma StepOpen(s: Scan, name: string, selfClosing: bool)
    ensures StepWork(s, Open(name, selfClosing)) == 0
  {
  }

  lemma CommentFits(html: string, lt: nat)
    requires StartsAt(html, "<!--", lt)
    ensures lt + 4 <= |html|
  {
  }

  lemma EmptyStack()
    ensures Stack([], -1, -1).Valid()
  {
  }

  lemma NoMoreTags(lower: string -> string, html: string, i: nat, s: Scan, cap: int)
    requires CharIndex(html, '<', i) < 0 && i <= |html|
    ensures Tokens(lower, html, i) == Tokens(lower, html, |html|)
    ensures ScanWork(lower, html, i, s, cap) == |html| - i && ScanWork(lower, html, |html|, s, cap) == 0
  {
  }

  lemma NoTagsAtEnd(lower: string -> string, html: string, s: Scan, cap: int)
    ensures Tokens(lower, html, |html|) == []
    ensures Run(s, Tokens(lower, html, |html|)) == s
    ensures Stacks(s, Tokens(lower, html, |html|), cap) == []
    ensures ScanWork(lower, html, |html|, s, cap) == 0
  {
  }

  /** A cap above the caller's threshold never changes the verdict. */
  lemma CapKeepsVerdict(depth: nat, cap: int, threshold: nat)
    ensures threshold < cap ==> (Saturate(depth, cap) > threshold <==> depth > threshold)
    ensures 0 <= cap <= threshold ==> Saturate(depth, cap) <= threshold
  {
  }
}
