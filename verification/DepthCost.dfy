/** What the depth scan costs, as a function of the text alone: the characters it
    visits and the names it compares, and the stacks it holds on the way. */
module DepthCost {
  import opened DepthSpec

  // ---- the parts -------------------------------------------------------------

  function NameWork(text: string, from: nat): nat
    requires from <= |text|
  {
    NameEnd(text, from) - from + 1
  }

  /** Quoted values are searched for their closing quote. */
  function FindWork(text: string, i: nat): nat
    decreases |text| - i
  {
    if i >= |text| then 0
    else if text[i] == '\"' || text[i] == '\'' then
      var close := CharIndex(text, text[i], i + 1);
      if close < 0 then |text| - i else 1 + (close - i) + FindWork(text, close + 1)
    else if text[i] == '>' then 1
    else 1 + FindWork(text, i + 1)
  }

  /** Equal characters at the front of `name[k..]` and of the text from `at`. */
  function SameWork(text: string, at: nat, name: string, k: nat): nat
    requires k <= |name|
    decreases |name| - k
  {
    if k == |name| || at >= |text| || LowerChar(text[at]) != name[k] then 0 else 1 + SameWork(text, at + 1, name, k + 1)
  }

  /** `<`, `/`, the equal characters, and the one that decides. */
  function MatchWork(text: string, i: nat, name: string): nat
    requires i < |text|
  {
    if text[i] != '<' then 1
    else if i + 1 >= |text| || text[i + 1] != '/' then 2
    else 3 + SameWork(text, i + 2, name, 0)
  }

  function RawWork(text: string, i: nat, name: string): nat
    decreases |text| - i
  {
    if i >= |text| then 0
    else if RawCloseAt(text, i, name) then
      MatchAdvances(text, i, name);
      MatchWork(text, i, name) + (PastGt(text, i + 2 + |name|) - i)
    else MatchWork(text, i, name) + RawWork(text, i + 1, name)
  }

  lemma MatchAdvances(text: string, i: nat, name: string)
    requires i < |text| && RawCloseAt(text, i, name)
    ensures i < PastGt(text, i + 2 + |name|)
  {
  }

  /** Reading what the `<` at `i` starts. */
  function TokenWork(lower: string -> string, text: string, i: nat): nat
    requires i < |text| && text[i] == '<'
  {
    var read := TokenAt(lower, text, i).next - i;
    if i + 1 >= |text| then 1
    else if text[i + 1] == '!' || text[i + 1] == '?' then read
    else if text[i + 1] == '/' then
      (if i + 2 < |text| && IsAlpha(text[i + 2]) then NameWork(text, i + 2) else 0) + read
    else if IsAlpha(text[i + 1]) then
      var j := NameEnd(text, i + 1);
      var name := lower(text[i + 1..j]);
      var end := FindEnd(text, j, j);
      var body := if end.gt < 0 then |text| else end.gt + 1;
      NameWork(text, i + 1) + FindWork(text, j) + (if IsRawText(name) then RawWork(text, body, name) else 0)
    else 1
  }

  /** Names compared, from the top, until one decides or `reach` are done. */
  function CloseWork(open: seq<string>, name: string, reach: nat): nat {
    if open == [] || reach == 0 then 0
    else
      var top := open[|open| - 1];
      if top == name || top in SEARCH_BARRIER_ELEMENTS then 1 else 1 + CloseWork(open[..|open| - 1], name, reach - 1)
  }

  function StepWork(s: Scan, t: Token): nat {
    if t.Close? && !IsVoid(t.name) then CloseWork(s.open, t.name, MAX_CLOSE_SEARCH) else 0
  }

  // ---- the whole -------------------------------------------------------------

  /** The step that makes the answer known. */
  predicate Answered(s: Scan, s': Scan, cap: int) {
    s'.max > s.max && s'.max >= cap
  }

  ghost function ScanWork(lower: string -> string, text: string, i: nat, s: Scan, cap: int): nat
    requires i <= |text|
    decreases |text| - i
  {
    var lt := CharIndex(text, '<', i);
    if lt < 0 then |text| - i
    else
      var p := TokenAt(lower, text, lt);
      var s' := Step(s, p.token);
      (lt - i + 1) + TokenWork(lower, text, lt) + StepWork(s, p.token)
      + (if Answered(s, s', cap) then 0 else ScanWork(lower, text, p.next, s', cap))
  }

  ghost function Cost(lower: string -> string, text: string, cap: int): nat {
    ScanWork(lower, text, 0, Scan([], 0), cap)
  }

  /** The open elements after each tag, up to the one that settles the answer. */
  ghost function Stacks(s: Scan, ts: seq<Token>, cap: int): seq<seq<string>>
    decreases ts
  {
    if ts == [] then []
    else
      var s' := Step(s, ts[0]);
      [s'.open] + (if Answered(s, s', cap) then [] else Stacks(s', ts[1..], cap))
  }

  // ---- bounds ----------------------------------------------------------------

  lemma {:induction false} StacksStayBelow(s: Scan, ts: seq<Token>, cap: int)
    requires |s.open| <= s.max && (s.max == 0 || s.max < cap)
    ensures
      var held, most := Stacks(s, ts, cap), if cap < 1 then 1 else cap;
      && |held| <= |ts|
      && (forall k | 0 <= k < |held| :: held[k] == Run(s, ts[..k + 1]).open && |held[k]| <= most)
      && (forall k | 0 <= k < |held| - 1 :: |held[k]| < most)
      && (|held| < |ts| ==> Run(s, ts[..|held|]).max >= cap)
    decreases ts
  {
    hide Step, Answered;
    if ts != [] {
      var s' := Step(s, ts[0]);
      StepFits(s, ts[0]);
      forall k | 0 <= k < |ts|
        ensures Run(s, ts[..k + 1]) == Run(s', ts[1..][..k])
      {
        assert ts[..k + 1][0] == ts[0] && ts[..k + 1][1..] == ts[1..][..k];
      }
      assert ts[1..][..0] == [];
      if !Answered(s, s', cap) {
        NotAnswered(s, s', cap);
        StacksStayBelow(s', ts[1..], cap);
        var held := Stacks(s', ts[1..], cap);
        assert Stacks(s, ts, cap) == [s'.open] + held;
        assert held == [] ==> ts[1..] == [];
      } else {
        AnswerKnown(s, s', cap);
      }
    }
  }

  lemma StepFits(s: Scan, t: Token)
    requires |s.open| <= s.max
    ensures
      var s' := Step(s, t);
      && |s'.open| <= s'.max && s.max <= s'.max
      && (s'.max > s.max ==> s'.max == |s.open| + 1)
  {
    hide InForeign, CloseElement;
  }

  lemma NotAnswered(s: Scan, s': Scan, cap: int)
    requires (s.max == 0 || s.max < cap) && s.max <= s'.max && !Answered(s, s', cap)
    ensures s'.max == 0 || s'.max < cap
  {
  }

  lemma AnswerKnown(s: Scan, s': Scan, cap: int)
    requires Answered(s, s', cap)
    ensures s'.max >= cap && s'.max > s.max
  {
  }

  /** The longest raw-text element name, `plaintext`, has nine characters. */
  const MAX_RAW_NAME := 9

  lemma RawNamesAreShort(name: string)
    requires IsRawText(name)
    ensures |name| <= MAX_RAW_NAME
  {
  }

  lemma {:induction false} SameIsShort(text: string, at: nat, name: string, k: nat)
    requires k <= |name|
    ensures SameWork(text, at, name, k) <= |name| - k
    decreases |name| - k
  {
    if k < |name| {
      SameIsShort(text, at + 1, name, k + 1);
    }
  }

  lemma {:induction false} RawIsLinear(text: string, i: nat, name: string)
    requires i <= |text| && |name| <= MAX_RAW_NAME
    ensures RawWork(text, i, name) <= 13 * (RawEnd(text, i, name) - i)
    decreases |text| - i
  {
    hide RawCloseAt, PastGt;
    if i < |text| {
      SameIsShort(text, i + 2, name, 0);
      if RawCloseAt(text, i, name) {
        MatchAdvances(text, i, name);
      } else {
        RawIsLinear(text, i + 1, name);
      }
    }
  }

  lemma {:induction false} FindIsLinear(text: string, from: nat, i: nat)
    requires from <= i <= |text|
    ensures
      var gt := FindEnd(text, from, i).gt;
      FindWork(text, i) <= 2 * ((if gt < 0 then |text| else gt) - i) + 1
    decreases |text| - i
  {
    hide CharIndex;
    if i < |text| {
      if text[i] == '\"' || text[i] == '\'' {
        var close := CharIndex(text, text[i], i + 1);
        if close >= 0 {
          FindIsLinear(text, from, close + 1);
        }
      } else if text[i] != '>' {
        FindIsLinear(text, from, i + 1);
      }
    }
  }

  lemma {:induction false} NameBeforeGt(text: string, from: nat)
    requires from <= |text|
    ensures NameEnd(text, from) <= PastGt(text, from)
    decreases |text| - from
  {
    if from < |text| && !EndsName(text[from]) {
      NameBeforeGt(text, from + 1);
    }
  }

  lemma TokenIsLinear(lower: string -> string, text: string, i: nat)
    requires i < |text| && text[i] == '<'
    ensures TokenWork(lower, text, i) <= 13 * (TokenAt(lower, text, i).next - i)
  {
    hide NameEnd, FindEnd, RawEnd, PastComment, StartsAt, FindWork, RawWork, PastGt;
    if i + 1 < |text| {
      if text[i + 1] == '/' {
        if i + 2 < |text| {
          NameBeforeGt(text, i + 2);
        }
      } else if IsAlpha(text[i + 1]) {
        var j := NameEnd(text, i + 1);
        FindIsLinear(text, j, j);
        var end := FindEnd(text, j, j);
        var body := if end.gt < 0 then |text| else end.gt + 1;
        var name := lower(text[i + 1..j]);
        if IsRawText(name) {
          RawNamesAreShort(name);
          RawIsLinear(text, body, name);
        }
      }
    }
  }

  lemma {:induction false} CloseIsBounded(open: seq<string>, name: string, reach: nat)
    ensures CloseWork(open, name, reach) <= reach
    decreases reach
  {
    if open != [] && reach > 0 {
      CloseIsBounded(open[..|open| - 1], name, reach - 1);
    }
  }

  lemma {:induction false} WorkIsLinear(lower: string -> string, text: string, i: nat, s: Scan, cap: int)
    requires i <= |text|
    ensures ScanWork(lower, text, i, s, cap) <= 14 * (|text| - i) + MAX_CLOSE_SEARCH * EndTags(Tokens(lower, text, i))
    decreases |text| - i
  {
    hide TokenAt, Step, TokenWork, CharIndex, CloseWork, EndTags;
    var lt := CharIndex(text, '<', i);
    if lt >= 0 {
      var p := TokenAt(lower, text, lt);
      TokenIsLinear(lower, text, lt);
      if p.token.Close? {
        CloseIsBounded(s.open, p.token.name, MAX_CLOSE_SEARCH);
      }
      TagsFrom(lower, text, i);
      WorkIsLinear(lower, text, p.next, Step(s, p.token), cap);
    }
  }

  lemma TagsFrom(lower: string -> string, text: string, i: nat)
    requires CharIndex(text, '<', i) >= 0
    ensures
      var p := TokenAt(lower, text, CharIndex(text, '<', i));
      EndTags(Tokens(lower, text, i)) == (if p.token.Close? then 1 else 0) + EndTags(Tokens(lower, text, p.next))
  {
    hide TokenAt, CharIndex;
    var p := TokenAt(lower, text, CharIndex(text, '<', i));
    if p.token.Skip? {
      assert Tokens(lower, text, i) == [] + Tokens(lower, text, p.next) == Tokens(lower, text, p.next);
    } else {
      assert Tokens(lower, text, i) == [p.token] + Tokens(lower, text, p.next);
      assert Tokens(lower, text, i)[1..] == Tokens(lower, text, p.next);
    }
  }

  /** An end tag takes at least three characters. */
  lemma {:induction false} EndTagsAreFew(lower: string -> string, text: string, i: nat)
    requires i <= |text|
    ensures 3 * EndTags(Tokens(lower, text, i)) <= |text| - i
    decreases |text| - i
  {
    hide TokenAt, CharIndex, EndTags;
    var lt := CharIndex(text, '<', i);
    if lt >= 0 {
      TagsFrom(lower, text, i);
      CloseIsLong(lower, text, lt);
      EndTagsAreFew(lower, text, TokenAt(lower, text, lt).next);
    } else {
      assert EndTags([]) == 0 by { NoEndTags(); }
    }
  }

  lemma NoEndTags()
    ensures EndTags([]) == 0
  {
  }

  lemma CloseIsLong(lower: string -> string, text: string, i: nat)
    requires i < |text| && text[i] == '<'
    ensures TokenAt(lower, text, i).token.Close? ==> i + 3 <= TokenAt(lower, text, i).next
  {
    hide NameEnd, FindEnd, RawEnd, PastComment, StartsAt;
  }

  /** The scan is linear: at most 14 steps a character and 32 comparisons an end
      tag, and so at most 25 steps a character in all. */
  lemma CostIsLinear(lower: string -> string, text: string, cap: int)
    ensures Cost(lower, text, cap) <= 14 * |text| + MAX_CLOSE_SEARCH * EndTags(Tokens(lower, text, 0))
    ensures Cost(lower, text, cap) <= 25 * |text|
  {
    hide ScanWork, Tokens, EndTags;
    WorkIsLinear(lower, text, 0, Scan([], 0), cap);
    EndTagsAreFew(lower, text, 0);
  }

  /** The stack never holds more than `cap` elements, fewer until the answer is
      known; what it holds is what the declarative scan has open. */
  lemma StackNeverExceedsCap(lower: string -> string, text: string, cap: int)
    ensures
      var ts := Tokens(lower, text, 0);
      var held, most := Stacks(Scan([], 0), ts, cap), if cap < 1 then 1 else cap;
      && |held| <= |ts|
      && (forall k | 0 <= k < |held| :: held[k] == Run(Scan([], 0), ts[..k + 1]).open && |held[k]| <= most)
      && (forall k | 0 <= k < |held| - 1 :: |held[k]| < most)
      && (|held| < |ts| ==> Run(Scan([], 0), ts[..|held|]).max >= cap)
  {
    hide Stacks, Tokens, Run;
    StacksStayBelow(Scan([], 0), Tokens(lower, text, 0), cap);
  }
}
