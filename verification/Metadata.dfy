/** Normalising titles, descriptions and tags (src/metadata.ts). What a backup
    restores goes through these again, so it matters which of them settle. */
module Metadata {

  const TITLE_MAX_INPUT_CHARS := 300
  const DESCRIPTION_MAX_CHARS := 500
  const TAGS_MAX_COUNT := 10
  const TAG_MAX_CHARS := 32

  // ---- titles and descriptions -----------------------------------------------

  /** What `\s` and `trim` take for white space. */
  predicate IsSpace(c: char) {
    || '\U{9}' <= c <= '\U{d}' || c == ' ' || c == '\U{a0}' || c == '\U{1680}' || '\U{2000}' <= c <= '\U{200a}'
    || c == '\U{2028}' || c == '\U{2029}' || c == '\U{202f}' || c == '\U{205f}' || c == '\U{3000}' || c == '\U{feff}'
  }

  /** The controls that are dropped outright. */
  predicate IsControl(c: char) {
    c <= '\U{8}' || '\U{e}' <= c <= '\U{1f}' || '\U{7f}' <= c <= '\U{9f}'
  }

  function Strip(s: string): string {
    if s == "" then "" else (if IsControl(s[0]) then "" else [s[0]]) + Strip(s[1..])
  }

  function DropSpaces(s: string): (r: string)
    ensures |r| <= |s|
    ensures r != "" ==> !IsSpace(r[0])
  {
    if s != "" && IsSpace(s[0]) then DropSpaces(s[1..]) else s
  }

  /** Every run of white space becomes one blank. */
  function Collapse(s: string): string
    decreases |s|
  {
    if s == "" then ""
    else if IsSpace(s[0]) then " " + Collapse(DropSpaces(s[1..]))
    else [s[0]] + Collapse(s[1..])
  }

  function TrimEnd(s: string): (r: string)
    ensures |r| <= |s| && r == s[..|r|]
    ensures r != "" ==> !IsSpace(r[|r| - 1])
  {
    if s != "" && IsSpace(s[|s| - 1]) then TrimEnd(s[..|s| - 1]) else s
  }

  function Trim(s: string): string { TrimEnd(DropSpaces(s)) }

  function Cut(s: string, max: nat): string { if |s| > max then s[..max] else s }

  /** The text before the cut; `nfc` composes it first. */
  function Whole(nfc: string -> string, raw: string): string { Trim(Collapse(Strip(nfc(raw)))) }

  function ValidateTextInput(nfc: string -> string, raw: string, max: nat): string { Cut(Whole(nfc, raw), max) }

  predicate TidyAt(s: string, i: nat)
    requires i < |s|
  {
    && !IsControl(s[i])
    && (IsSpace(s[i]) ==> s[i] == ' ' && (i + 1 < |s| ==> !IsSpace(s[i + 1])))
  }

  /** No controls, and blanks only singly. */
  ghost predicate Tidy(s: string) {
    forall i | 0 <= i < |s| :: TidyAt(s, i)
  }

  lemma TidySlice(s: string, from: nat, to: nat)
    requires Tidy(s) && from <= to <= |s|
    ensures Tidy(s[from..to])
  {
    hide IsSpace, IsControl;
    var t := s[from..to];
    forall i | 0 <= i < |t|
      ensures TidyAt(t, i)
    {
      assert TidyAt(s, from + i) && t[i] == s[from + i];
    }
  }

  lemma {:induction false} StripDrops(s: string)
    ensures forall i | 0 <= i < |Strip(s)| :: !IsControl(Strip(s)[i])
    decreases s
  {
    if s != "" {
      StripDrops(s[1..]);
    }
  }

  lemma {:induction false} DropSpacesKeeps(s: string)
    requires forall i | 0 <= i < |s| :: !IsControl(s[i])
    ensures forall i | 0 <= i < |DropSpaces(s)| :: !IsControl(DropSpaces(s)[i])
    decreases s
  {
    if s != "" && IsSpace(s[0]) {
      DropSpacesKeeps(s[1..]);
    }
  }

  lemma {:induction false} CollapseTidies(s: string)
    requires forall i | 0 <= i < |s| :: !IsControl(s[i])
    ensures Tidy(Collapse(s))
    ensures s != "" && !IsSpace(s[0]) ==> Collapse(s) != "" && Collapse(s)[0] == s[0]
    decreases |s|
  {
    hide IsSpace, IsControl;
    if s != "" {
      BlankIsBlank();
      if IsSpace(s[0]) {
        DropSpacesKeeps(s[1..]);
        CollapseTidies(DropSpaces(s[1..]));
        TidyCons(' ', Collapse(DropSpaces(s[1..])));
      } else {
        CollapseTidies(s[1..]);
        TidyCons(s[0], Collapse(s[1..]));
      }
    }
  }

  lemma BlankIsBlank()
    ensures IsSpace(' ') && !IsControl(' ')
  {
  }

  lemma TidyCons(c: char, s: string)
    requires Tidy(s) && !IsControl(c) && (IsSpace(c) ==> c == ' ' && (s != "" ==> !IsSpace(s[0])))
    ensures Tidy([c] + s)
  {
    hide IsSpace, IsControl;
    forall i | 0 <= i < |[c] + s|
      ensures TidyAt([c] + s, i)
    {
      assert i > 0 ==> TidyAt(s, i - 1);
    }
  }

  lemma {:induction false} StripSame(s: string)
    requires forall i | 0 <= i < |s| :: !IsControl(s[i])
    ensures Strip(s) == s
    decreases s
  {
    if s != "" {
      StripSame(s[1..]);
    }
  }

  lemma {:induction false} CollapseSame(s: string)
    requires Tidy(s)
    ensures Collapse(s) == s
    decreases |s|
  {
    hide IsSpace, IsControl;
    if s != "" {
      assert TidyAt(s, 0);
      TidySlice(s, 1, |s|);
      assert s[1..|s|] == s[1..];
      CollapseSame(s[1..]);
      assert DropSpaces(s[1..]) == s[1..] || !IsSpace(s[0]);
    }
  }

  /** A tidy text loses at most one blank at each end. */
  lemma TrimTidy(s: string)
    requires Tidy(s)
    ensures Tidy(Trim(s)) && (Trim(s) != "" ==> !IsSpace(Trim(s)[0]) && !IsSpace(Trim(s)[|Trim(s)| - 1]))
    ensures s == "" ==> Trim(s) == ""
    ensures s != "" && !IsSpace(s[0]) ==> Trim(s) == if IsSpace(s[|s| - 1]) then s[..|s| - 1] else s
  {
    hide IsSpace, IsControl;
    if s != "" {
      assert TidyAt(s, 0);
      assert DropSpaces(s) == if IsSpace(s[0]) then s[1..] else s;
      TidySlice(s, 1, |s|);
      assert s[1..|s|] == s[1..];
    }
    TrimEndTidy(DropSpaces(s));
  }

  lemma TrimEndTidy(t: string)
    requires Tidy(t) && (t != "" ==> !IsSpace(t[0]))
    ensures TrimEnd(t) == if t != "" && IsSpace(t[|t| - 1]) then t[..|t| - 1] else t
    ensures Tidy(TrimEnd(t)) && (TrimEnd(t) != "" ==> TrimEnd(t)[0] == t[0])
  {
    hide IsSpace, IsControl;
    if t != "" && IsSpace(t[|t| - 1]) {
      var p := t[..|t| - 1];
      TidySlice(t, 0, |t| - 1);
      if p != "" {
        assert TidyAt(t, |p| - 1);
      }
      assert TrimEnd(p) == p;
    }
  }

  lemma WholeIsTidy(nfc: string -> string, raw: string)
    ensures
      var c := Whole(nfc, raw);
      Tidy(c) && (c != "" ==> !IsSpace(c[0]) && !IsSpace(c[|c| - 1]))
  {
    var s := nfc(raw);
    StripDrops(s);
    CollapseTidies(Strip(s));
    TrimTidy(Collapse(Strip(s)));
  }

  lemma TidyStrips(s: string)
    requires Tidy(s)
    ensures Strip(s) == s
  {
    hide IsSpace, IsControl;
    forall i | 0 <= i < |s|
      ensures !IsControl(s[i])
    {
      assert TidyAt(s, i);
    }
    StripSame(s);
  }

  // ---- composition -----------------------------------------------------------

  /** Neither white space nor controls. */
  ghost predicate Plain(s: string) {
    forall i | 0 <= i < |s| :: !IsSpace(s[i]) && !IsControl(s[i])
  }

  /** What the model takes from Unicode about composing (NFC): composing twice is
      composing once; every part of a composed text is composed; nothing composes
      or reorders across white space, and a blank is itself; text without white
      space or controls gains none. */
  ghost predicate Composes(nfc: string -> string) {
    && (forall s :: nfc(nfc(s)) == nfc(s))
    && (forall s, i, j | 0 <= i <= j <= |s| && nfc(s) == s :: nfc(s[i..j]) == s[i..j])
    && (forall a, w, b | IsSpace(w) :: nfc(a + [w] + b) == nfc(a) + nfc([w]) + nfc(b))
    && nfc(" ") == " "
    && (forall s | Plain(s) :: Plain(nfc(s)) && (s != "" ==> nfc(s) != ""))
  }

  predicate Composed(nfc: string -> string, s: string) { nfc(s) == s }

  lemma PartsCompose(nfc: string -> string, s: string, i: nat, j: nat)
    requires Composes(nfc) && Composed(nfc, s) && i <= j <= |s|
    ensures Composed(nfc, s[i..j])
  {
  }

  lemma PrefixComposes(nfc: string -> string, s: string, j: nat)
    requires Composes(nfc) && Composed(nfc, s) && j <= |s|
    ensures Composed(nfc, s[..j])
  {
    PartsCompose(nfc, s, 0, j);
    assert s[0..j] == s[..j];
  }

  lemma SpaceSplits(nfc: string -> string, a: string, w: char, b: string)
    requires Composes(nfc) && IsSpace(w)
    ensures nfc(a + [w] + b) == nfc(a) + nfc([w]) + nfc(b)
  {
  }

  lemma PlainStays(nfc: string -> string, s: string)
    requires Composes(nfc) && Plain(s)
    ensures Plain(nfc(s)) && (nfc(s) == "" <==> s == "")
  {
    if s == "" {
      PartsCompose(nfc, " ", 0, 0);
      assert " "[0..0] == "";
    }
  }

  lemma ComposedOnce(nfc: string -> string, s: string)
    requires Composes(nfc)
    ensures Composed(nfc, nfc(s)) && nfc("") == "" && Composed(nfc, " ")
  {
    PartsCompose(nfc, " ", 0, 0);
    assert " "[0..0] == "";
  }

  /** Around composed white space a text is composed exactly when both sides are. */
  lemma ComposedAround(nfc: string -> string, a: string, w: char, b: string)
    requires Composes(nfc) && IsSpace(w) && Composed(nfc, [w])
    ensures Composed(nfc, a + [w] + b) <==> Composed(nfc, a) && Composed(nfc, b)
  {
    hide Composes, IsSpace;
    var s := a + [w] + b;
    SpaceSplits(nfc, a, w, b);
    if Composed(nfc, s) {
      PartsCompose(nfc, s, 0, |a|);
      PartsCompose(nfc, s, |a| + 1, |s|);
      assert s[0..|a|] == a && s[|a| + 1..|s|] == b;
    }
  }

  lemma {:induction false} FirstSpace(s: string) returns (n: nat)
    ensures n <= |s| && (forall i | 0 <= i < n :: !IsSpace(s[i])) && (n < |s| ==> IsSpace(s[n]))
    ensures n < |s| ==> s == s[..n] + [s[n]] + s[n + 1..]
    decreases s
  {
    hide IsSpace;
    if s == "" || IsSpace(s[0]) {
      n := 0;
    } else {
      n := FirstSpace(s[1..]);
      n := n + 1;
    }
  }

  /** Both edges of one text are white space where those of the other are. */
  predicate SameEdges(s: string, t: string) {
    && (s == "" <==> t == "")
    && (s != "" ==> (IsSpace(s[0]) <==> IsSpace(t[0])) && (IsSpace(s[|s| - 1]) <==> IsSpace(t[|t| - 1])))
  }

  /** Composing keeps a text tidy. */
  lemma {:induction false} ComposedTidy(nfc: string -> string, s: string)
    requires Composes(nfc) && Tidy(s)
    ensures Tidy(nfc(s)) && SameEdges(s, nfc(s))
    decreases |s|
  {
    hide IsSpace, IsControl, Composes;
    var n := FirstSpace(s);
    var a := s[..n];
    forall i | 0 <= i < n
      ensures !IsSpace(a[i]) && !IsControl(a[i])
    {
      assert TidyAt(s, i);
    }
    PlainStays(nfc, a);
    if n == |s| {
      assert a == s;
      PlainIsTidy(nfc(s));
    } else {
      var b := s[n + 1..];
      assert TidyAt(s, n);
      TidySlice(s, n + 1, |s|);
      assert s[n + 1..|s|] == b;
      ComposedTidy(nfc, b);
      ComposedOnce(nfc, s);
      SpaceSplits(nfc, a, ' ', b);
      JoinTidy(nfc(a), nfc(b));
    }
  }

  lemma PlainIsTidy(s: string)
    requires Plain(s)
    ensures Tidy(s)
  {
  }

  lemma JoinTidy(a: string, b: string)
    requires Plain(a) && Tidy(b) && (b != "" ==> !IsSpace(b[0]))
    ensures Tidy(a + " " + b)
  {
    hide IsSpace, IsControl;
    BlankIsBlank();
    var s := a + " " + b;
    forall i | 0 <= i < |s|
      ensures TidyAt(s, i)
    {
      if i > |a| {
        assert TidyAt(b, i - |a| - 1);
      }
    }
  }

  // ---- doing it again --------------------------------------------------------

  /** A tidy text that does not start with a blank. */
  ghost predicate Kept(x: string) { Tidy(x) && (x != "" ==> !IsSpace(x[0])) }

  function WithoutLastBlank(t: string): string {
    if t != "" && t[|t| - 1] == ' ' then t[..|t| - 1] else t
  }

  lemma CutIsKept(c: string, max: nat)
    requires Tidy(c) && (c != "" ==> !IsSpace(c[0])) && max >= 1
    ensures Kept(Cut(c, max)) && |Cut(c, max)| <= max
  {
    hide IsSpace, IsControl;
    var p := Cut(c, max);
    TidySlice(c, 0, |p|);
    assert c[0..|p|] == p;
  }

  /** On a text that was normalised before, only composing and one blank at the end
      are left to do. */
  lemma WholeAgain(nfc: string -> string, x: string)
    requires Composes(nfc) && Kept(x)
    ensures Whole(nfc, x) == WithoutLastBlank(nfc(x))
    ensures Tidy(nfc(x)) && SameEdges(x, nfc(x))
  {
    hide IsSpace, IsControl, Composes, Strip, Collapse, Trim;
    var y := nfc(x);
    ComposedTidy(nfc, x);
    TidyStrips(y);
    CollapseSame(y);
    TrimTidy(y);
    BlankIsBlank();
    if y != "" {
      assert TidyAt(y, |y| - 1);
    }
  }

  /** The cap cuts right behind a blank. */
  predicate CutBehindBlank(c: string, max: nat)
    requires max >= 1
  {
    |c| > max && c[max - 1] == ' '
  }

  lemma LastBlank(c: string, max: nat)
    requires max >= 1 && Tidy(c) && (c != "" ==> !IsSpace(c[|c| - 1]))
    ensures
      var p := Cut(c, max);
      (p != "" && p[|p| - 1] == ' ') <==> CutBehindBlank(c, max)
  {
    BlankIsBlank();
  }

  /** Normalising a title or description twice is normalising it once, exactly when
      the length cap did not cut right behind a blank and what is stored is
      composed: dropping a control may bring together what then composes. */
  lemma SettlesUnless(nfc: string -> string, raw: string, max: nat)
    requires Composes(nfc) && max >= 1
    ensures
      var once := ValidateTextInput(nfc, raw, max);
      ValidateTextInput(nfc, once, max) == once <==> !CutBehindBlank(Whole(nfc, raw), max) && Composed(nfc, once)
  {
    hide IsSpace, IsControl, Composes, Whole;
    var c := Whole(nfc, raw);
    WholeIsTidy(nfc, raw);
    CutIsKept(c, max);
    LastBlank(c, max);
    var x := Cut(c, max);
    var y := nfc(x);
    WholeAgain(nfc, x);
    var w := Whole(nfc, x);
    if Cut(w, max) == x {
      ComposedOnce(nfc, x);
      PrefixComposes(nfc, y, |x|);
      assert y[..|x|] == x;
    }
  }

  /** The second condition on the text itself, when nothing is cut: dropping the
      controls of the composed text leaves it composed. */
  lemma SettlesWhenUncut(nfc: string -> string, raw: string, max: nat)
    requires Composes(nfc) && max >= 1 && |Whole(nfc, raw)| <= max
    ensures
      var once := ValidateTextInput(nfc, raw, max);
      ValidateTextInput(nfc, once, max) == once <==> Composed(nfc, Strip(nfc(raw)))
  {
    hide IsSpace, IsControl, Composes, Collapse, Strip, Trim, Composed;
    var t := Strip(nfc(raw));
    SettlesUnless(nfc, raw, max);
    ComposedOnce(nfc, raw);
    StripKeepsChars(nfc(raw));
    forall i | 0 <= i < |t|
      ensures Composed(nfc, [t[i]])
    {
      assert t[i] in t && t[i] in nfc(raw);
      var k :| 0 <= k < |nfc(raw)| && nfc(raw)[k] == t[i];
      PartsCompose(nfc, nfc(raw), k, k + 1);
      assert nfc(raw)[k..k + 1] == [t[i]];
    }
    CollapseComposed(nfc, t);
    StripDrops(nfc(raw));
    CollapseTidies(t);
    TrimComposed(nfc, Collapse(t));
  }

  lemma {:induction false} StripKeepsChars(s: string)
    ensures forall c | c in Strip(s) :: c in s
    decreases s
  {
    if s != "" {
      StripKeepsChars(s[1..]);
    }
  }

  /** Text whose white space is composed is composed exactly when its collapsed form is. */
  lemma {:induction false} CollapseComposed(nfc: string -> string, t: string)
    requires Composes(nfc) && forall i | 0 <= i < |t| :: Composed(nfc, [t[i]])
    ensures Composed(nfc, Collapse(t)) <==> Composed(nfc, t)
    decreases |t|
  {
    hide IsSpace, Composes, Composed, Collapse;
    var n := FirstSpace(t);
    if n == |t| {
      CollapsePlain(t, n);
      assert t[..n] == t && t[n..] == "";
      CollapseNothing();
      assert t + "" == t;
    } else {
      var a, b := t[..n], DropSpaces(t[n + 1..]);
      CollapsePlain(t, n);
      CollapseBlank(t[n..]);
      assert t[n..][1..] == t[n + 1..];
      assert Collapse(t) == a + " " + Collapse(b) == a + [' '] + Collapse(b);
      DropComposed(nfc, t[n + 1..]);
      CollapseComposed(nfc, b);
      ComposedOnce(nfc, t);
      BlankIsBlank();
      ComposedAround(nfc, a, ' ', Collapse(b));
      ComposedAround(nfc, a, t[n], t[n + 1..]);
    }
  }

  lemma CollapseNothing()
    ensures Collapse("") == ""
  {
  }

  lemma CollapseBlank(t: string)
    requires t != "" && IsSpace(t[0])
    ensures Collapse(t) == " " + Collapse(DropSpaces(t[1..]))
  {
  }

  lemma {:induction false} CollapsePlain(t: string, n: nat)
    requires n <= |t| && forall i | 0 <= i < n :: !IsSpace(t[i])
    ensures Collapse(t) == t[..n] + Collapse(t[n..])
    decreases n
  {
    if n == 0 {
      assert t[0..] == t;
    } else {
      CollapsePlain(t[1..], n - 1);
      assert t[1..][n - 1..] == t[n..];
      assert t[..n] == [t[0]] + t[1..][..n - 1];
    }
  }

  lemma {:induction false} DropComposed(nfc: string -> string, t: string)
    requires Composes(nfc) && forall i | 0 <= i < |t| :: Composed(nfc, [t[i]])
    ensures Composed(nfc, DropSpaces(t)) <==> Composed(nfc, t)
    ensures forall i | 0 <= i < |DropSpaces(t)| :: Composed(nfc, [DropSpaces(t)[i]])
    decreases t
  {
    hide IsSpace, Composes, Composed;
    if t != "" && IsSpace(t[0]) {
      DropComposed(nfc, t[1..]);
      EmptyComposed(nfc);
      ComposedAround(nfc, "", t[0], t[1..]);
      assert "" + [t[0]] + t[1..] == t;
    }
  }

  lemma EmptyComposed(nfc: string -> string)
    requires Composes(nfc)
    ensures Composed(nfc, "") && Composed(nfc, " ")
  {
    ComposedOnce(nfc, "");
  }

  lemma TrimComposed(nfc: string -> string, t: string)
    requires Composes(nfc) && Tidy(t)
    ensures Composed(nfc, Trim(t)) <==> Composed(nfc, t)
  {
    hide IsSpace, IsControl, Composes, Composed;
    EmptyComposed(nfc);
    BlankIsBlank();
    var s := DropSpaces(t);
    if t != "" {
      assert TidyAt(t, 0);
      assert DropSpaces(t) == if IsSpace(t[0]) then t[1..] else t;
      TidySlice(t, 1, |t|);
      assert t[1..|t|] == t[1..];
      if IsSpace(t[0]) {
        ComposedAround(nfc, "", ' ', s);
        assert "" + [' '] + s == t;
      }
    }
    TrimEndTidy(s);
    if s != "" && IsSpace(s[|s| - 1]) {
      assert TidyAt(s, |s| - 1);
      ComposedAround(nfc, s[..|s| - 1], ' ', "");
      assert s[..|s| - 1] + [' '] + "" == s;
    }
  }

  /** A second pass leaves a composed text; a third changes it exactly when
      composing has made it longer than the cap, which then cuts behind a blank. */
  lemma SecondPassSettlesUnless(nfc: string -> string, raw: string, max: nat)
    requires Composes(nfc) && max >= 1
    ensures
      var once := ValidateTextInput(nfc, raw, max);
      var twice := ValidateTextInput(nfc, once, max);
      && (ValidateTextInput(nfc, twice, max) == twice <==> !CutBehindBlank(Whole(nfc, once), max))
      && (Composed(nfc, once) ==> ValidateTextInput(nfc, twice, max) == twice)
  {
    hide IsSpace, IsControl, Composes, Whole, CutBehindBlank;
    var c := Whole(nfc, raw);
    WholeIsTidy(nfc, raw);
    CutIsKept(c, max);
    var x := Cut(c, max);
    SecondPass(nfc, x, max);
    SettlesUnless(nfc, x, max);
    if Composed(nfc, x) {
      ShortIsNotCut(Whole(nfc, x), max);
    }
  }

  lemma ShortIsNotCut(c: string, max: nat)
    requires max >= 1 && |c| <= max
    ensures !CutBehindBlank(c, max)
  {
  }

  lemma SecondPass(nfc: string -> string, x: string, max: nat)
    requires Composes(nfc) && max >= 1 && Kept(x) && |x| <= max
    ensures
      var w := Whole(nfc, x);
      && Kept(w) && Composed(nfc, Cut(w, max)) && (Composed(nfc, x) ==> |w| <= max)
  {
    hide IsSpace, IsControl, Composes, Whole;
    var y := nfc(x);
    WholeAgain(nfc, x);
    WholeIsTidy(nfc, x);
    ComposedOnce(nfc, x);
    var p := Cut(Whole(nfc, x), max);
    PrefixComposes(nfc, y, |p|);
    assert y[..|p|] == p;
  }

  /** A fourth pass never changes anything. */
  lemma SettlesAtTheThirdPass(nfc: string -> string, raw: string, max: nat)
    requires Composes(nfc) && max >= 1
    ensures
      var twice := ValidateTextInput(nfc, ValidateTextInput(nfc, raw, max), max);
      var thrice := ValidateTextInput(nfc, twice, max);
      ValidateTextInput(nfc, thrice, max) == thrice
  {
    hide IsSpace, IsControl, Composes, Whole, CutBehindBlank;
    var c := Whole(nfc, raw);
    WholeIsTidy(nfc, raw);
    CutIsKept(c, max);
    var x := Cut(c, max);
    SecondPass(nfc, x, max);
    var t := Cut(Whole(nfc, x), max);
    WholeIsTidy(nfc, x);
    CutIsKept(Whole(nfc, x), max);
    SecondPass(nfc, t, max);
    SettlesUnless(nfc, t, max);
    ShortIsNotCut(Whole(nfc, t), max);
  }

  lemma EmptySettles(nfc: string -> string, max: nat)
    requires Composes(nfc)
    ensures ValidateTextInput(nfc, "", max) == ""
  {
    ComposedOnce(nfc, "");
  }

  // ---- titles that do not settle ---------------------------------------------

  function Repeat(c: char, n: nat): (s: string)
    ensures |s| == n && forall i | 0 <= i < n :: s[i] == c
  {
    if n == 0 then "" else [c] + Repeat(c, n - 1)
  }

  /** A title that a backup does not bring back as it was: 299 letters, a blank and
      one more letter are stored with the blank last, and restored without it. */
  lemma TitleThatDoesNotSettle(nfc: string -> string)
    requires Composes(nfc) && Composed(nfc, Repeat('a', TITLE_MAX_INPUT_CHARS - 1) + " b")
    ensures
      var raw := Repeat('a', TITLE_MAX_INPUT_CHARS - 1) + " b";
      var stored := ValidateTextInput(nfc, raw, TITLE_MAX_INPUT_CHARS);
      ValidateTextInput(nfc, stored, TITLE_MAX_INPUT_CHARS) != stored
  {
    hide Whole, Cut, ValidateTextInput, Composes;
    var raw := Repeat('a', TITLE_MAX_INPUT_CHARS - 1) + " b";
    forall i | 0 <= i < |raw|
      ensures TidyAt(raw, i)
    {
    }
    TidyIsWhole(nfc, raw);
    SettlesUnless(nfc, raw, TITLE_MAX_INPUT_CHARS);
  }

  lemma TidyIsWhole(nfc: string -> string, raw: string)
    requires Composed(nfc, raw) && Tidy(raw) && (raw != "" ==> !IsSpace(raw[0]) && !IsSpace(raw[|raw| - 1]))
    ensures Whole(nfc, raw) == raw
  {
    TidyStrips(raw);
    CollapseSame(raw);
    TrimTidy(raw);
  }

  /** A short one: a letter, a control and a combining accent. Composing leaves
      them alone, the control goes, and the second time the accent joins. */
  lemma TitleThatComposesLater(nfc: string -> string)
    requires Composes(nfc) && nfc("e\U{1}\U{301}") == "e\U{1}\U{301}" && nfc("e\U{301}") == "\U{e9}"
    ensures
      var stored := ValidateTextInput(nfc, "e\U{1}\U{301}", TITLE_MAX_INPUT_CHARS);
      stored == "e\U{301}" && ValidateTextInput(nfc, stored, TITLE_MAX_INPUT_CHARS) == "\U{e9}"
  {
    hide Composes;
    var raw, stored, again := "e\U{1}\U{301}", "e\U{301}", "\U{e9}";
    assert Strip(raw) == stored by {
      assert raw[1..][1..] == "\U{301}" && raw[1..][1..][1..] == "";
    }
    PlainIsTidy(stored);
    PlainIsTidy(again);
    CollapseSame(stored);
    TrimTidy(stored);
    TidyStrips(again);
    CollapseSame(again);
    TrimTidy(again);
  }

  /** One that settles only at the third pass: the control keeps two marks apart,
      together they reorder into one character more, and the cap, no longer far
      enough, now cuts behind the blank. */
  lemma TitleThatNeedsThreePasses(nfc: string -> string)
    requires Composes(nfc)
    requires
      var tail := Repeat('a', TITLE_MAX_INPUT_CHARS - 4) + " b";
      && Composed(nfc, "\U{1e69}\U{1}\U{327}" + tail)
      && nfc("\U{1e69}\U{327}" + tail) == "\U{15f}\U{323}\U{307}" + tail
    ensures
      var raw := "\U{1e69}\U{1}\U{327}" + (Repeat('a', TITLE_MAX_INPUT_CHARS - 4) + " b");
      var twice := ValidateTextInput(nfc, ValidateTextInput(nfc, raw, TITLE_MAX_INPUT_CHARS), TITLE_MAX_INPUT_CHARS);
      ValidateTextInput(nfc, twice, TITLE_MAX_INPUT_CHARS) != twice
  {
    hide Composes;
    var tail := Repeat('a', TITLE_MAX_INPUT_CHARS - 4) + " b";
    var raw, stored, again := "\U{1e69}\U{1}\U{327}" + tail, "\U{1e69}\U{327}" + tail, "\U{15f}\U{323}\U{307}" + tail;
    forall i | 0 <= i < |again|
      ensures TidyAt(again, i)
    {
    }
    forall i | 0 <= i < |stored|
      ensures TidyAt(stored, i)
    {
    }
    MarksStrip(raw, tail);
    CollapseSame(stored);
    TrimTidy(stored);
    assert Whole(nfc, raw) == stored;
    hide Whole;
    ComposedOnce(nfc, stored);
    assert Whole(nfc, stored) == again by {
      WholeAgain(nfc, stored);
    }
    SecondPassSettlesUnless(nfc, raw, TITLE_MAX_INPUT_CHARS);
  }

  lemma MarksStrip(raw: string, tail: string)
    requires raw == "\U{1e69}\U{1}\U{327}" + tail && Tidy(tail)
    ensures Strip(raw) == "\U{1e69}\U{327}" + tail
  {
    TidyStrips(tail);
    var one, two := raw[1..], raw[1..][1..];
    assert two == "\U{327}" + tail && two[1..] == tail;
    assert Strip(two) == "\U{327}" + tail;
    assert Strip(one) == Strip(two);
    assert Strip(raw) == [raw[0]] + Strip(one);
  }

  // ---- tags ------------------------------------------------------------------

  predicate IsTagChar(c: char) {
    'A' <= c <= 'Z' || 'a' <= c <= 'z' || '0' <= c <= '9' || c == '_' || c == '-'
  }

  function TagChars(s: string): string {
    if s == "" then "" else (if IsTagChar(s[0]) then [s[0]] else "") + TagChars(s[1..])
  }

  function CleanTag(raw: string): string { Cut(TagChars(raw), TAG_MAX_CHARS) }

  /** The tags kept once `kept` are: nothing empty, nothing twice, at most ten. */
  function KeepTags(input: seq<string>, kept: seq<string>): seq<string>
    decreases input
  {
    if input == [] || |kept| >= TAGS_MAX_COUNT then kept
    else
      var tag := CleanTag(input[0]);
      KeepTags(input[1..], if tag == "" || tag in kept then kept else kept + [tag])
  }

  method SanitizeTagsInput(input: seq<string>) returns (out: seq<string>)
    ensures out == KeepTags(input, [])
  {
    out := [];
    var seen: set<string> := {};
    assert input[0..] == input;
    for i := 0 to |input|
      invariant KeepTags(input[i..], out) == KeepTags(input, [])
      invariant |out| < TAGS_MAX_COUNT && forall t :: t in seen <==> t in out
    {
      assert input[i..][1..] == input[i + 1..];
      var cleaned := CleanTag(input[i]);
      if |cleaned| == 0 {
        continue;
      }
      if cleaned in seen {
        continue;
      }
      seen := seen + {cleaned};
      out := out + [cleaned];
      if |out| >= TAGS_MAX_COUNT {
        return;
      }
    }
  }

  /** Tags as they are kept. */
  ghost predicate CleanTags(tags: seq<string>) {
    && |tags| <= TAGS_MAX_COUNT
    && (forall i | 0 <= i < |tags| :: tags[i] != "" && CleanTag(tags[i]) == tags[i])
    && (forall i, j | 0 <= i < j < |tags| :: tags[i] != tags[j])
  }

  lemma {:induction false} TagCharsOnly(s: string)
    ensures forall i | 0 <= i < |TagChars(s)| :: IsTagChar(TagChars(s)[i])
    decreases s
  {
    hide IsTagChar;
    if s != "" {
      TagCharsOnly(s[1..]);
    }
  }

  lemma {:induction false} TagCharsSame(s: string)
    requires forall i | 0 <= i < |s| :: IsTagChar(s[i])
    ensures TagChars(s) == s
    decreases s
  {
    if s != "" {
      TagCharsSame(s[1..]);
    }
  }

  lemma CleanTagSettles(raw: string)
    ensures CleanTag(CleanTag(raw)) == CleanTag(raw)
  {
    TagCharsOnly(raw);
    TagCharsSame(CleanTag(raw));
  }

  lemma {:induction false} KeptAreClean(input: seq<string>, kept: seq<string>)
    requires CleanTags(kept)
    ensures CleanTags(KeepTags(input, kept))
    decreases input
  {
    if input != [] && |kept| < TAGS_MAX_COUNT {
      CleanTagSettles(input[0]);
      var tag := CleanTag(input[0]);
      KeptAreClean(input[1..], if tag == "" || tag in kept then kept else kept + [tag]);
    }
  }

  lemma {:induction false} CleanAreKept(tags: seq<string>, n: nat)
    requires CleanTags(tags) && n <= |tags|
    ensures KeepTags(tags[n..], tags[..n]) == tags
    decreases |tags| - n
  {
    hide CleanTag, KeepTags;
    if n < |tags| {
      forall i | 0 <= i < n
        ensures tags[..n][i] != tags[n]
      {
      }
      KeptNext(tags[n..], tags[..n]);
      assert tags[n..][1..] == tags[n + 1..] && tags[..n] + [tags[n]] == tags[..n + 1];
      CleanAreKept(tags, n + 1);
    } else {
      assert tags[..n] == tags && tags[n..] == [];
      NothingLeft(tags);
    }
  }

  lemma NothingLeft(kept: seq<string>)
    ensures KeepTags([], kept) == kept
  {
  }

  lemma KeptNext(input: seq<string>, kept: seq<string>)
    requires input != [] && |kept| < TAGS_MAX_COUNT && CleanTag(input[0]) == input[0] != "" && input[0] !in kept
    ensures KeepTags(input, kept) == KeepTags(input[1..], kept + [input[0]])
  {
    hide CleanTag;
  }

  /** Tags settle at once: cleaning a cleaned list changes nothing. */
  lemma TagsSettle(input: seq<string>)
    ensures
      var once := KeepTags(input, []);
      CleanTags(once) && KeepTags(once, []) == once
  {
    KeptAreClean(input, []);
    var once := KeepTags(input, []);
    assert once[0..] == once && once[..0] == [];
    CleanAreKept(once, 0);
  }

  /** An input that is not kept cleans to nothing or to a tag kept before it, or
      comes after the tenth. */
  ghost predicate LeftOut(tag: string, p: nat, ps: seq<nat>, tags: seq<string>)
    requires |ps| == |tags|
  {
    || tag == ""
    || (exists i :: 0 <= i < |ps| && ps[i] < p && tags[i] == tag)
    || (|ps| == 10 && ps[9] < p)
  }

  /** `tags` are the cleaned inputs at these positions, in order, none empty, none
      twice and ten at most, and every other input is rightly left out. */
  ghost predicate PickedTags(input: seq<string>, ps: seq<nat>, tags: seq<string>) {
    && |ps| == |tags| <= 10
    && (forall i, j | 0 <= i < j < |ps| :: ps[i] < ps[j])
    && (forall i | 0 <= i < |ps| :: ps[i] < |input| && tags[i] == CleanTag(input[ps[i]]) != "")
    && (forall i, j | 0 <= i < j < |tags| :: tags[i] != tags[j])
    && forall p | 0 <= p < |input| && p !in ps :: LeftOut(CleanTag(input[p]), p, ps, tags)
  }

  lemma StillLeftOut(tag: string, p: nat, ps: seq<nat>, tags: seq<string>, n: nat, next: string)
    requires |ps| == |tags| < 10 && LeftOut(tag, p, ps, tags)
    ensures LeftOut(tag, p, ps + [n], tags + [next])
  {
    if tag != "" {
      var i :| 0 <= i < |ps| && ps[i] < p && tags[i] == tag;
      assert (ps + [n])[i] == ps[i] && (tags + [next])[i] == tag;
    }
  }

  lemma SameLeftOut(n: nat, ps: seq<nat>, tags: seq<string>, tag: string)
    requires |ps| == |tags| && (forall i | 0 <= i < |ps| :: ps[i] < n) && (tag == "" || tag in tags)
    ensures LeftOut(tag, n, ps, tags)
  {
    if tag != "" {
      var i :| 0 <= i < |tags| && tags[i] == tag;
      assert ps[i] < n;
    }
  }

  /** One more input, kept or left out. */
  lemma PickOne(input: seq<string>, raw: string, ps: seq<nat>, kept: seq<string>)
    requires PickedTags(input, ps, kept) && |kept| < 10
    ensures
      var tag := CleanTag(raw);
      if tag == "" || tag in kept then PickedTags(input + [raw], ps, kept)
      else PickedTags(input + [raw], ps + [|input|], kept + [tag])
  {
    hide CleanTag, LeftOut;
    var tag, n := CleanTag(raw), |input|;
    if tag == "" || tag in kept {
      SameLeftOut(n, ps, kept, tag);
    } else {
      forall p | 0 <= p < n + 1 && p !in ps + [n]
        ensures LeftOut(CleanTag((input + [raw])[p]), p, ps + [n], kept + [tag])
      {
        assert p != n && p !in ps;
        StillLeftOut(CleanTag(input[p]), p, ps, kept, n, tag);
      }
    }
  }

  lemma AfterTheTenth(input: seq<string>, more: seq<string>, ps: seq<nat>, kept: seq<string>)
    requires PickedTags(input, ps, kept) && |kept| == 10
    ensures PickedTags(input + more, ps, kept)
  {
    hide CleanTag;
    forall p | 0 <= p < |input + more| && p !in ps
      ensures LeftOut(CleanTag((input + more)[p]), p, ps, kept)
    {
      if p < |input| {
        assert (input + more)[p] == input[p];
      }
    }
  }

  lemma {:induction false} KeptArePicked(done: seq<string>, input: seq<string>, ps: seq<nat>, kept: seq<string>) returns (all: seq<nat>)
    requires PickedTags(done, ps, kept)
    ensures PickedTags(done + input, all, KeepTags(input, kept))
    decreases input
  {
    hide CleanTag, PickedTags;
    assert |ps| == |kept| <= 10 by { TenAtMost(done, ps, kept); }
    all := ps;
    if input == [] {
      assert done + input == done;
    } else if |kept| == 10 {
      AfterTheTenth(done, input, ps, kept);
    } else {
      var tag := CleanTag(input[0]);
      PickOne(done, input[0], ps, kept);
      assert done + input == (done + [input[0]]) + input[1..];
      if tag == "" || tag in kept {
        all := KeptArePicked(done + [input[0]], input[1..], ps, kept);
      } else {
        all := KeptArePicked(done + [input[0]], input[1..], ps + [|done|], kept + [tag]);
      }
    }
  }

  lemma TenAtMost(input: seq<string>, ps: seq<nat>, kept: seq<string>)
    requires PickedTags(input, ps, kept)
    ensures |ps| == |kept| <= 10
  {
  }

  /** Which tags are kept. */
  lemma TagsArePicked(input: seq<string>) returns (ps: seq<nat>)
    ensures PickedTags(input, ps, KeepTags(input, []))
  {
    hide KeepTags, CleanTag;
    ps := KeptArePicked([], input, [], []);
    assert [] + input == input;
  }

  /** A tag is made of letters, digits, `_` and `-` of ASCII, thirty-two at most; one
      that is already stays as it is, and what has none of them is left out. */
  lemma CleanTagIs(raw: string)
    ensures |CleanTag(raw)| <= 32 && forall c | c in CleanTag(raw) :: TagCode(c as int)
    ensures |raw| <= 32 && (forall c | c in raw :: TagCode(c as int)) ==> CleanTag(raw) == raw
    ensures CleanTag(raw) == "" <==> forall c | c in raw :: !TagCode(c as int)
  {
    TagCharsOnly(raw);
    NothingOfATag(raw);
    assert forall c: char :: IsTagChar(c) <==> TagCode(c as int);
    if forall c | c in raw :: TagCode(c as int) {
      assert forall i | 0 <= i < |raw| :: raw[i] in raw;
      TagCharsSame(raw);
    }
  }

  ghost predicate TagCode(n: int) { 48 <= n <= 57 || 65 <= n <= 90 || n == 95 || 97 <= n <= 122 || n == 45 }

  lemma {:induction false} NothingOfATag(raw: string)
    ensures TagChars(raw) == "" <==> forall c | c in raw :: !IsTagChar(c)
    decreases raw
  {
    hide IsTagChar;
    if raw != "" {
      NothingOfATag(raw[1..]);
      assert raw == [raw[0]] + raw[1..];
    }
  }

  // ---- words -----------------------------------------------------------------

  /** What stands between white space. */
  ghost function Words(s: string): seq<string>
    decreases |s|
  {
    if s == "" then []
    else if IsSpace(s[0]) then Words(s[1..])
    else
      var n := WordEnd(s);
      [s[..n]] + Words(s[n..])
  }

  ghost function WordEnd(s: string): (n: nat)
    requires s != "" && !IsSpace(s[0])
    ensures 0 < n <= |s| && (forall i | 0 <= i < n :: !IsSpace(s[i])) && (n < |s| ==> IsSpace(s[n]))
    decreases |s|
  {
    if |s| == 1 || IsSpace(s[1]) then 1 else 1 + WordEnd(s[1..])
  }

  lemma {:induction false} DroppedSpacesAreNoWords(s: string)
    ensures Words(DropSpaces(s)) == Words(s)
    decreases |s|
  {
    hide IsSpace;
    if s != "" && IsSpace(s[0]) {
      DroppedSpacesAreNoWords(s[1..]);
    }
  }

  /** A word followed by white space, or by nothing, is the first. */
  lemma {:induction false} FirstWord(w: string, s: string)
    requires w != "" && (forall i | 0 <= i < |w| :: !IsSpace(w[i])) && (s != "" ==> IsSpace(s[0]))
    ensures Words(w + s) == [w] + Words(s)
    decreases |w|
  {
    hide IsSpace;
    var t := w + s;
    assert forall i | 0 <= i < |w| :: t[i] == w[i];
    assert s != "" ==> t[|w|] == s[0];
    assert WordEnd(t) == |w|;
    assert t[..|w|] == w && t[|w|..] == s;
  }

  lemma {:induction false} CollapseWord(w: string, s: string)
    requires forall i | 0 <= i < |w| :: !IsSpace(w[i])
    ensures Collapse(w + s) == w + Collapse(s)
    decreases |w|
  {
    hide IsSpace;
    if w == "" {
      assert w + s == s && w + Collapse(s) == Collapse(s);
    } else {
      assert (w + s)[1..] == w[1..] + s;
      CollapseWord(w[1..], s);
    }
  }

  lemma CollapsedEdge(s: string)
    requires s != "" && IsSpace(s[0])
    ensures Collapse(s) == " " + Collapse(DropSpaces(s[1..])) && IsSpace(Collapse(s)[0])
  {
    hide IsSpace;
    BlankIsBlank();
  }

  lemma {:induction false} CollapseKeepsWords(s: string)
    ensures Words(Collapse(s)) == Words(s)
    decreases |s|
  {
    hide IsSpace, WordEnd;
    if s == "" {
    } else if IsSpace(s[0]) {
      var rest := DropSpaces(s[1..]);
      CollapsedEdge(s);
      CollapseKeepsWords(rest);
      DroppedSpacesAreNoWords(s[1..]);
      assert (" " + Collapse(rest))[1..] == Collapse(rest);
    } else {
      var n := WordEnd(s);
      var w, rest := s[..n], s[n..];
      assert s == w + rest;
      CollapseWord(w, rest);
      CollapseKeepsWords(rest);
      if rest != "" {
        CollapsedEdge(rest);
      }
      FirstWord(w, rest);
      FirstWord(w, Collapse(rest));
    }
  }

  lemma {:induction false} EndSpaceIsNoWord(s: string, c: char)
    requires IsSpace(c)
    ensures Words(s + [c]) == Words(s)
    decreases |s|
  {
    hide IsSpace, WordEnd;
    if s == "" {
      assert s + [c] == [c] && [c][1..] == "";
    } else if IsSpace(s[0]) {
      assert (s + [c])[1..] == s[1..] + [c];
      EndSpaceIsNoWord(s[1..], c);
    } else {
      var n := WordEnd(s);
      var w, rest := s[..n], s[n..];
      assert s == w + rest && s + [c] == w + (rest + [c]);
      FirstWord(w, rest);
      FirstWord(w, rest + [c]);
      EndSpaceIsNoWord(rest, c);
    }
  }

  lemma {:induction false} TrimEndKeepsWords(s: string)
    ensures Words(TrimEnd(s)) == Words(s)
    decreases |s|
  {
    hide IsSpace, Words;
    if s != "" && IsSpace(s[|s| - 1]) {
      TrimEndKeepsWords(s[..|s| - 1]);
      EndSpaceIsNoWord(s[..|s| - 1], s[|s| - 1]);
      assert s == s[..|s| - 1] + [s[|s| - 1]];
    }
  }

  /** Normalising leaves the words as composing and dropping the controls leave
      them, in order, one blank between any two and none at the ends. */
  lemma WordsAreKept(nfc: string -> string, raw: string)
    ensures
      var c := Whole(nfc, raw);
      && Words(c) == Words(Strip(nfc(raw)))
      && Tidy(c) && (c != "" ==> !IsSpace(c[0]) && !IsSpace(c[|c| - 1]))
  {
    hide IsSpace, Words, Collapse, Strip, Tidy;
    var s := Strip(nfc(raw));
    CollapseKeepsWords(s);
    DroppedSpacesAreNoWords(Collapse(s));
    TrimEndKeepsWords(DropSpaces(Collapse(s)));
    WholeIsTidy(nfc, raw);
  }
}
