/** Exactness of the depth scan: on the text of a forest, tags left open or closed
    past what they contain included, it measures the forest's height. */
module DepthRender {
  import opened DepthSpec
  import opened DepthCost
  import DepthScan

  /** ` name="value"` in either kind of quotes, or anything without quotes. */
  datatype Attr = Quoted(name: string, value: string, quote: char) | Bare(text: string)

  datatype Node =
    | Element(name: string, attrs: seq<Attr>, children: seq<Node>, end: string)
    | LeftOpen(name: string, attrs: seq<Attr>, slash: bool, inner: seq<Node>)
    | VoidLeaf(name: string, attrs: seq<Attr>, slash: bool)
    | ForeignLeaf(name: string, attrs: seq<Attr>)
    | RawText(name: string, attrs: seq<Attr>, slash: bool, text: string, end: string)
    | Comment(text: string)
    | Declaration(text: string)
    | Instruction(text: string)
    | BogusEnd(text: string)
    | Text(text: string)

  // ---- rendering -------------------------------------------------------------

  function RenderAttrs(attrs: seq<Attr>): string {
    if attrs == [] then "" else RenderAttr(attrs[0]) + RenderAttrs(attrs[1..])
  }

  function RenderAttr(a: Attr): string {
    match a
    case Quoted(name, value, quote) => " " + name + "=" + ([quote] + (value + [quote]))
    case Bare(text) => " " + text
  }

  function StartTag(name: string, attrs: seq<Attr>, slash: bool): string {
    "<" + name + (RenderAttrs(attrs) + (if slash then "/>" else ">"))
  }

  function EndTag(name: string): string {
    "</" + name + ">"
  }

  function Render(n: Node): string {
    match n
    case Element(name, attrs, children, end) => StartTag(name, attrs, false) + (RenderForest(children) + EndTag(end))
    case LeftOpen(name, attrs, slash, inner) => StartTag(name, attrs, slash) + RenderForest(inner)
    case VoidLeaf(name, attrs, slash) => StartTag(name, attrs, slash)
    case ForeignLeaf(name, attrs) => StartTag(name, attrs, true)
    case RawText(name, attrs, slash, text, end) => StartTag(name, attrs, slash) + (text + EndTag(end))
    case Comment(text) => "<!--" + (text + "-->")
    case Declaration(text) => "<!" + (text + ">")
    case Instruction(text) => "<?" + (text + ">")
    case BogusEnd(text) => "</" + (text + ">")
    case Text(text) => text
  }

  function RenderForest(ns: seq<Node>): string {
    if ns == [] then "" else Render(ns[0]) + RenderForest(ns[1..])
  }

  // ---- the trees the theorem is about ----------------------------------------

  /** What a start tag's `/>` means at a place in the tree. */
  datatype Mode = PlainHtml | ForeignContent | BackToHtml

  function Enter(m: Mode, name: string): Mode {
    match m
    case PlainHtml => if name in FOREIGN_ROOTS then ForeignContent else PlainHtml
    case ForeignContent => if name in HTML_INTEGRATION_POINTS then BackToHtml else ForeignContent
    case BackToHtml => BackToHtml
  }

  predicate GoodName(name: string) {
    name != "" && IsAlpha(name[0]) && forall k | 0 <= k < |name| :: !EndsName(name[k])
  }

  predicate Unquoted(c: char) {
    c != '>' && c != '\"' && c != '\''
  }

  predicate GoodAttr(a: Attr) {
    match a
    case Quoted(name, value, quote) =>
      (quote == '\"' || quote == '\'') && quote !in value && forall k | 0 <= k < |name| :: Unquoted(name[k])
    case Bare(text) =>
      (forall k | 0 <= k < |text| :: Unquoted(text[k])) && (text != "" ==> text[|text| - 1] != '/')
  }

  predicate GoodTag(name: string, attrs: seq<Attr>) {
    GoodName(name) && forall k | 0 <= k < |attrs| :: GoodAttr(attrs[k])
  }

  /** Every `<` in it is followed by something that starts no markup. */
  predicate LooseText(text: string) {
    forall k | 0 <= k < |text| && text[k] == '<' ::
      k + 1 < |text| && !IsAlpha(text[k + 1]) && text[k + 1] != '!' && text[k + 1] != '?' && text[k + 1] != '/'
  }

  /** No `-->` before its own. */
  predicate CleanComment(text: string) {
    forall k | 0 <= k < |text| :: !StartsAt(text + "-->", "-->", k)
  }

  /** No end tag of its own before the one that ends it. */
  predicate CleanRaw(text: string, end: string) {
    forall k | 0 <= k < |text| :: !RawCloseAt(text + EndTag(end), k, Lower(end))
  }

  /** The names a node leaves open behind it. */
  function Left(lower: string -> string, n: Node): seq<string> {
    match n
    case LeftOpen(name, _, _, inner) => [lower(name)] + LeftBy(lower, inner)
    case _ => []
  }

  function LeftBy(lower: string -> string, ns: seq<Node>): seq<string> {
    if ns == [] then [] else Left(lower, ns[0]) + LeftBy(lower, ns[1..])
  }

  /** What an end tag closes past: fewer than 32, no barrier, no namesake. */
  predicate ClosesPast(left: seq<string>, name: string) {
    |left| < 32 && forall k | 0 <= k < |left| :: left[k] != name && left[k] !in SEARCH_BARRIER_ELEMENTS
  }

  predicate WellFormed(lower: string -> string, n: Node, m: Mode) {
    match n
    case Element(name, attrs, children, end) =>
      && GoodTag(name, attrs) && GoodName(end) && lower(end) == lower(name)
      && !IsVoid(lower(name)) && !IsRawText(lower(name))
      && WellFormedForest(lower, children, Enter(m, lower(name)))
      && ClosesPast(LeftBy(lower, children), lower(name))
    case LeftOpen(name, attrs, slash, inner) =>
      && GoodTag(name, attrs) && !IsVoid(lower(name)) && !IsRawText(lower(name))
      && (slash ==> !m.ForeignContent?)
      && WellFormedForest(lower, inner, Enter(m, lower(name)))
    case VoidLeaf(name, attrs, _) => GoodTag(name, attrs) && IsVoid(lower(name))
    case ForeignLeaf(name, attrs) => GoodTag(name, attrs) && m.ForeignContent? && !IsRawText(lower(name))
    case RawText(name, attrs, _, text, end) =>
      GoodTag(name, attrs) && IsRawText(lower(name)) && GoodName(end) && Lower(end) == lower(name) && CleanRaw(text, end)
    case Comment(text) => CleanComment(text)
    case Declaration(text) => '>' !in text && !StartsAt(text, "--", 0)
    case Instruction(text) => '>' !in text
    case BogusEnd(text) => '>' !in text && (text != "" ==> !IsAlpha(text[0]))
    case Text(text) => LooseText(text)
  }

  /** What is left open holds everything after it. */
  predicate WellFormedForest(lower: string -> string, ns: seq<Node>, m: Mode) {
    ns == [] || (WellFormed(lower, ns[0], m) && (ns[0].LeftOpen? ==> |ns| == 1) && WellFormedForest(lower, ns[1..], m))
  }

  function Height(n: Node): nat {
    match n
    case Element(_, _, children, _) => 1 + ForestHeight(children)
    case LeftOpen(_, _, _, inner) => 1 + ForestHeight(inner)
    case RawText(_, _, _, _, _) => 1
    case _ => 0
  }

  function ForestHeight(ns: seq<Node>): nat {
    if ns == [] then 0 else Max(Height(ns[0]), ForestHeight(ns[1..]))
  }

  // ---- from text to tags -----------------------------------------------------

  function NodeTokens(lower: string -> string, n: Node): seq<Token> {
    match n
    case Element(name, _, children, end) => [Open(lower(name), false)] + (ForestTokens(lower, children) + [Close(lower(end))])
    case LeftOpen(name, _, slash, inner) => [Open(lower(name), slash)] + ForestTokens(lower, inner)
    case VoidLeaf(name, _, slash) => [Open(lower(name), slash)]
    case ForeignLeaf(name, _) => [Open(lower(name), true)]
    case RawText(name, _, _, _, _) => [Raw(lower(name))]
    case _ => []
  }

  function ForestTokens(lower: string -> string, ns: seq<Node>): seq<Token> {
    if ns == [] then [] else NodeTokens(lower, ns[0]) + ForestTokens(lower, ns[1..])
  }

  lemma StartsAtSplit(html: string, a: string, b: string, i: nat)
    requires StartsAt(html, a + b, i)
    ensures StartsAt(html, a, i) && StartsAt(html, b, i + |a|)
  {
    var piece := html[i..i + |a + b|];
    assert piece[..|a|] == a && piece[|a|..] == b;
    assert html[i..i + |a|] == piece[..|a|];
    assert html[i + |a|..i + |a| + |b|] == piece[|a|..];
  }

  lemma CharOf(html: string, piece: string, i: nat, k: nat)
    requires StartsAt(html, piece, i) && k < |piece|
    ensures i + k < |html| && html[i + k] == piece[k]
  {
    assert html[i..i + |piece|][k] == piece[k];
  }

  /** The first `c` is where a stretch without `c` ends. */
  lemma {:induction false} CharIndexSkips(html: string, c: char, i: nat, j: nat)
    requires i <= j <= |html| && forall k | i <= k < j :: html[k] != c
    ensures CharIndex(html, c, i) == CharIndex(html, c, j)
    decreases j - i
  {
    if i < j {
      CharIndexSkips(html, c, i + 1, j);
    }
  }

  lemma NotIn(html: string, piece: string, i: nat, c: char)
    requires StartsAt(html, piece, i) && c !in piece
    ensures forall k | i <= k < i + |piece| :: html[k] != c
  {
    forall k | i <= k < i + |piece| ensures html[k] != c {
      CharOf(html, piece, i, k - i);
      assert piece[k - i] in piece;
    }
  }

  lemma {:induction false} TextLeavesNoTokens(lower: string -> string, html: string, text: string, i: nat, j: nat)
    requires StartsAt(html, text, i) && LooseText(text) && i <= j <= i + |text|
    ensures Tokens(lower, html, j) == Tokens(lower, html, i + |text|)
    decreases i + |text| - j
  {
    hide StartsAt, Tokens, LooseText;
    StartsAtFits(html, text, i);
    if j < i + |text| {
      CharOf(html, text, i, j - i);
      if html[j] == '<' {
        LooseStart(lower, html, text, i, j);
      } else {
        StepOver(lower, html, j);
      }
      TextLeavesNoTokens(lower, html, text, i, j + 1);
    }
  }

  lemma StepOver(lower: string -> string, html: string, j: nat)
    requires j < |html| && html[j] != '<'
    ensures Tokens(lower, html, j) == Tokens(lower, html, j + 1)
  {
    hide TokenAt;
    assert CharIndex(html, '<', j) == CharIndex(html, '<', j + 1);
  }

  lemma LooseStart(lower: string -> string, html: string, text: string, i: nat, j: nat)
    requires StartsAt(html, text, i) && LooseText(text) && i <= j < i + |text| <= |html| && html[j] == '<'
    ensures Tokens(lower, html, j) == Tokens(lower, html, j + 1)
  {
    hide StartsAt;
    CharOf(html, text, i, j - i);
    CharOf(html, text, i, j - i + 1);
    assert TokenAt(lower, html, j) == Piece(Skip, j + 1);
    SkipsFrom(lower, html, j);
  }

  lemma SkipsFrom(lower: string -> string, html: string, i: nat)
    requires i < |html| && html[i] == '<' && TokenAt(lower, html, i).token.Skip?
    ensures Tokens(lower, html, i) == Tokens(lower, html, TokenAt(lower, html, i).next)
  {
    hide TokenAt;
    assert CharIndex(html, '<', i) == i;
    var p := TokenAt(lower, html, i);
    assert Tokens(lower, html, i) == [] + Tokens(lower, html, p.next);
  }

  lemma {:induction false} NameEndIs(html: string, from: nat, stop: nat)
    requires from <= stop < |html| && EndsName(html[stop])
    requires forall k | from <= k < stop :: !EndsName(html[k])
    ensures NameEnd(html, from) == stop
    decreases stop - from
  {
    if from < stop {
      NameEndIs(html, from + 1, stop);
    }
  }

  lemma {:induction false} FindEndSkips(html: string, from: nat, i: nat, j: nat)
    requires from <= i <= j <= |html|
    requires forall k | i <= k < j :: Unquoted(html[k])
    ensures FindEnd(html, from, i) == FindEnd(html, from, j)
    decreases j - i
  {
    if i < j {
      FindEndSkips(html, from, i + 1, j);
    }
  }

  lemma StartsAtFits(html: string, piece: string, i: nat)
    requires StartsAt(html, piece, i)
    ensures i + |piece| <= |html|
  {
  }

  lemma UnquotedPiece(html: string, piece: string, i: nat)
    requires StartsAt(html, piece, i) && forall k | 0 <= k < |piece| :: Unquoted(piece[k])
    ensures i + |piece| <= |html| && forall k | i <= k < i + |piece| :: Unquoted(html[k])
  {
    hide StartsAt;
    StartsAtFits(html, piece, i);
    forall k | i <= k < i + |piece|
      ensures Unquoted(html[k])
    {
      CharOf(html, piece, i, k - i);
    }
  }

  /** A quoted value, whatever it holds but its own quote, is passed over. */
  lemma FindEndSkipsQuoted(html: string, from: nat, i: nat, a: Attr)
    requires from <= i && a.Quoted? && GoodAttr(a) && StartsAt(html, RenderAttr(a), i)
    ensures i + |RenderAttr(a)| <= |html| && |RenderAttr(a)| > 0
    ensures FindEnd(html, from, i) == FindEnd(html, from, i + |RenderAttr(a)|)
    ensures html[i + |RenderAttr(a)| - 1] == a.quote
  {
    hide StartsAt, FindEnd, CharIndex;
    var head := " " + a.name + "=";
    var q := i + |head|;
    var close := q + 1 + |a.value|;
    StartsAtSplit(html, head, [a.quote] + (a.value + [a.quote]), i);
    UnquotedPiece(html, head, i);
    StartsAtSplit(html, [a.quote], a.value + [a.quote], q);
    StartsAtSplit(html, a.value, [a.quote], q + 1);
    CharOf(html, [a.quote], q, 0);
    CharOf(html, [a.quote], close, 0);
    NotIn(html, a.value, q + 1, a.quote);
    FindEndSkips(html, from, i, q);
    CharIndexSkips(html, a.quote, q + 1, close);
    QuoteSkips(html, from, q, close);
  }

  lemma QuoteSkips(html: string, from: nat, q: nat, close: nat)
    requires from <= q < close < |html| && (html[q] == '\"' || html[q] == '\'') && html[close] == html[q]
    requires CharIndex(html, html[q], q + 1) == CharIndex(html, html[q], close)
    ensures FindEnd(html, from, q) == FindEnd(html, from, close + 1)
  {
  }

  lemma FindEndSkipsAttr(html: string, from: nat, i: nat, a: Attr)
    requires from <= i && GoodAttr(a) && StartsAt(html, RenderAttr(a), i)
    ensures i + |RenderAttr(a)| <= |html| && |RenderAttr(a)| > 0
    ensures FindEnd(html, from, i) == FindEnd(html, from, i + |RenderAttr(a)|)
    ensures html[i + |RenderAttr(a)| - 1] != '/'
  {
    hide StartsAt;
    if a.Quoted? {
      FindEndSkipsQuoted(html, from, i, a);
    } else {
      var piece := RenderAttr(a);
      UnquotedPiece(html, piece, i);
      FindEndSkips(html, from, i, i + |piece|);
      CharOf(html, piece, i, |piece| - 1);
    }
  }

  lemma {:induction false} FindEndSkipsAttrs(html: string, from: nat, i: nat, attrs: seq<Attr>)
    requires from <= i && StartsAt(html, RenderAttrs(attrs), i)
    requires forall k | 0 <= k < |attrs| :: GoodAttr(attrs[k])
    ensures FindEnd(html, from, i) == FindEnd(html, from, i + |RenderAttrs(attrs)|)
    ensures attrs != [] ==> |RenderAttrs(attrs)| > 0 && html[i + |RenderAttrs(attrs)| - 1] != '/'
    decreases attrs
  {
    hide StartsAt, FindEnd, RenderAttr, GoodAttr;
    if attrs != [] {
      StartsAtSplit(html, RenderAttr(attrs[0]), RenderAttrs(attrs[1..]), i);
      FindEndSkipsAttr(html, from, i, attrs[0]);
      FindEndSkipsAttrs(html, from, i + |RenderAttr(attrs[0])|, attrs[1..]);
    }
  }

  lemma NameAt(html: string, name: string, i: nat)
    requires GoodName(name) && StartsAt(html, name, i)
    ensures i + |name| <= |html| && html[i..i + |name|] == name && IsAlpha(html[i])
    ensures forall k | i <= k < i + |name| :: !EndsName(html[k])
  {
    CharOf(html, name, i, 0);
    forall k | i <= k < i + |name| ensures !EndsName(html[k]) {
      CharOf(html, name, i, k - i);
    }
  }

  lemma AttrsThenGt(html: string, j: nat, attrs: seq<Attr>, slash: bool)
    requires forall k | 0 <= k < |attrs| :: GoodAttr(attrs[k])
    requires StartsAt(html, RenderAttrs(attrs) + (if slash then "/>" else ">"), j)
    ensures
      var stop := j + |RenderAttrs(attrs)| + (if slash then 2 else 1);
      stop <= |html| && FindEnd(html, j, j) == TagEnd(stop - 1, slash)
    ensures j < |html| && EndsName(html[j])
  {
    hide StartsAt, RenderAttr, RenderAttrs, GoodAttr;
    var tail := if slash then "/>" else ">";
    StartsAtSplit(html, RenderAttrs(attrs), tail, j);
    FindEndSkipsAttrs(html, j, j, attrs);
    var t := j + |RenderAttrs(attrs)|;
    CharOf(html, tail, t, 0);
    if slash {
      CharOf(html, tail, t, 1);
      FindEndSkips(html, j, t, t + 1);
    }
    AttrsStart(html, j, attrs);
  }

  lemma AttrsStart(html: string, j: nat, attrs: seq<Attr>)
    requires StartsAt(html, RenderAttrs(attrs), j)
    ensures if attrs == [] then RenderAttrs(attrs) == "" else j < |html| && html[j] == ' '
  {
    hide StartsAt;
    if attrs != [] {
      StartsAtSplit(html, RenderAttr(attrs[0]), RenderAttrs(attrs[1..]), j);
      assert RenderAttr(attrs[0])[0] == ' ';
      CharOf(html, RenderAttr(attrs[0]), j, 0);
    }
  }

  lemma TokenAtStartTag(lower: string -> string, html: string, i: nat, j: nat, end: TagEnd)
    requires i + 1 < |html| && html[i] == '<' && IsAlpha(html[i + 1])
    requires j == NameEnd(html, i + 1) && end == FindEnd(html, j, j) && end.gt >= 0
    ensures
      var name := lower(html[i + 1..j]);
      TokenAt(lower, html, i) == (if IsRawText(name)
                           then Piece(Raw(name), RawEnd(html, end.gt + 1, name))
                           else Piece(Open(name, end.selfClosing), end.gt + 1))
  {
    hide FindEnd, RawEnd, NameEnd;
  }

  lemma StartTagPiece(lower: string -> string, html: string, name: string, attrs: seq<Attr>, slash: bool, i: nat)
    requires GoodTag(name, attrs) && StartsAt(html, StartTag(name, attrs, slash), i)
    ensures
      var stop := i + |StartTag(name, attrs, slash)|;
      && stop <= |html| && i < |html| && html[i] == '<'
      && TokenAt(lower, html, i) == (if IsRawText(lower(name))
                              then Piece(Raw(lower(name)), RawEnd(html, stop, lower(name)))
                              else Piece(Open(lower(name), slash), stop))
  {
    hide StartsAt, TokenAt, FindEnd, RawEnd, NameEnd, RenderAttrs, IsRawText, GoodAttr;
    var rest := RenderAttrs(attrs) + (if slash then "/>" else ">");
    var j := i + 1 + |name|;
    assert StartTag(name, attrs, slash) == "<" + (name + rest);
    StartsAtSplit(html, "<", name + rest, i);
    StartsAtSplit(html, name, rest, i + 1);
    CharOf(html, "<", i, 0);
    NameAt(html, name, i + 1);
    AttrsThenGt(html, j, attrs, slash);
    NameEndIs(html, i + 1, j);
    TokenAtStartTag(lower, html, i, j, FindEnd(html, j, j));
  }

  lemma EndTagPiece(lower: string -> string, html: string, name: string, i: nat)
    requires GoodName(name) && StartsAt(html, EndTag(name), i)
    ensures
      var stop := i + |EndTag(name)|;
      && stop <= |html| && i < |html| && html[i] == '<'
      && TokenAt(lower, html, i) == Piece(Close(lower(name)), stop)
      && RawCloseAt(html, i, Lower(name))
      && PastGt(html, i + 2 + |name|) == stop
  {
    hide StartsAt, NameEnd, Lower;
    var j := i + 2 + |name|;
    assert EndTag(name) == "</" + (name + ">");
    StartsAtSplit(html, "</", name + ">", i);
    StartsAtSplit(html, name, ">", i + 2);
    CharOf(html, "</", i, 0);
    CharOf(html, "</", i, 1);
    CharOf(html, ">", j, 0);
    NameAt(html, name, i + 2);
    NameEndIs(html, i + 2, j);
    CharIndexSkips(html, '>', i + 2, j);
  }

  lemma {:induction false} RawEndSkips(html: string, name: string, i: nat, j: nat)
    requires i <= j <= |html| && forall k | i <= k < j :: !RawCloseAt(html, k, name)
    ensures RawEnd(html, i, name) == RawEnd(html, j, name)
    decreases j - i
  {
    hide RawCloseAt;
    if i < j {
      RawEndSkips(html, name, i + 1, j);
    }
  }

  /** Whether an end tag stands in raw text shows in the text and its end tag alone. */
  lemma RawCloseInside(html: string, text: string, end: string, i: nat, k: nat)
    requires StartsAt(html, text + EndTag(end), i) && k < |text|
    ensures RawCloseAt(html, i + k, Lower(end)) <==> RawCloseAt(text + EndTag(end), k, Lower(end))
  {
    hide StartsAt;
    var piece := text + EndTag(end);
    StartsAtFits(html, piece, i);
    var after := k + 2 + |end|;
    forall j | k <= j <= after
      ensures html[i + j] == piece[j]
    {
      CharOf(html, piece, i, j);
    }
    assert html[i + k + 2..i + after] == piece[k + 2..after];
  }

  lemma TokensFromTag(lower: string -> string, html: string, i: nat)
    requires i < |html| && html[i] == '<' && !TokenAt(lower, html, i).token.Skip?
    ensures Tokens(lower, html, i) == [TokenAt(lower, html, i).token] + Tokens(lower, html, TokenAt(lower, html, i).next)
  {
  }

  lemma RawTextTokens(lower: string -> string, html: string, n: Node, m: Mode, i: nat)
    requires n.RawText? && WellFormed(lower, n, m) && StartsAt(html, Render(n), i)
    ensures Tokens(lower, html, i) == NodeTokens(lower, n) + Tokens(lower, html, i + |Render(n)|)
  {
    hide StartsAt, Tokens, TokenAt, StartTag, EndTag, PastGt, Lower, IsRawText, IsVoid, RawCloseAt, GoodTag, RawEnd;
    var tag, end := StartTag(n.name, n.attrs, n.slash), EndTag(n.end);
    var body := i + |tag|;
    StartsAtSplit(html, tag, n.text + end, i);
    StartsAtSplit(html, n.text, end, body);
    StartTagPiece(lower, html, n.name, n.attrs, n.slash, i);
    var e := body + |n.text|;
    EndTagPiece(lower, html, n.end, e);
    forall k | body <= k < e
      ensures !RawCloseAt(html, k, Lower(n.end))
    {
      RawCloseInside(html, n.text, n.end, body, k - body);
    }
    RawEndSkips(html, Lower(n.end), body, e);
    RawEndsHere(html, e, n.end);
    TokensFromTag(lower, html, i);
  }

  lemma RawEndsHere(html: string, i: nat, end: string)
    requires i < |html| && RawCloseAt(html, i, Lower(end))
    ensures RawEnd(html, i, Lower(end)) == PastGt(html, i + 2 + |end|)
  {
    hide RawCloseAt, PastGt;
  }

  lemma {:induction false} PastCommentIs(html: string, i: nat, stop: nat)
    requires i <= stop && StartsAt(html, "-->", stop)
    requires forall k | i <= k < stop :: !StartsAt(html, "-->", k)
    ensures PastComment(html, i) == stop + 3
    decreases stop - i
  {
    if i < stop {
      PastCommentIs(html, i + 1, stop);
    }
  }

  lemma CommentTokens(lower: string -> string, html: string, n: Node, m: Mode, i: nat)
    requires n.Comment? && WellFormed(lower, n, m) && StartsAt(html, Render(n), i)
    ensures Tokens(lower, html, i) == NodeTokens(lower, n) + Tokens(lower, html, i + |Render(n)|)
  {
    hide StartsAt, PastComment, TokenAt, Tokens, CleanComment;
    assert Render(n) == "<!--" + (n.text + "-->");
    StartsAtSplit(html, "<!--", n.text + "-->", i);
    StartsAtFits(html, "<!--", i);
    CommentEnds(html, n.text, i + 4);
    CommentSkipped(lower, html, i);
  }

  lemma CommentEnds(html: string, text: string, i: nat)
    requires StartsAt(html, text + "-->", i) && CleanComment(text)
    ensures PastComment(html, i) == i + |text| + 3
  {
    hide StartsAt, PastComment;
    var stop := i + |text|;
    StartsAtSplit(html, text, "-->", i);
    forall k | i <= k < stop
      ensures !StartsAt(html, "-->", k)
    {
      CommentEndInside(html, text, i, k - i);
    }
    PastCommentIs(html, i, stop);
  }

  lemma CommentEndInside(html: string, text: string, i: nat, k: nat)
    requires StartsAt(html, text + "-->", i) && k < |text|
    ensures StartsAt(html, "-->", i + k) <==> StartsAt(text + "-->", "-->", k)
  {
    var piece := text + "-->";
    assert html[i..i + |piece|] == piece;
    forall j | k <= j < k + 3
      ensures html[i + j] == piece[j]
    {
      CharOf(html, piece, i, j);
    }
    assert html[i + k..i + k + 3] == piece[k..k + 3];
  }

  lemma CommentSkipped(lower: string -> string, html: string, i: nat)
    requires StartsAt(html, "<!--", i) && i + 4 <= |html|
    ensures Tokens(lower, html, i) == Tokens(lower, html, PastComment(html, i + 4))
  {
    CharOf(html, "<!--", i, 0);
    CharOf(html, "<!--", i, 1);
    assert TokenAt(lower, html, i) == Piece(Skip, PastComment(html, i + 4));
    SkipsFrom(lower, html, i);
  }

  /** `<!...>`, `<?...>` and `</...>` without a name end at their first `>`. */
  lemma BogusTokens(lower: string -> string, html: string, n: Node, m: Mode, i: nat)
    requires (n.Declaration? || n.Instruction? || n.BogusEnd?) && WellFormed(lower, n, m) && StartsAt(html, Render(n), i)
    ensures Tokens(lower, html, i) == NodeTokens(lower, n) + Tokens(lower, html, i + |Render(n)|)
  {
    hide StartsAt, Tokens;
    var head := if n.Declaration? then "<!" else if n.Instruction? then "<?" else "</";
    assert Render(n) == head + (n.text + ">");
    BogusSkipped(lower, html, head, n.text, i);
  }

  lemma BogusSkipped(lower: string -> string, html: string, head: string, text: string, i: nat)
    requires StartsAt(html, head + (text + ">"), i) && '>' !in text
    requires
      || (head == "<!" && !StartsAt(text, "--", 0)) || head == "<?"
      || (head == "</" && (text != "" ==> !IsAlpha(text[0])))
    ensures Tokens(lower, html, i) == Tokens(lower, html, i + |head| + |text| + 1)
  {
    hide StartsAt, TokenAt, Tokens, PastGt, IsAlpha;
    StartsAtSplit(html, head, text + ">", i);
    CharOf(html, head, i, 0);
    CharOf(html, head, i, 1);
    BogusEnds(html, text, i + 2);
    if head == "<!" {
      NoComment(html, text, i);
    } else {
      NoBang(html, i);
    }
    assert !IsAlpha('>') by { GtIsNoLetter(); }
    BogusPiece(lower, html, i);
    SkipsFrom(lower, html, i);
  }

  lemma GtIsNoLetter()
    ensures !IsAlpha('>')
  {
  }

  lemma BogusEnds(html: string, text: string, i: nat)
    requires StartsAt(html, text + ">", i) && '>' !in text
    ensures i < |html| && PastGt(html, i) == i + |text| + 1
    ensures html[i] == if text == "" then '>' else text[0]
  {
    hide StartsAt, PastGt;
    StartsAtSplit(html, text, ">", i);
    NotIn(html, text, i, '>');
    CharOf(html, ">", i + |text|, 0);
    CharOf(html, text + ">", i, 0);
    PastGtIs(html, i, i + |text|);
  }

  lemma NoBang(html: string, i: nat)
    requires i + 1 < |html| && html[i + 1] != '!'
    ensures !StartsAt(html, "<!--", i)
  {
    if StartsAt(html, "<!--", i) {
      CharOf(html, "<!--", i, 1);
    }
  }

  lemma PastGtIs(html: string, i: nat, stop: nat)
    requires i <= stop < |html| && html[stop] == '>' && forall k | i <= k < stop :: html[k] != '>'
    ensures PastGt(html, i) == stop + 1
  {
    CharIndexSkips(html, '>', i, stop);
  }

  lemma NoComment(html: string, text: string, i: nat)
    requires StartsAt(html, text + ">", i + 2) && '>' !in text && !StartsAt(text, "--", 0)
    ensures !StartsAt(html, "<!--", i)
  {
    if StartsAt(html, "<!--", i) {
      CharOf(html, "<!--", i, 2);
      CharOf(html, "<!--", i, 3);
      var piece := text + ">";
      CharOf(html, piece, i + 2, 0);
      if |piece| > 1 {
        CharOf(html, piece, i + 2, 1);
      }
    }
  }

  lemma BogusPiece(lower: string -> string, html: string, i: nat)
    requires i + 2 < |html| && html[i] == '<' && !StartsAt(html, "<!--", i)
    requires html[i + 1] == '!' || html[i + 1] == '?' || (html[i + 1] == '/' && !IsAlpha(html[i + 2]))
    ensures TokenAt(lower, html, i) == Piece(Skip, PastGt(html, i + 2))
  {
    hide PastGt, StartsAt;
  }

  lemma TextTokens(lower: string -> string, html: string, n: Node, m: Mode, i: nat)
    requires n.Text? && WellFormed(lower, n, m) && StartsAt(html, Render(n), i)
    ensures Tokens(lower, html, i) == NodeTokens(lower, n) + Tokens(lower, html, i + |Render(n)|)
  {
    hide StartsAt, Tokens, LooseText;
    TextLeavesNoTokens(lower, html, n.text, i, i);
  }

  /** The text of a forest is cut into exactly the forest's own tags. */
  lemma {:induction false} RenderedTokens(lower: string -> string, html: string, n: Node, m: Mode, i: nat)
    requires WellFormed(lower, n, m) && StartsAt(html, Render(n), i)
    ensures Tokens(lower, html, i) == NodeTokens(lower, n) + Tokens(lower, html, i + |Render(n)|)
    decreases n, 0
  {
    hide StartsAt, Tokens, WellFormed, WellFormedForest, Render, RenderForest, NodeTokens, StartTag, EndTag;
    match n
    case Text(_) => TextTokens(lower, html, n, m, i);
    case Comment(_) => CommentTokens(lower, html, n, m, i);
    case Declaration(_) => BogusTokens(lower, html, n, m, i);
    case Instruction(_) => BogusTokens(lower, html, n, m, i);
    case BogusEnd(_) => BogusTokens(lower, html, n, m, i);
    case RawText(_, _, _, _, _) => RawTextTokens(lower, html, n, m, i);
    case VoidLeaf(_, _, _) => LeafTokens(lower, html, n, m, i);
    case ForeignLeaf(_, _) => LeafTokens(lower, html, n, m, i);
    case LeftOpen(name, attrs, slash, inner) =>
      OpenTokens(lower, html, n, m, i);
      RenderedForestTokens(lower, html, inner, Enter(m, lower(name)), i + |StartTag(name, attrs, slash)|);
      OpenJoins(lower, html, n, i);
    case Element(name, attrs, children, _) =>
      var inner := i + |StartTag(name, attrs, false)|;
      ElementOpens(lower, html, n, m, i);
      RenderedForestTokens(lower, html, children, Enter(m, lower(name)), inner);
      ElementCloses(lower, html, n, m, i);
  }

  lemma LeafTokens(lower: string -> string, html: string, n: Node, m: Mode, i: nat)
    requires (n.VoidLeaf? || n.ForeignLeaf?) && WellFormed(lower, n, m) && StartsAt(html, Render(n), i)
    ensures Tokens(lower, html, i) == NodeTokens(lower, n) + Tokens(lower, html, i + |Render(n)|)
  {
    hide StartsAt, Tokens, TokenAt, StartTag, IsRawText, IsVoid;
    var slash := n.ForeignLeaf? || n.slash;
    StartTagPiece(lower, html, n.name, n.attrs, slash, i);
    if n.VoidLeaf? {
      VoidIsNotRaw(lower(n.name));
    }
    TokensFromTag(lower, html, i);
  }

  lemma OpenTokens(lower: string -> string, html: string, n: Node, m: Mode, i: nat)
    requires n.LeftOpen? && WellFormed(lower, n, m) && StartsAt(html, Render(n), i)
    ensures
      var tag := StartTag(n.name, n.attrs, n.slash);
      && Tokens(lower, html, i) == [Open(lower(n.name), n.slash)] + Tokens(lower, html, i + |tag|)
      && StartsAt(html, RenderForest(n.inner), i + |tag|) && WellFormedForest(lower, n.inner, Enter(m, lower(n.name)))
  {
    hide StartsAt, Tokens, TokenAt, StartTag, IsRawText, IsVoid;
    StartsAtSplit(html, StartTag(n.name, n.attrs, n.slash), RenderForest(n.inner), i);
    StartTagPiece(lower, html, n.name, n.attrs, n.slash, i);
    TokensFromTag(lower, html, i);
  }

  lemma OpenJoins(lower: string -> string, html: string, n: Node, i: nat)
    requires n.LeftOpen?
    requires
      var inner := i + |StartTag(n.name, n.attrs, n.slash)|;
      && Tokens(lower, html, i) == [Open(lower(n.name), n.slash)] + Tokens(lower, html, inner)
      && Tokens(lower, html, inner) == ForestTokens(lower, n.inner) + Tokens(lower, html, inner + |RenderForest(n.inner)|)
    ensures Tokens(lower, html, i) == NodeTokens(lower, n) + Tokens(lower, html, i + |Render(n)|)
  {
    hide Tokens, StartTag;
  }

  lemma ElementOpens(lower: string -> string, html: string, n: Node, m: Mode, i: nat)
    requires n.Element? && WellFormed(lower, n, m) && StartsAt(html, Render(n), i)
    ensures
      var tag := StartTag(n.name, n.attrs, false);
      && Tokens(lower, html, i) == [Open(lower(n.name), false)] + Tokens(lower, html, i + |tag|)
      && StartsAt(html, RenderForest(n.children), i + |tag|) && WellFormedForest(lower, n.children, Enter(m, lower(n.name)))
      && StartsAt(html, EndTag(n.end), i + |tag| + |RenderForest(n.children)|) && GoodName(n.end)
  {
    hide StartsAt, Tokens, TokenAt, StartTag, EndTag, IsRawText, IsVoid, ClosesPast;
    var tag, inner, end := StartTag(n.name, n.attrs, false), RenderForest(n.children), EndTag(n.end);
    StartsAtSplit(html, tag, inner + end, i);
    StartsAtSplit(html, inner, end, i + |tag|);
    StartTagPiece(lower, html, n.name, n.attrs, false, i);
    TokensFromTag(lower, html, i);
  }

  lemma ElementCloses(lower: string -> string, html: string, n: Node, m: Mode, i: nat)
    requires n.Element? && WellFormed(lower, n, m) && StartsAt(html, Render(n), i)
    requires
      var inner := i + |StartTag(n.name, n.attrs, false)|;
      Tokens(lower, html, inner) == ForestTokens(lower, n.children) + Tokens(lower, html, inner + |RenderForest(n.children)|)
    ensures Tokens(lower, html, i) == NodeTokens(lower, n) + Tokens(lower, html, i + |Render(n)|)
  {
    hide StartsAt, Tokens, TokenAt, StartTag, EndTag, WellFormed, WellFormedForest;
    var e := i + |StartTag(n.name, n.attrs, false)| + |RenderForest(n.children)|;
    ElementOpens(lower, html, n, m, i);
    EndTagPiece(lower, html, n.end, e);
    TokensFromTag(lower, html, e);
    assert Tokens(lower, html, i) ==
      [Open(lower(n.name), false)] + (ForestTokens(lower, n.children) + ([Close(lower(n.end))] + Tokens(lower, html, e + |EndTag(n.end)|)));
  }

  lemma {:induction false} RenderedForestTokens(lower: string -> string, html: string, ns: seq<Node>, m: Mode, i: nat)
    requires WellFormedForest(lower, ns, m) && StartsAt(html, RenderForest(ns), i)
    ensures Tokens(lower, html, i) == ForestTokens(lower, ns) + Tokens(lower, html, i + |RenderForest(ns)|)
    decreases ns, 1
  {
    hide StartsAt, Tokens, Render, NodeTokens, WellFormed;
    if ns != [] {
      StartsAtSplit(html, Render(ns[0]), RenderForest(ns[1..]), i);
      RenderedTokens(lower, html, ns[0], m, i);
      RenderedForestTokens(lower, html, ns[1..], m, i + |Render(ns[0])|);
    }
  }

  lemma VoidIsNotRaw(name: string)
    requires IsVoid(name)
    ensures !IsRawText(name)
  {
  }

  // ---- from tags to depth ----------------------------------------------------

  ghost function ModeOf(open: seq<string>): Mode {
    if DepthScan.ForeignAt(open) < 0 then PlainHtml
    else if DepthScan.IntegrationAt(open) < 0 then ForeignContent
    else BackToHtml
  }

  /** An end tag closes its element past everything it may close past. */
  lemma ClosePasses(open: seq<string>, name: string, left: seq<string>)
    requires ClosesPast(left, name)
    ensures CloseElement(open + [name] + left, name) == open
  {
    var longer := open + [name] + left;
    assert longer[|open|] == name;
    forall j | |open| < j < |longer|
      ensures longer[j] != name && longer[j] !in SEARCH_BARRIER_ELEMENTS
    {
      assert longer[j] == left[j - |open| - 1];
    }
    assert PopsTo(longer, name, |open|);
    forall k: nat | PopsTo(longer, name, k) ensures k == |open| {
      PopsToUnique(longer, name, k, |open|);
    }
    assert longer[..|open|] == open;
  }

  /** One past 32 open elements, a barrier, or nothing to close: it is ignored. */
  lemma CloseStops(open: seq<string>, name: string, left: seq<string>)
    requires forall k | 0 <= k < |left| :: left[k] != name
    requires |left| >= 32 || exists k :: 0 <= k < |left| && left[k] in SEARCH_BARRIER_ELEMENTS
    ensures CloseElement(open + left, name) == open + left
  {
    var longer := open + left;
    forall j: nat
      ensures !PopsTo(longer, name, j)
    {
      if j < |longer| && longer[j] == name {
        assert forall k | 0 <= k < |left| :: longer[|open| + k] == left[k];
        assert j < |open|;
      }
    }
  }

  ghost predicate Fits(s: Scan, m: Mode) {
    |s.open| <= s.max && m == ModeOf(s.open)
  }

  /** What a node or forest does to the scan: some names stay open, and the maximum
      rises to the height. */
  function Raised(s: Scan, left: seq<string>, height: nat): Scan {
    Scan(s.open + left, if height == 0 then s.max else Max(s.max, |s.open| + height))
  }

  /** Running a node's tags leaves open what the node leaves open and raises the
      maximum by exactly the node's height. */
  lemma {:induction false} NodeRuns(lower: string -> string, s: Scan, n: Node, m: Mode)
    requires WellFormed(lower, n, m) && Fits(s, m)
    ensures Run(s, NodeTokens(lower, n)) == Raised(s, Left(lower, n), Height(n))
    decreases n, 0
  {
    hide Run, Step, Fits, InForeign, CloseElement, ClosesPast, GoodTag, GoodName, CleanRaw, CleanComment, LooseText, StartsAt;
    match n
    case LeftOpen(name, _, slash, inner) =>
      OpenPushes(s, lower(name), slash, m);
      ForestRuns(lower, Pushed(s, lower(name)), inner, Enter(m, lower(name)));
      LeftOpenRuns(lower, s, n, m);
    case Element(name, _, children, _) =>
      OpenPushes(s, lower(name), false, m);
      ForestRuns(lower, Pushed(s, lower(name)), children, Enter(m, lower(name)));
      ElementRuns(lower, s, n, m);
    case _ =>
      LeafRuns(lower, s, n, m);
  }

  function Pushed(s: Scan, name: string): Scan { Scan(s.open + [name], Max(s.max, |s.open| + 1)) }

  lemma LeafRuns(lower: string -> string, s: Scan, n: Node, m: Mode)
    requires !n.LeftOpen? && !n.Element? && WellFormed(lower, n, m) && Fits(s, m)
    ensures Run(s, NodeTokens(lower, n)) == Raised(s, Left(lower, n), Height(n))
  {
    hide Run, InForeign, CloseElement, GoodTag, GoodName, CleanRaw, CleanComment, LooseText, StartsAt;
    assert s.open + [] == s.open;
    match n
    case RawText(name, _, _, _, _) => RunOne(s, Raw(lower(name)));
    case VoidLeaf(name, _, slash) => RunOne(s, Open(lower(name), slash));
    case ForeignLeaf(name, _) =>
      DepthScan.MarkersDecideForeign(s.open);
      RunOne(s, Open(lower(name), true));
    case _ => RunNone(s);
  }

  lemma LeftOpenRuns(lower: string -> string, s: Scan, n: Node, m: Mode)
    requires n.LeftOpen? && |s.open| <= s.max
    requires Run(s, [Open(lower(n.name), n.slash)]) == Pushed(s, lower(n.name))
    requires Run(Pushed(s, lower(n.name)), ForestTokens(lower, n.inner)) ==
               Raised(Pushed(s, lower(n.name)), LeftBy(lower, n.inner), ForestHeight(n.inner))
    ensures Run(s, NodeTokens(lower, n)) == Raised(s, Left(lower, n), Height(n))
  {
    hide Run, LeftBy, ForestTokens, ForestHeight;
    RunConcat(s, [Open(lower(n.name), n.slash)], ForestTokens(lower, n.inner));
    var left := LeftBy(lower, n.inner);
    assert Left(lower, n) == [lower(n.name)] + left;
    assert (s.open + [lower(n.name)]) + left == s.open + ([lower(n.name)] + left);
  }

  lemma ElementRuns(lower: string -> string, s: Scan, n: Node, m: Mode)
    requires n.Element? && |s.open| <= s.max && lower(n.end) == lower(n.name) && !IsVoid(lower(n.name))
    requires ClosesPast(LeftBy(lower, n.children), lower(n.name))
    requires Run(s, [Open(lower(n.name), false)]) == Pushed(s, lower(n.name))
    requires Run(Pushed(s, lower(n.name)), ForestTokens(lower, n.children)) ==
               Raised(Pushed(s, lower(n.name)), LeftBy(lower, n.children), ForestHeight(n.children))
    ensures Run(s, NodeTokens(lower, n)) == Raised(s, Left(lower, n), Height(n))
  {
    hide Run, InForeign, CloseElement, ClosesPast, IsVoid;
    var name := lower(n.name);
    var inside := Raised(Pushed(s, name), LeftBy(lower, n.children), ForestHeight(n.children));
    ClosePasses(s.open, name, LeftBy(lower, n.children));
    RunOne(inside, Close(name));
    RunConcat(Pushed(s, name), ForestTokens(lower, n.children), [Close(name)]);
    RunConcat(s, [Open(name, false)], ForestTokens(lower, n.children) + [Close(name)]);
    assert s.open + [] == s.open;
  }

  lemma RunNone(s: Scan)
    ensures Run(s, []) == s
  {
  }

  /** A start tag that is not acknowledged as closed opens its element. */
  lemma OpenPushes(s: Scan, name: string, slash: bool, m: Mode)
    requires Fits(s, m) && !IsVoid(name) && (slash ==> !m.ForeignContent?)
    ensures Run(s, [Open(name, slash)]) == Pushed(s, name) && Fits(Pushed(s, name), Enter(m, name)) && |s.open| <= s.max
  {
    hide InForeign;
    DepthScan.MarkersDecideForeign(s.open);
    DepthScan.MarkersPush(s.open, name);
    RunOne(s, Open(name, slash));
    RootsAreNotPoints();
  }

  lemma {:induction false} ForestRuns(lower: string -> string, s: Scan, ns: seq<Node>, m: Mode)
    requires WellFormedForest(lower, ns, m) && Fits(s, m)
    ensures Run(s, ForestTokens(lower, ns)) == Raised(s, LeftBy(lower, ns), ForestHeight(ns))
    decreases ns, 1
  {
    hide Step, NodeTokens, Height, WellFormed;
    if ns == [] {
      assert s.open + [] == s.open;
    } else {
      NodeRuns(lower, s, ns[0], m);
      RunConcat(s, NodeTokens(lower, ns[0]), ForestTokens(lower, ns[1..]));
      if ns[0].LeftOpen? {
        assert ns[1..] == [];
      } else {
        var mid := Raised(s, [], Height(ns[0]));
        assert s.open + [] == s.open;
        ForestRuns(lower, mid, ns[1..], m);
        assert [] + LeftBy(lower, ns[1..]) == LeftBy(lower, ns[1..]);
      }
    }
  }

  lemma RunOne(s: Scan, t: Token)
    ensures Run(s, [t]) == Step(s, t)
  {
    assert [t][1..] == [];
  }

  lemma RootsAreNotPoints()
    ensures FOREIGN_ROOTS !! HTML_INTEGRATION_POINTS
  {
  }

  /** On the text of a forest the scan measures its height, what is left open
      counting as open to the end of what holds it. */
  lemma DepthIsHeight(lower: string -> string, ns: seq<Node>)
    requires WellFormedForest(lower, ns, PlainHtml)
    ensures Depth(lower, RenderForest(ns)) == ForestHeight(ns)
  {
    hide Tokens, Step;
    var html := RenderForest(ns);
    assert html[0..|html|] == html;
    RenderedForestTokens(lower, html, ns, PlainHtml, 0);
    DepthScan.NoTagsAtEnd(lower, html, Scan([], 0), 0);
    assert Tokens(lower, html, 0) == ForestTokens(lower, ns);
    ForestRuns(lower, Scan([], 0), ns, PlainHtml);
  }

  // ---- tag soup --------------------------------------------------------------

  datatype Tag = Start(name: string, attrs: seq<Attr>, slash: bool) | End(name: string)

  function RenderTag(t: Tag): string {
    if t.Start? then StartTag(t.name, t.attrs, t.slash) else EndTag(t.name)
  }

  function RenderTags(ts: seq<Tag>): string {
    if ts == [] then "" else RenderTag(ts[0]) + RenderTags(ts[1..])
  }

  predicate GoodSoup(lower: string -> string, ts: seq<Tag>) {
    forall i | 0 <= i < |ts| :: GoodSoupTag(lower, ts[i])
  }

  function TagToken(lower: string -> string, t: Tag): Token {
    if t.Start? then Open(lower(t.name), t.slash) else Close(lower(t.name))
  }

  function SoupTokens(lower: string -> string, ts: seq<Tag>): seq<Token> {
    if ts == [] then [] else [TagToken(lower, ts[0])] + SoupTokens(lower, ts[1..])
  }

  predicate GoodSoupTag(lower: string -> string, t: Tag) {
    if t.Start? then GoodTag(t.name, t.attrs) && !IsRawText(lower(t.name)) else GoodName(t.name)
  }

  lemma TagIsRead(lower: string -> string, html: string, t: Tag, i: nat)
    requires GoodSoupTag(lower, t) && StartsAt(html, RenderTag(t), i)
    ensures Tokens(lower, html, i) == [TagToken(lower, t)] + Tokens(lower, html, i + |RenderTag(t)|)
  {
    hide StartsAt, Tokens, TokenAt, GoodTag, GoodName, IsRawText, StartTag, EndTag;
    if t.Start? {
      StartTagPiece(lower, html, t.name, t.attrs, t.slash, i);
    } else {
      EndTagPiece(lower, html, t.name, i);
    }
    TokensFromTag(lower, html, i);
  }

  /** Any tags in any order, nested or not, are read one by one. */
  lemma {:induction false} SoupIsRead(lower: string -> string, html: string, ts: seq<Tag>, i: nat)
    requires GoodSoup(lower, ts) && StartsAt(html, RenderTags(ts), i)
    ensures Tokens(lower, html, i) == SoupTokens(lower, ts) + Tokens(lower, html, i + |RenderTags(ts)|)
    decreases ts
  {
    hide StartsAt, Tokens, GoodSoupTag, RenderTag, TagToken;
    if ts != [] {
      StartsAtSplit(html, RenderTag(ts[0]), RenderTags(ts[1..]), i);
      TagIsRead(lower, html, ts[0], i);
      SoupIsRead(lower, html, ts[1..], i + |RenderTag(ts[0])|);
    }
  }

  /** So the depth of any tag soup is that of its tags run one by one. */
  lemma SoupDepth(lower: string -> string, ts: seq<Tag>)
    requires GoodSoup(lower, ts)
    ensures Depth(lower, RenderTags(ts)) == Run(Scan([], 0), SoupTokens(lower, ts)).max
  {
    hide Tokens, Run, GoodSoup, RenderTags, SoupTokens;
    var html := RenderTags(ts);
    WholeStarts(html);
    SoupIsRead(lower, html, ts, 0);
    DepthScan.NoTagsAtEnd(lower, html, Scan([], 0), 0);
    assert SoupTokens(lower, ts) + [] == SoupTokens(lower, ts);
  }

  lemma WholeStarts(html: string)
    ensures StartsAt(html, html, 0)
  {
    assert html[0..|html|] == html;
  }

  // ---- texts that break off --------------------------------------------------

  lemma {:induction false} NoEndFound(html: string, from: nat, i: nat)
    requires from <= i <= |html| && '>' !in html[i..]
    ensures FindEnd(html, from, i) == TagEnd(-1, false)
    decreases |html| - i
  {
    if i < |html| {
      assert html[i] == html[i..][0] != '>';
      if html[i] == '\"' || html[i] == '\'' {
        var close := CharIndex(html, html[i], i + 1);
        if close >= 0 {
          assert html[close + 1..] == html[i..][close + 1 - i..];
          NoEndFound(html, from, close + 1);
        }
      } else {
        assert html[i + 1..] == html[i..][1..];
        NoEndFound(html, from, i + 1);
      }
    }
  }

  lemma BrokenTagShape(html: string, k: nat, name: string, tail: string)
    requires k <= |html| && html[k..] == "<" + name + tail && GoodName(name) && (tail == "" || EndsName(tail[0])) && '>' !in tail
    ensures
      var j := k + 1 + |name|;
      && j <= |html| && html[k] == '<' && IsAlpha(html[k + 1]) && html[k + 1..j] == name
      && NameEnd(html, k + 1) == j && FindEnd(html, j, j) == TagEnd(-1, false)
  {
    hide EndsName, FindEnd, IsAlpha;
    var piece, j := html[k..], k + 1 + |name|;
    assert piece == ("<" + name) + tail && piece[0] == '<' && piece[1..1 + |name|] == name && piece[1 + |name|..] == tail;
    assert html[k + 1..j] == piece[1..1 + |name|] && html[j..] == piece[1 + |name|..];
    assert forall i | k + 1 <= i < j :: html[i] == name[i - k - 1];
    assert tail != "" ==> html[j] == tail[0];
    NoEndFound(html, j, j);
  }

  lemma BrokenTagPiece(lower: string -> string, html: string, k: nat, name: string, tail: string)
    requires k <= |html| && html[k..] == "<" + name + tail && GoodName(name) && !IsRawText(lower(name))
    requires (tail == "" || EndsName(tail[0])) && '>' !in tail
    ensures Tokens(lower, html, k) == [Open(lower(name), false)]
  {
    hide EndsName, IsRawText, FindEnd, NameEnd;
    BrokenTagShape(html, k, name, tail);
    assert TokenAt(lower, html, k) == Piece(Open(lower(name), false), |html|);
    assert CharIndex(html, '<', k) == k;
    assert Tokens(lower, html, |html|) == [];
  }

  lemma RenderTagsPlus(lower: string -> string, ts: seq<Tag>, t: Tag)
    ensures SoupTokens(lower, ts + [t]) == SoupTokens(lower, ts) + [TagToken(lower, t)]
    decreases ts
  {
    if ts == [] {
      assert [t][1..] == [];
    } else {
      assert (ts + [t])[1..] == ts[1..] + [t];
      RenderTagsPlus(lower, ts[1..], t);
    }
  }

  lemma ReadUpTo(lower: string -> string, ts: seq<Tag>, rest: string)
    requires GoodSoup(lower, ts)
    ensures
      var html := RenderTags(ts) + rest;
      Tokens(lower, html, 0) == SoupTokens(lower, ts) + Tokens(lower, html, |RenderTags(ts)|)
  {
    hide GoodSoup, SoupTokens, Tokens, RenderTags;
    var html := RenderTags(ts) + rest;
    assert html[0..0 + |RenderTags(ts)|] == RenderTags(ts);
    SoupIsRead(lower, html, ts, 0);
  }

  /** A text that breaks off inside a start tag is as deep as if it were finished. */
  lemma BrokenTagCounts(lower: string -> string, ts: seq<Tag>, name: string, tail: string)
    requires GoodSoup(lower, ts) && GoodName(name) && !IsRawText(lower(name))
    requires (tail == "" || EndsName(tail[0])) && '>' !in tail
    ensures Depth(lower, RenderTags(ts) + ("<" + name + tail)) == Depth(lower, RenderTags(ts + [Start(name, [], false)]))
  {
    hide Tokens, Run, RenderTags, SoupTokens, StartsAt, GoodName, IsRawText, EndsName;
    var start, html := RenderTags(ts), RenderTags(ts) + ("<" + name + tail);
    assert html[|start|..] == "<" + name + tail;
    ReadUpTo(lower, ts, "<" + name + tail);
    BrokenTagPiece(lower, html, |start|, name, tail);
    RenderTagsPlus(lower, ts, Start(name, [], false));
    SoupDepth(lower, ts + [Start(name, [], false)]);
  }

  lemma {:induction false} NoCommentEnd(html: string, from: nat)
    requires from <= |html| && forall i | from <= i :: !StartsAt(html, "-->", i)
    ensures PastComment(html, from) == |html|
    decreases |html| - from
  {
    if from < |html| {
      NoCommentEnd(html, from + 1);
    }
  }

  lemma CommentTail(html: string, k: nat, comment: string)
    requires k <= |html| && html[k..] == "<!--" + comment && forall i :: !StartsAt(comment, "-->", i)
    ensures |html| == k + 4 + |comment| && PastComment(html, k + 4) == |html|
    ensures StartsAt(html, "<!--", k) && html[k] == '<' && html[k + 1] == '!'
  {
    var rest := html[k..];
    assert rest[0] == '<' && rest[1] == '!' && rest[..4] == "<!--" && rest[4..] == comment;
    assert html[k..k + 4] == rest[..4];
    forall i | k + 4 <= i
      ensures !StartsAt(html, "-->", i)
    {
      assert !StartsAt(comment, "-->", i - k - 4);
      if i + 3 <= |html| {
        assert html[i..i + 3] == comment[i - k - 4..i - k - 4 + 3];
      }
    }
    NoCommentEnd(html, k + 4);
  }

  lemma BrokenCommentPiece(lower: string -> string, html: string, k: nat, comment: string)
    requires k <= |html| && html[k..] == "<!--" + comment && forall i :: !StartsAt(comment, "-->", i)
    ensures Tokens(lower, html, k) == []
  {
    hide StartsAt, PastComment;
    CommentTail(html, k, comment);
    assert TokenAt(lower, html, k) == Piece(Skip, |html|);
    assert CharIndex(html, '<', k) == k;
    assert Tokens(lower, html, |html|) == [];
  }

  /** A comment that is not closed hides the rest of the text. */
  lemma BrokenCommentHides(lower: string -> string, ts: seq<Tag>, comment: string)
    requires GoodSoup(lower, ts) && forall i :: !StartsAt(comment, "-->", i)
    ensures Depth(lower, RenderTags(ts) + ("<!--" + comment)) == Depth(lower, RenderTags(ts))
  {
    hide Run, RenderTags, SoupTokens, Tokens, StartsAt, GoodSoup;
    var start, rest := RenderTags(ts), "<!--" + comment;
    assert (start + rest)[|start|..] == rest;
    ReadUpTo(lower, ts, rest);
    SoupDepth(lower, ts);
    BrokenCommentPiece(lower, start + rest, |start|, comment);
    assert SoupTokens(lower, ts) + [] == SoupTokens(lower, ts);
  }

  // ---- the same tags again and again -----------------------------------------

  function Copies(ts: seq<Tag>, n: nat): seq<Tag> {
    if n == 0 then [] else ts + Copies(ts, n - 1)
  }

  lemma {:induction false} CopiesAreGood(lower: string -> string, ts: seq<Tag>, n: nat)
    requires GoodSoup(lower, ts)
    ensures GoodSoup(lower, Copies(ts, n))
    decreases n
  {
    hide GoodSoupTag;
    if n > 0 {
      CopiesAreGood(lower, ts, n - 1);
    }
  }

  /** In HTML the slash of `<name/>` closes nothing: each copy is one level deeper. */
  lemma SelfClosedTagsNest(lower: string -> string, name: string, attrs: seq<Attr>, n: nat)
    requires GoodTag(name, attrs) && !IsRawText(lower(name)) && !IsVoid(lower(name)) && lower(name) !in FOREIGN_ROOTS
    ensures Depth(lower, RenderTags(Copies([Start(name, attrs, true)], n))) == n
  {
    hide Run, Depth, RenderTags, GoodTag;
    var ts := [Start(name, attrs, true)];
    CopiesAreGood(lower, ts, n);
    SoupDepth(lower, Copies(ts, n));
    OpensNest(lower, name, attrs, n, Scan([], 0));
  }

  lemma {:induction false} OpensNest(lower: string -> string, name: string, attrs: seq<Attr>, n: nat, s: Scan)
    requires !IsVoid(lower(name)) && lower(name) !in FOREIGN_ROOTS && |s.open| == s.max
    requires forall i | 0 <= i < |s.open| :: s.open[i] !in FOREIGN_ROOTS
    ensures Run(s, SoupTokens(lower, Copies([Start(name, attrs, true)], n))).max == s.max + n
    decreases n
  {
    hide IsVoid, Step, InForeign;
    if n > 0 {
      var ts := [Start(name, attrs, true)];
      var rest := Copies(ts, n - 1);
      assert (ts + rest)[0] == ts[0] && (ts + rest)[1..] == rest;
      OpenNests(s, lower(name));
      OpensNest(lower, name, attrs, n - 1, Pushed(s, lower(name)));
    }
  }

  lemma OpenNests(s: Scan, name: string)
    requires !IsVoid(name) && |s.open| == s.max && forall i | 0 <= i < |s.open| :: s.open[i] !in FOREIGN_ROOTS
    ensures Step(s, Open(name, true)) == Pushed(s, name)
  {
    hide IsVoid;
    assert !InForeign(s.open);
  }

  /** Where no foreign root is open, or an integration point is open above the
      first, a tag does with a slash just what it does without. */
  lemma SlashChangesNothing(s: Scan, name: string)
    requires DepthScan.ForeignAt(s.open) < 0 || DepthScan.IntegrationAt(s.open) >= 0
    ensures Step(s, Open(name, true)) == Step(s, Open(name, false))
  {
    hide InForeign, IsVoid;
    DepthScan.MarkersDecideForeign(s.open);
  }

  /** `<a><b></a>` again and again: when `b` is a barrier, no `a` is ever closed and
      every copy is two levels deeper. */
  lemma BarrierKeepsOpen(lower: string -> string, a: string, b: string, n: nat)
    requires GoodName(a) && GoodName(b) && lower(a) != lower(b) && lower(b) in SEARCH_BARRIER_ELEMENTS
    requires !IsRawText(lower(a)) && !IsVoid(lower(a)) && !IsRawText(lower(b)) && !IsVoid(lower(b))
    ensures Depth(lower, RenderTags(Copies([Start(a, [], false), Start(b, [], false), End(a)], n))) == 2 * n
  {
    hide Run, Depth, RenderTags;
    var ts := [Start(a, [], false), Start(b, [], false), End(a)];
    CopiesAreGood(lower, ts, n);
    SoupDepth(lower, Copies(ts, n));
    CopiesStayOpen(lower, a, b, n, Scan([], 0));
  }

  lemma {:induction false} CopiesStayOpen(lower: string -> string, a: string, b: string, n: nat, s: Scan)
    requires lower(a) != lower(b) && lower(b) in SEARCH_BARRIER_ELEMENTS && !IsVoid(lower(a)) && !IsVoid(lower(b)) && |s.open| == s.max
    ensures Run(s, SoupTokens(lower, Copies([Start(a, [], false), Start(b, [], false), End(a)], n))).max == s.max + 2 * n
    decreases n
  {
    hide IsVoid, InForeign, CloseElement, Step;
    if n > 0 {
      var ts := [Start(a, [], false), Start(b, [], false), End(a)];
      var rest := Copies(ts, n - 1);
      var x, y := lower(a), lower(b);
      SoupOfThree(lower, ts, rest);
      var s' := Scan(s.open + [x] + [y], s.max + 2);
      OneCopyOpens(s, x, y);
      RunConcat(s, [Open(x, false), Open(y, false), Close(x)], SoupTokens(lower, rest));
      CopiesStayOpen(lower, a, b, n - 1, s');
    }
  }

  lemma SoupOfThree(lower: string -> string, ts: seq<Tag>, rest: seq<Tag>)
    requires |ts| == 3
    ensures SoupTokens(lower, ts + rest) ==
              [TagToken(lower, ts[0]), TagToken(lower, ts[1]), TagToken(lower, ts[2])] + SoupTokens(lower, rest)
  {
    var after1 := (ts + rest)[1..];
    var after2 := after1[1..];
    assert after1[0] == ts[1] && after2[0] == ts[2] && after2[1..] == rest;
    assert SoupTokens(lower, after2) == [TagToken(lower, ts[2])] + SoupTokens(lower, rest);
    assert SoupTokens(lower, after1) == [TagToken(lower, ts[1])] + SoupTokens(lower, after2);
    assert SoupTokens(lower, ts + rest) == [TagToken(lower, ts[0])] + SoupTokens(lower, after1);
  }

  lemma RunThree(s: Scan, a: Token, b: Token, c: Token)
    ensures Run(s, [a, b, c]) == Step(Step(Step(s, a), b), c)
  {
    hide Step;
    RunConcat(s, [a], [b] + [c]);
    RunConcat(Step(s, a), [b], [c]);
    RunOne(s, a);
    RunOne(Step(s, a), b);
    RunOne(Step(Step(s, a), b), c);
    assert [a] + ([b] + [c]) == [a, b, c];
  }

  lemma OneCopyOpens(s: Scan, x: string, y: string)
    requires x != y && y in SEARCH_BARRIER_ELEMENTS && !IsVoid(x) && !IsVoid(y) && |s.open| == s.max
    ensures Run(s, [Open(x, false), Open(y, false), Close(x)]) == Scan(s.open + [x] + [y], s.max + 2)
  {
    hide IsVoid, InForeign, CloseElement, Run;
    RunThree(s, Open(x, false), Open(y, false), Close(x));
    assert [y][0] == y;
    CloseStops(s.open + [x], x, [y]);
  }

  // ---- the Standard's names --------------------------------------------------

  /** The tag name at `i`, as written; none gives the empty string. */
  function NameWritten(text: string, i: nat): string
    requires i < |text| && text[i] == '<'
  {
    if i + 1 < |text| && IsAlpha(text[i + 1]) then text[i + 1..NameEnd(text, i + 1)]
    else if i + 2 < |text| && text[i + 1] == '/' && IsAlpha(text[i + 2]) then text[i + 2..NameEnd(text, i + 2)]
    else ""
  }

  /** Every tag name the scan reads from `i` on has the property. */
  ghost predicate AllNames(lower: string -> string, text: string, i: nat, ok: string -> bool)
    decreases |text| - i
  {
    var lt := CharIndex(text, '<', i);
    lt < 0 || (ok(NameWritten(text, lt)) && AllNames(lower, text, TokenAt(lower, text, lt).next, ok))
  }

  /** The scan lower-cases names as JavaScript does, the Standard in ASCII only.
      The two read the same tags exactly when every name read lower-cases the same
      both ways. */
  lemma {:induction false} ReadsAsTheStandard(lower: string -> string, text: string, i: nat)
    requires LowerCases(lower)
    ensures Tokens(lower, text, i) == Tokens(Lower, text, i) <==> AllNames(lower, text, i, n => lower(n) == Lower(n))
    decreases |text| - i
  {
    hide TokenAt, NameWritten, Lower, LowerCases, CharIndex;
    var lt := CharIndex(text, '<', i);
    if lt >= 0 {
      var p, q := TokenAt(lower, text, lt), TokenAt(Lower, text, lt);
      SamePiece(lower, text, lt);
      if p == q {
        ReadsAsTheStandard(lower, text, p.next);
        SameTail(lower, text, i);
      } else {
        TokensFromTag(lower, text, lt);
        TokensFromTag(Lower, text, lt);
        CharIndexFound(text, i);
        assert Tokens(lower, text, i)[0] == p.token && Tokens(Lower, text, i)[0] == q.token;
      }
    }
  }

  lemma SamePiece(lower: string -> string, text: string, i: nat)
    requires LowerCases(lower) && i < |text| && text[i] == '<'
    ensures
      var p, q := TokenAt(lower, text, i), TokenAt(Lower, text, i);
      && (lower(NameWritten(text, i)) == Lower(NameWritten(text, i)) <==> p == q)
      && (p == q <==> p.token == q.token) && (p != q ==> !p.token.Skip? && !q.token.Skip?)
  {
    hide FindEnd, RawEnd, NameEnd, PastGt, PastComment, StartsAt;
    assert AlmostAscii("");
    assert Lower("") == "" == LowerKelvin("");
  }

  lemma SameTail(lower: string -> string, text: string, i: nat)
    requires CharIndex(text, '<', i) >= 0
    requires TokenAt(lower, text, CharIndex(text, '<', i)) == TokenAt(Lower, text, CharIndex(text, '<', i))
    ensures
      var next := TokenAt(lower, text, CharIndex(text, '<', i)).next;
      Tokens(lower, text, i) == Tokens(Lower, text, i) <==> Tokens(lower, text, next) == Tokens(Lower, text, next)
  {
    hide TokenAt, CharIndex;
    var p := TokenAt(lower, text, CharIndex(text, '<', i));
    var head := if p.token.Skip? then [] else [p.token];
    var a, b := Tokens(lower, text, p.next), Tokens(Lower, text, p.next);
    assert Tokens(lower, text, i) == head + a && Tokens(Lower, text, i) == head + b;
    assert (head + a)[|head|..] == a && (head + b)[|head|..] == b;
  }

  lemma {:induction false} CharIndexFound(text: string, i: nat)
    requires CharIndex(text, '<', i) >= 0
    ensures CharIndex(text, '<', CharIndex(text, '<', i)) == CharIndex(text, '<', i)
    decreases |text| - i
  {
    if text[i] != '<' {
      CharIndexFound(text, i + 1);
    }
  }

  /** Names in ASCII always do, so on them the depth is the Standard's. */
  lemma {:induction false} AsciiNamesReadAlike(lower: string -> string, text: string, i: nat)
    requires LowerCases(lower) && AllNames(lower, text, i, IsAscii)
    ensures Tokens(lower, text, i) == Tokens(Lower, text, i)
    decreases |text| - i
  {
    hide TokenAt, NameWritten, Lower, LowerCases, CharIndex;
    var lt := CharIndex(text, '<', i);
    if lt >= 0 {
      AsciiLowers(lower, NameWritten(text, lt));
      SamePiece(lower, text, lt);
      AsciiNamesReadAlike(lower, text, TokenAt(lower, text, lt).next);
      SameTail(lower, text, i);
    }
  }

  lemma AsciiLowers(lower: string -> string, name: string)
    requires LowerCases(lower) && IsAscii(name)
    ensures lower(name) == Lower(name)
  {
  }

  /** Where they differ: a name with the Kelvin sign for its `k` is the void `link`
      to the scan, and an element of its own to the Standard. */
  lemma KelvinLink(lower: string -> string)
    requires LowerCases(lower)
    ensures Depth(lower, "<lin\U{212a}>") == 0 && Depth(Lower, "<lin\U{212a}>") == 1
  {
    hide TokenAt, Lower, LowerCases, FindEnd, NameEnd, RawEnd, StartsAt, IsAlpha, Tokens;
    var name, text := "lin\U{212a}", "<lin\U{212a}>";
    LowersLink(lower);
    RenderedLink();
    assert GoodTag(name, []) by { GoodLink(); }
    TagOfLink(lower, text);
    TagOfLink(Lower, text);
    TokensFromTag(lower, text, 0);
    TokensFromTag(Lower, text, 0);
    DepthScan.NoTagsAtEnd(lower, text, Scan([], 0), 0);
    DepthScan.NoTagsAtEnd(Lower, text, Scan([], 0), 0);
    RunOne(Scan([], 0), Open(lower(name), false));
    RunOne(Scan([], 0), Open(Lower(name), false));
  }

  lemma LowersLink(lower: string -> string)
    requires LowerCases(lower)
    ensures lower("lin\U{212a}") == "link" && Lower("lin\U{212a}") == "lin\U{212a}"
  {
    assert AlmostAscii("lin\U{212a}");
  }

  lemma RenderedLink()
    ensures StartTag("lin\U{212a}", [], false) == "<lin\U{212a}>"
    ensures StartsAt("<lin\U{212a}>", "<lin\U{212a}>", 0)
  {
    assert RenderAttrs([]) == "";
  }

  lemma GoodLink()
    ensures GoodName("lin\U{212a}")
  {
  }

  lemma TagOfLink(lower: string -> string, text: string)
    requires text == "<lin\U{212a}>" && !IsRawText(lower("lin\U{212a}"))
    ensures TokenAt(lower, text, 0) == Piece(Open(lower("lin\U{212a}"), false), |text|)
  {
    hide TokenAt, FindEnd, NameEnd, RawEnd, StartsAt;
    RenderedLink();
    GoodLink();
    StartTagPiece(lower, text, "lin\U{212a}", [], false, 0);
  }
}
