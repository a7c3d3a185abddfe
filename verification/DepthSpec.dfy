/** What the nesting-depth pre-screen measures (src/depth.ts), without a cap and
    without markers: the text is cut into tags, and the tags run against a stack
    of open elements. Tag names are compared through `lower`, the language's own
    lower-casing, of which only its effect on ASCII names is known. */
module DepthSpec {

  const DEPTH_SCAN_CAP := 513
  const MAX_CLOSE_SEARCH := 32

  const VOID_ELEMENTS := {
    "area", "base", "br", "col", "embed", "hr", "img", "input",
    "link", "meta", "param", "source", "track", "wbr"
  }

  const RAWTEXT_ELEMENTS := {
    "script", "style", "textarea", "title",
    "xmp", "iframe", "noembed", "noframes", "plaintext"
  }

  const SEARCH_BARRIER_ELEMENTS := {
    "address", "applet", "article", "aside", "blockquote", "body", "button",
    "center", "details", "dialog", "dir", "div", "dl", "fieldset", "figcaption",
    "figure", "footer", "form", "frameset", "h1", "h2", "h3", "h4", "h5", "h6",
    "head", "header", "hgroup", "html", "listing", "main", "marquee", "menu",
    "nav", "noscript", "object", "ol", "pre", "search", "section", "select",
    "summary", "table", "template", "ul"
  }

  const FOREIGN_ROOTS := {"svg", "math"}

  const HTML_INTEGRATION_POINTS := {
    "foreignobject", "desc", "title",
    "mi", "mo", "mn", "ms", "mtext", "annotation-xml"
  }

  // ---- characters and names --------------------------------------------------

  predicate IsAlpha(c: char) {
    'A' <= c <= 'Z' || 'a' <= c <= 'z'
  }

  predicate IsWhitespace(c: char) {
    c == ' ' || c == '\t' || c == '\n' || c as int == 0x0c || c == '\r'
  }

  /** The characters that end a tag name (section 13.2.5.8 of the WHATWG HTML
      Standard, the tag-name state). */
  predicate EndsName(c: char) {
    IsWhitespace(c) || c == '/' || c == '>'
  }

  function LowerChar(c: char): char {
    if 'A' <= c <= 'Z' then (c as int + 0x20) as char else c
  }

  /** Lower-casing as the Standard does it: ASCII letters only. */
  function Lower(s: string): (r: string)
    ensures |r| == |s|
  {
    seq(|s|, i requires 0 <= i < |s| => LowerChar(s[i]))
  }

  const KELVIN := '\U{212a}'

  predicate IsAscii(s: string) {
    forall i | 0 <= i < |s| :: s[i] < '\U{80}'
  }

  /** Nothing but ASCII and the Kelvin sign. */
  predicate AlmostAscii(s: string) {
    forall i | 0 <= i < |s| :: s[i] < '\U{80}' || s[i] == KELVIN
  }

  function LowerKelvin(s: string): (r: string)
    ensures |r| == |s|
  {
    seq(|s|, i requires 0 <= i < |s| => if s[i] == KELVIN then 'k' else LowerChar(s[i]))
  }

  /** What the model takes from JavaScript's `toLowerCase`: ASCII letters become
      small, the Kelvin sign becomes `k`, and a name with any other character
      keeps one outside ASCII. */
  ghost predicate LowerCases(lower: string -> string) {
    forall s :: if AlmostAscii(s) then lower(s) == LowerKelvin(s) else !IsAscii(lower(s))
  }

  /** indexOf for one character. */
  function CharIndex(text: string, c: char, from: nat): (at: int)
    ensures at == -1 || (from <= at < |text| && text[at] == c)
    decreases |text| - from
  {
    if from >= |text| then -1
    else if text[from] == c then from
    else CharIndex(text, c, from + 1)
  }

  /** The position after the next `>`, or the end of the text. */
  function PastGt(text: string, from: nat): (next: nat)
    ensures next <= |text|
    ensures from <= |text| ==> from <= next
    ensures from < |text| ==> from < next
  {
    var gt := CharIndex(text, '>', from);
    if gt < 0 then |text| else gt + 1
  }

  predicate StartsAt(text: string, piece: string, at: nat) {
    at + |piece| <= |text| && text[at..at + |piece|] == piece
  }

  /** The position after the next `-->`, or the end of the text. */
  function PastComment(text: string, from: nat): (next: nat)
    ensures next <= |text|
    ensures from <= |text| ==> from <= next
    decreases |text| - from
  {
    if from >= |text| then |text|
    else if StartsAt(text, "-->", from) then from + 3
    else PastComment(text, from + 1)
  }

  function NameEnd(text: string, from: nat): (j: nat)
    requires from <= |text|
    ensures from <= j <= |text|
    ensures forall k | from <= k < j :: !EndsName(text[k])
    ensures j < |text| ==> EndsName(text[j])
    decreases |text| - from
  {
    if from == |text| || EndsName(text[from]) then from else NameEnd(text, from + 1)
  }

  datatype TagEnd = TagEnd(gt: int, selfClosing: bool)

  /** The `>` that ends a tag whose attributes start at `from`, skipping quoted
      values; the scan stands at `i`. */
  function FindEnd(text: string, from: nat, i: nat): (r: TagEnd)
    requires from <= i
    ensures r.gt == -1 || i <= r.gt < |text|
    decreases |text| - i
  {
    if i >= |text| then TagEnd(-1, false)
    else if text[i] == '\"' || text[i] == '\'' then
      var close := CharIndex(text, text[i], i + 1);
      if close < 0 then TagEnd(-1, false) else FindEnd(text, from, close + 1)
    else if text[i] == '>' then TagEnd(i, i > from && text[i - 1] == '/')
    else FindEnd(text, from, i + 1)
  }

  /** `</name` stands at `i`, in any case, and the name ends there. */
  predicate RawCloseAt(text: string, i: nat, name: string) {
    var after := i + 2 + |name|;
    && after <= |text|
    && text[i] == '<' && text[i + 1] == '/'
    && Lower(text[i + 2..after]) == name
    && (after == |text| || EndsName(text[after]))
  }

  /** Where raw-text content ends: past its end tag's `>`, or at the end. */
  function RawEnd(text: string, i: nat, name: string): (next: nat)
    ensures next <= |text|
    ensures i <= |text| ==> i <= next
    decreases |text| - i
  {
    if i >= |text| then |text|
    else if RawCloseAt(text, i, name) then PastGt(text, i + 2 + |name|)
    else RawEnd(text, i + 1, name)
  }

  // ---- tags ------------------------------------------------------------------

  predicate IsVoid(name: string) { name in VOID_ELEMENTS }

  predicate IsRawText(name: string) { name in RAWTEXT_ELEMENTS }

  datatype Token =
    | Skip
    | Open(name: string, selfClosing: bool)
    | Close(name: string)
    | Raw(name: string)

  datatype Piece = Piece(token: Token, next: nat)

  /** The token that the `<` at `i` starts, and where the scan goes on. */
  function TokenAt(lower: string -> string, text: string, i: nat): (p: Piece)
    requires i < |text| && text[i] == '<'
    ensures i < p.next <= |text|
  {
    if i + 1 >= |text| then Piece(Skip, i + 1)
    else
      var c := text[i + 1];
      if c == '!' then
        if StartsAt(text, "<!--", i) then Piece(Skip, PastComment(text, i + 4))
        else Piece(Skip, PastGt(text, i + 2))
      else if c == '?' then Piece(Skip, PastGt(text, i + 2))
      else if c == '/' then
        if i + 2 < |text| && IsAlpha(text[i + 2]) then
          Piece(Close(lower(text[i + 2..NameEnd(text, i + 2)])), PastGt(text, i + 2))
        else Piece(Skip, PastGt(text, i + 2))
      else if IsAlpha(c) then
        var j := NameEnd(text, i + 1);
        var name := lower(text[i + 1..j]);
        var end := FindEnd(text, j, j);
        var body := if end.gt < 0 then |text| else end.gt + 1;
        if IsRawText(name) then Piece(Raw(name), RawEnd(text, body, name))
        else Piece(Open(name, end.selfClosing), body)
      else Piece(Skip, i + 1)
  }

  /** The tags of `text` from `i` on; comments, declarations and text leave none. */
  function Tokens(lower: string -> string, text: string, i: nat): seq<Token>
    decreases |text| - i
  {
    var lt := CharIndex(text, '<', i);
    if lt < 0 then []
    else
      var p := TokenAt(lower, text, lt);
      (if p.token.Skip? then [] else [p.token]) + Tokens(lower, text, p.next)
  }

  // ---- the stack of open elements --------------------------------------------

  /** First index at or after `from` whose name is in `names`, or -1. */
  function FirstIn(open: seq<string>, names: set<string>, from: nat): (k: int)
    ensures k == -1 || (from <= k < |open| && open[k] in names)
    ensures forall j | from <= j < |open| && open[j] in names :: 0 <= k <= j
    decreases |open| - from
  {
    if from >= |open| then -1
    else if open[from] in names then from
    else FirstIn(open, names, from + 1)
  }

  /** The innermost-first question the scan asks: some foreign root is open, and
      no integration point is open above the first of them. */
  ghost predicate InForeign(open: seq<string>) {
    exists f ::
      && 0 <= f < |open| && open[f] in FOREIGN_ROOTS
      && (forall j | 0 <= j < f :: open[j] !in FOREIGN_ROOTS)
      && (forall k | f < k < |open| :: open[k] !in HTML_INTEGRATION_POINTS)
  }

  /** `</name>` may pop to index `k`: it is the topmost open `name`, within
      reach, and nothing above it is a barrier (section 13.2.6.4.7, bounded). */
  ghost predicate PopsTo(open: seq<string>, name: string, k: nat) {
    && k < |open| && open[k] == name && |open| - k <= MAX_CLOSE_SEARCH
    && (forall j | k < j < |open| :: open[j] != name && open[j] !in SEARCH_BARRIER_ELEMENTS)
  }

  ghost function CloseElement(open: seq<string>, name: string): (r: seq<string>)
    ensures r <= open
  {
    if k: nat :| PopsTo(open, name, k) then open[..k] else open
  }

  lemma PopsToUnique(open: seq<string>, name: string, j: nat, k: nat)
    requires PopsTo(open, name, j) && PopsTo(open, name, k)
    ensures j == k
  {
  }

  datatype Scan = Scan(open: seq<string>, max: nat)

  function Max(a: nat, b: nat): nat { if a < b then b else a }

  ghost function Step(s: Scan, t: Token): Scan {
    match t
    case Skip => s
    case Close(name) => if IsVoid(name) then s else s.(open := CloseElement(s.open, name))
    case Raw(_) => s.(max := Max(s.max, |s.open| + 1))
    case Open(name, selfClosing) =>
      if (selfClosing && InForeign(s.open)) || IsVoid(name) then s
      else Scan(s.open + [name], Max(s.max, |s.open| + 1))
  }

  ghost function Run(s: Scan, ts: seq<Token>): Scan
    decreases ts
  {
    if ts == [] then s else Run(Step(s, ts[0]), ts[1..])
  }

  /** The uncapped depth of a text. */
  ghost function Depth(lower: string -> string, text: string): nat {
    Run(Scan([], 0), Tokens(lower, text, 0)).max
  }

  lemma {:induction false} RunConcat(s: Scan, a: seq<Token>, b: seq<Token>)
    ensures Run(s, a + b) == Run(Run(s, a), b)
    decreases a
  {
    if a == [] {
      assert a + b == b;
    } else {
      assert (a + b)[1..] == a[1..] + b;
      RunConcat(Step(s, a[0]), a[1..], b);
    }
  }

  lemma {:induction false} MaxNeverDrops(s: Scan, ts: seq<Token>)
    ensures s.max <= Run(s, ts).max
    decreases ts
  {
    if ts != [] {
      MaxNeverDrops(Step(s, ts[0]), ts[1..]);
    }
  }

  function EndTags(ts: seq<Token>): nat {
    if ts == [] then 0 else (if ts[0].Close? then 1 else 0) + EndTags(ts[1..])
  }
}
