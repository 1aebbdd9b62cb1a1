/**
 * The HTML-to-element parser of the document converter: the HTML produced from a
 * Word document is cut into table and non-table parts, tables into rows of cell
 * texts, and the rest into block elements (headings, paragraphs, list items,
 * images, breaks and rules) with their inline formatting.
 *
 * Each regular expression of the source is a hand-written matcher (`MatchAt`); a
 * global `exec` loop or `replace(re, '')` is a scan over the leftmost,
 * non-overlapping matches (`Exec`, `Scan`, `Gaps`).
 */
module HtmlParse {
  import opened Text

  datatype Format = Format(bold: bool, italic: bool, underline: bool)

  /** A parsed element. A table holds its rows, each a list of cell texts. */
  datatype Element =
    | Heading(content: string, level: nat, bold: bool)
    | Paragraph(content: string, format: Format)
    | ListItem(content: string, format: Format)
    | Image(imageId: string)
    | Table(rows: seq<seq<string>>)
    | Break
    | Hr

  // ---------------------------------------------------------------------------
  // Entity decoding

  predicate IsHexDigit(c: char) {
    IsDigit(c) || 'a' <= c <= 'f' || 'A' <= c <= 'F'
  }

  function HexDigitValue(c: char): nat
    requires IsHexDigit(c)
  {
    if IsDigit(c) then DigitValue(c)
    else if 'a' <= c <= 'f' then c as int - 'a' as int + 10
    else c as int - 'A' as int + 10
  }

  function HexValue(ds: string): nat
    requires forall k | 0 <= k < |ds| :: IsHexDigit(ds[k])
  {
    if ds == [] then 0 else 16 * HexValue(ds[..|ds| - 1]) + HexDigitValue(ds[|ds| - 1])
  }

  function HexRunEnd(s: string, i: nat): (r: nat)
    requires i <= |s|
    decreases |s| - i
    ensures i <= r <= |s|
    ensures forall p | i <= p < r :: IsHexDigit(s[p])
  {
    if i < |s| && IsHexDigit(s[i]) then HexRunEnd(s, i + 1) else i
  }

  /** `String.fromCharCode(n)`: the UTF-16 code unit `n mod 65536`; a lone surrogate
      unit has no character of its own here and becomes U+FFFD. */
  function CharOfCode(n: nat): char {
    var u := n % 0x1_0000;
    if 0xD800 <= u < 0xE000 then '\U{FFFD}' else u as char
  }

  /** The position of the `;` closing a `&#\d+;` reference at the start of `s`. */
  function DecimalRefEnd(s: string): (r: Option<nat>)
    ensures r.Some? ==> 2 < r.value < |s| && forall k | 2 <= k < r.value :: IsDigit(s[k])
  {
    if HasExactAt(s, 0, "&#") then
      var d := DigitRunEnd(s, 2);
      if d > 2 && d < |s| && s[d] == ';' then Some(d) else None
    else None
  }

  /** The position of the `;` closing a `&#x[0-9a-fA-F]+;` reference at the start of `s`. */
  function HexRefEnd(s: string): (r: Option<nat>)
    ensures r.Some? ==> 3 < r.value < |s| && forall k | 3 <= k < r.value :: IsHexDigit(s[k])
  {
    if HasExactAt(s, 0, "&#x") then
      var d := HexRunEnd(s, 3);
      if d > 3 && d < |s| && s[d] == ';' then Some(d) else None
    else None
  }

  /** `replace(/&#(\d+);/g, ...)` */
  function DecodeDecimal(s: string): (r: string)
    decreases |s|
  {
    if s == [] then []
    else
      match DecimalRefEnd(s)
      case Some(d) => [CharOfCode(DigitsValue(s[2..d]))] + DecodeDecimal(s[d + 1..])
      case None => [s[0]] + DecodeDecimal(s[1..])
  }

  /** `replace(/&#x([0-9a-fA-F]+);/g, ...)` */
  function DecodeHex(s: string): (r: string)
    decreases |s|
  {
    if s == [] then []
    else
      match HexRefEnd(s)
      case Some(d) => [CharOfCode(HexValue(s[3..d]))] + DecodeHex(s[d + 1..])
      case None => [s[0]] + DecodeHex(s[1..])
  }

  /** `decodeHtmlEntities`: the named entities in a fixed order, then the decimal and
      the hexadecimal references. */
  function DecodeHtmlEntities(text: string): string {
    var t1 := ReplaceAll(text, "&nbsp;", " ");
    var t2 := ReplaceAll(t1, "&amp;", "&");
    var t3 := ReplaceAll(t2, "&lt;", "<");
    var t4 := ReplaceAll(t3, "&gt;", ">");
    var t5 := ReplaceAll(t4, "&quot;", "\"");
    var t6 := ReplaceAll(t5, "&#39;", "'");
    var t7 := ReplaceAll(t6, "&apos;", "'");
    DecodeHex(DecodeDecimal(t7))
  }

  // ---------------------------------------------------------------------------
  // The regular expressions

  /** `/<!--[\s\S]*?-->/g`, `/<table[^>]*>([\s\S]*?)<\/table>/gi`,
      `/<tr[^>]*>([\s\S]*?)<\/tr>/gi`, `/<t[dh][^>]*>([\s\S]*?)<\/t[dh]>/gi`,
      `/<[^>]+>/g` and the block expression of `parseHtmlContent`. */
  datatype Pattern = CommentRe | TableRe | RowRe | CellRe | TagRe | BlockRe

  /** A match: its end, the captured content, and for a block its tag name (in lower
      case) and attribute text. */
  datatype Hit = Hit(end: nat, inner: string, name: string, attrs: string)

  /** The first position at or after `i` where `</td>` or `</th>` starts. */
  function FindCellClose(s: string, i: nat): (r: Option<nat>)
    decreases |s| - i
    ensures r.Some? ==> i <= r.value && r.value + 5 <= |s|
  {
    if i + 5 > |s| then None
    else if HasAt(s, i, "</td>") || HasAt(s, i, "</th>") then Some(i)
    else FindCellClose(s, i + 1)
  }

  /** `<tag[^>]*>([\s\S]*?)</close>` at `i`, for an opening literal and a closing literal. */
  function EnclosedAt(s: string, i: nat, open: string, close: string): (r: Option<Hit>)
    requires |close| > 0
    ensures r.Some? ==> i < r.value.end <= |s|
  {
    if !HasAt(s, i, open) then None
    else
      match FindChar(s, i + |open|, GreaterThan)
      case None => None
      case Some(g) =>
        match Find(s, g + 1, close)
        case None => None
        case Some(q) => Some(Hit(q + |close|, s[g + 1..q], "", ""))
  }

  function CellAt(s: string, i: nat): (r: Option<Hit>)
    ensures r.Some? ==> i < r.value.end <= |s|
  {
    if !(HasAt(s, i, "<td") || HasAt(s, i, "<th")) then None
    else
      match FindChar(s, i + 3, GreaterThan)
      case None => None
      case Some(g) =>
        match FindCellClose(s, g + 1)
        case None => None
        case Some(q) => Some(Hit(q + 5, s[g + 1..q], "", ""))
  }

  /** `<[^>]+>` at `i`: a `<`, at least one other character, and the first `>`. */
  function TagAt(s: string, i: nat): (r: Option<Hit>)
    ensures r.Some? ==> i < r.value.end <= |s|
  {
    if i < |s| && s[i] == LessThan then
      match FindChar(s, i + 1, GreaterThan)
      case None => None
      case Some(g) => if g > i + 1 then Some(Hit(g + 1, "", "", "")) else None
    else None
  }

  predicate BlockTagName(n: string) {
    n in {"h1", "h2", "h3", "h4", "h5", "h6", "p", "li", "hr", "br", "img"}
  }

  lemma HeadingNames(d: char)
    requires '1' <= d <= '6'
    ensures BlockTagName("h" + [d])
  {
    if d == '1' { assert "h" + [d] == "h1"; }
    else if d == '2' { assert "h" + [d] == "h2"; }
    else if d == '3' { assert "h" + [d] == "h3"; }
    else if d == '4' { assert "h" + [d] == "h4"; }
    else if d == '5' { assert "h" + [d] == "h5"; }
    else { assert "h" + [d] == "h6"; }
  }

  /** The alternation `h[1-6]|p|li|hr|br|img` at `j`, in lower case. */
  function BlockName(s: string, j: nat): (r: Option<string>)
    ensures r.Some? ==> BlockTagName(r.value) && j + |r.value| <= |s|
  {
    if HasAt(s, j, "h") && j + 1 < |s| && '1' <= s[j + 1] <= '6' then
      HeadingNames(s[j + 1]);
      Some("h" + [s[j + 1]])
    else if HasAt(s, j, "p") then Some("p")
    else if HasAt(s, j, "li") then Some("li")
    else if HasAt(s, j, "hr") then Some("hr")
    else if HasAt(s, j, "br") then Some("br")
    else if HasAt(s, j, "img") then Some("img")
    else None
  }

  /** The first `<` at or after `i` that is followed by `name` or `/name`: the point
      where `[^<]*(?:<(?!\/?name)[^<]*)*` has to stop. */
  function FirstOpenOrClose(s: string, i: nat, name: string): (r: Option<nat>)
    decreases |s| - i
    ensures r.Some? ==> i <= r.value < |s| && s[r.value] == LessThan
  {
    if i >= |s| then None
    else if s[i] == LessThan && (HasAt(s, i + 1, name) || HasAt(s, i + 1, "/" + name)) then Some(i)
    else FirstOpenOrClose(s, i + 1, name)
  }

  /** The first alternative of the block expression: an element with content and its
      closing tag, with no opening or closing tag of the same name inside. */
  function ClosedBlockAt(s: string, i: nat, name: string): (r: Option<Hit>)
    requires i + 1 + |name| <= |s|
    ensures r.Some? ==> i < r.value.end <= |s|
  {
    match FindChar(s, i + 1 + |name|, GreaterThan)
    case None => None
    case Some(g) =>
      match FirstOpenOrClose(s, g + 1, name)
      case None => None
      case Some(q) =>
        if HasAt(s, q, "</" + name + ">") then Some(Hit(q + |name| + 3, s[g + 1..q], name, s[i + 1 + |name|..g]))
        else None
  }

  /** The second alternative: `<(hr|br|img)([^>]*)\/?>` without content. */
  function BareBlockAt(s: string, i: nat, name: string): (r: Option<Hit>)
    requires i + 1 + |name| <= |s|
    ensures r.Some? ==> i < r.value.end <= |s|
  {
    if name in {"hr", "br", "img"} then
      match FindChar(s, i + 1 + |name|, GreaterThan)
      case None => None
      case Some(g) => Some(Hit(g + 1, "", name, s[i + 1 + |name|..g]))
    else None
  }

  function BlockAt(s: string, i: nat): (r: Option<Hit>)
    ensures r.Some? ==> i < r.value.end <= |s| && BlockTagName(r.value.name)
  {
    if i < |s| && s[i] == LessThan then
      match BlockName(s, i + 1)
      case None => None
      case Some(n) =>
        match ClosedBlockAt(s, i, n)
        case Some(h) => Some(h)
        case None => BareBlockAt(s, i, n)
    else None
  }

  /** The match of a pattern at exactly position `i`. */
  function MatchAt(p: Pattern, s: string, i: nat): (r: Option<Hit>)
    ensures r.Some? ==> i < r.value.end <= |s|
    ensures r.Some? && p == BlockRe ==> BlockTagName(r.value.name)
  {
    match p
    case CommentRe =>
      if HasExactAt(s, i, "<!--") then
        match Find(s, i + 4, "-->")
        case Some(q) => Some(Hit(q + 3, "", "", ""))
        case None => None
      else None
    case TableRe => EnclosedAt(s, i, "<table", "</table>")
    case RowRe => EnclosedAt(s, i, "<tr", "</tr>")
    case CellRe => CellAt(s, i)
    case TagRe => TagAt(s, i)
    case BlockRe => BlockAt(s, i)
  }

  /** A match found by `exec`: where it starts, and the match. */
  datatype Found = Found(start: nat, hit: Hit)

  /** A match at `q` that ends after `q` and within the first `n` characters; the
      matchers produce no other kind (`MatchAt`), and `Exec` ignores any other. */
  predicate Fits(at: nat -> Option<Hit>, n: nat, q: nat) {
    at(q).Some? && q < at(q).value.end <= n
  }

  /** The matcher of a pattern over `s`. */
  function Matcher(p: Pattern, s: string): (at: nat -> Option<Hit>) {
    (i: nat) => MatchAt(p, s, i)
  }

  lemma MatcherFits(p: Pattern, s: string, q: nat)
    ensures Matcher(p, s)(q).Some? ==> Fits(Matcher(p, s), |s|, q)
  {
  }

  /** `re.exec(s)` with `re.lastIndex == from`: the leftmost match at or after `from`. */
  function Exec(at: nat -> Option<Hit>, n: nat, from: nat): (r: Option<Found>)
    decreases n - from
    ensures r.Some? ==> from <= r.value.start < r.value.hit.end <= n
    ensures r.Some? ==> at(r.value.start) == Some(r.value.hit)
  {
    if from >= n then None
    else
      match at(from)
      case Some(h) => if from < h.end <= n then Some(Found(from, h)) else Exec(at, n, from + 1)
      case None => Exec(at, n, from + 1)
  }

  /** `Exec` finds the leftmost match: there is none before the one it returns. */
  lemma {:induction false} ExecLeftmost(at: nat -> Option<Hit>, n: nat, from: nat)
    decreases n - from
    ensures Exec(at, n, from).Some? ==> forall q: nat | from <= q < Exec(at, n, from).value.start :: !Fits(at, n, q)
    ensures Exec(at, n, from).None? ==> forall q: nat | from <= q :: !Fits(at, n, q)
  {
    if from < n && !Fits(at, n, from) {
      ExecLeftmost(at, n, from + 1);
    }
  }

  /** All the matches an `exec` loop started at `from` visits, in order. */
  function Scan(at: nat -> Option<Hit>, n: nat, from: nat): seq<Found>
    decreases n - from
  {
    match Exec(at, n, from)
    case None => []
    case Some(f) => [f] + Scan(at, n, f.hit.end)
  }

  /** `s.replace(re, '')` from `from` on: the text between the matches. */
  function Gaps(at: nat -> Option<Hit>, s: string, from: nat): string
    requires from <= |s|
    decreases |s| - from
  {
    match Exec(at, |s|, from)
    case None => s[from..]
    case Some(f) => s[from..f.start] + Gaps(at, s, f.hit.end)
  }

  /** The matches of a pattern over the whole of `s`. */
  function Matches(p: Pattern, s: string): seq<Found> {
    Scan(Matcher(p, s), |s|, 0)
  }

  /** What each match contributes, concatenated in order. */
  function CollectHits<T>(ms: seq<Found>, push: Hit -> seq<T>): seq<T> {
    if ms == [] then [] else push(ms[0].hit) + CollectHits(ms[1..], push)
  }

  /** `html.replace(/<[^>]+>/g, '')` */
  function StripTags(s: string): string {
    Gaps(Matcher(TagRe, s), s, 0)
  }

  /** `html.replace(/<!--[\s\S]*?-->/g, '')` */
  function StripComments(s: string): string {
    Gaps(Matcher(CommentRe, s), s, 0)
  }

  // ---------------------------------------------------------------------------
  // Inline formatting and block elements

  /** `/<name\b/i.test(s)`: the tag name followed by a word boundary. */
  predicate OpensTag(s: string, name: string) {
    exists i | 0 <= i < |s| :: HasAt(s, i, "<" + name)
      && (i + 1 + |name| == |s| || !IsWordChar(s[i + 1 + |name|]))
  }

  datatype Inline = Inline(text: string, format: Format)

  /** `parseInlineFormatting` */
  function InlineFormatting(html: string): Inline {
    Inline(DecodeHtmlEntities(StripTags(html)),
           Format(OpensTag(html, "strong") || OpensTag(html, "b"),
                  OpensTag(html, "em") || OpensTag(html, "i"),
                  OpensTag(html, "u")))
  }

  const DoubleQuote: char := 34 as char
  const SingleQuote: char := 39 as char

  /** A double or a single quote mark. */
  predicate IsQuote(c: char) {
    c == DoubleQuote || c == SingleQuote
  }

  function NonQuoteEnd(s: string, i: nat): (r: nat)
    requires i <= |s|
    decreases |s| - i
    ensures i <= r <= |s|
    ensures r < |s| ==> IsQuote(s[r])
  {
    if i < |s| && !IsQuote(s[i]) then NonQuoteEnd(s, i + 1) else i
  }

  /** `src=` at `q`, a quote mark, a value of one or more characters other than quote
      marks, and a quote mark: the end of the value. */
  function SrcValueEnd(s: string, q: nat): (r: Option<nat>)
    ensures r.Some? ==> q + 5 < r.value < |s|
  {
    if HasExactAt(s, q, "src=") && q + 4 < |s| && IsQuote(s[q + 4]) then
      var v := NonQuoteEnd(s, q + 5);
      if v > q + 5 && v < |s| then Some(v) else None
    else None
  }

  /** `attrs.match` of the `src=` pattern above: the first such value at or after `i`. */
  function SrcIn(s: string, i: nat): (r: Option<string>)
    decreases |s| - i
    ensures r.Some? ==> r.value != []
  {
    if i >= |s| then None
    else
      match SrcValueEnd(s, i)
      case Some(v) => Some(s[i + 5..v])
      case None => SrcIn(s, i + 1)
  }

  /** Within `<img[^>]*`, the quoted `src=` value and `[^>]*>`, starting at some `<img`,
      the greedy `[^>]*` puts `src=` at the last position below `hi` where the rest can
      match. */
  function LastSrc(s: string, lo: nat, hi: nat): (r: Option<string>)
    requires hi <= |s|
    decreases hi
    ensures r.Some? ==> r.value != []
  {
    if hi <= lo then None
    else
      match SrcValueEnd(s, hi - 1)
      case Some(v) => if FindChar(s, v + 1, GreaterThan).Some? then Some(s[hi + 4..v]) else LastSrc(s, lo, hi - 1)
      case None => LastSrc(s, lo, hi - 1)
  }

  function ImgSrcAt(s: string, i: nat): (r: Option<string>)
    ensures r.Some? ==> r.value != []
  {
    if HasExactAt(s, i, "<img") then
      var hi := match FindChar(s, i + 4, GreaterThan) case Some(g) => g case None => |s|;
      LastSrc(s, i + 4, hi)
    else None
  }

  /** `innerHtml.match` of the `<img` pattern above: the first image. */
  function InnerImage(s: string, i: nat): (r: Option<string>)
    decreases |s| - i
    ensures r.Some? ==> r.value != []
  {
    if i >= |s| then None
    else
      match ImgSrcAt(s, i)
      case Some(v) => Some(v)
      case None => InnerImage(s, i + 1)
  }

  function HeadingLevel(name: string): nat
    requires |name| == 2 && IsDigit(name[1])
  {
    DigitValue(name[1])
  }

  /** The elements one block match contributes in `parseHtmlContent`. */
  function BlockElements(h: Hit): seq<Element> {
    ElementsOf(h, InlineFormatting(h.inner))
  }

  /** The elements of a block match, given the inline formatting of its content. */
  function ElementsOf(h: Hit, inl: Inline): seq<Element> {
    if h.name == "hr" then [Hr]
    else if h.name == "br" then [Break]
    else if h.name == "img" then
      (match SrcIn(h.attrs, 0) case Some(v) => [Image(v)] case None => [])
    else
      ImagesOf(h) + TextElement(h.name, Trim(inl.text), inl.format)
  }

  /** The first image inside a block with content, if there is one. */
  function ImagesOf(h: Hit): seq<Element> {
    match InnerImage(h.inner, 0) case Some(v) => [Image(v)] case None => []
  }

  /** The text element of a block with content: none when the trimmed text is empty. */
  function TextElement(name: string, content: string, format: Format): seq<Element> {
    if content == [] then []
    else if |name| == 2 && name[0] == 'h' && IsDigit(name[1]) then [Heading(content, HeadingLevel(name), true)]
    else if name == "li" then [ListItem(content, format)]
    else [Paragraph(content, format)]
  }

  /** `parseHtmlContent` */
  function ContentElements(html: string): seq<Element> {
    CollectHits(Matches(BlockRe, html), BlockElements)
  }

  // ---------------------------------------------------------------------------
  // Tables

  /** One cell: tags stripped, trimmed, then decoded. */
  function CellText(h: Hit): seq<string> {
    [DecodeHtmlEntities(Trim(StripTags(h.inner)))]
  }

  /** The cell matcher over a row's content. */
  function CellMatchers(inner: string): nat -> Option<Hit> {
    Matcher(CellRe, inner)
  }

  function Nonempty(cells: seq<string>): seq<seq<string>> {
    if cells == [] then [] else [cells]
  }

  /** One row: its cells, or nothing when it has none. */
  function RowOf(cellAt: string -> (nat -> Option<Hit>), cellPush: Hit -> seq<string>, h: Hit): seq<seq<string>>
  {
    Nonempty(CollectHits(Scan(cellAt(h.inner), |h.inner|, 0), cellPush))
  }

  /** The rows of a sequence of row matches, in order. */
  function Rows(ms: seq<Found>, cellAt: string -> (nat -> Option<Hit>), cellPush: Hit -> seq<string>): seq<seq<string>>
  {
    if ms == [] then [] else RowOf(cellAt, cellPush, ms[0].hit) + Rows(ms[1..], cellAt, cellPush)
  }

  /** The rows of a table: one per row match that has a cell. */
  function TableRowsOf(tableHtml: string): seq<seq<string>> {
    Rows(Matches(RowRe, tableHtml), CellMatchers, CellText)
  }

  /** `parseTable` */
  function TableOf(tableHtml: string): Option<Element> {
    var rows := TableRowsOf(tableHtml);
    if rows == [] then None else Some(Table(rows))
  }

  // ---------------------------------------------------------------------------
  // Splitting out the tables

  datatype Part = HtmlPart(content: string) | TablePart(content: string)

  /** The parts from `last` on: the text before each table match, when there is any,
      the table itself, and the text after the last table. */
  function PartsFrom(at: nat -> Option<Hit>, s: string, last: nat): seq<Part>
    requires last <= |s|
    decreases |s| - last
  {
    match Exec(at, |s|, last)
    case None => if last < |s| then [HtmlPart(s[last..])] else []
    case Some(f) =>
      (if f.start > last then [HtmlPart(s[last..f.start])] else [])
      + [TablePart(s[f.start..f.hit.end])] + PartsFrom(at, s, f.hit.end)
  }

  /** The table and non-table parts of `s`. */
  function Parts(s: string): seq<Part> {
    PartsFrom(Matcher(TableRe, s), s, 0)
  }

  function PartElements(part: Part): seq<Element> {
    match part
    case TablePart(c) => (match TableOf(c) case Some(t) => [t] case None => [])
    case HtmlPart(c) => ContentElements(c)
  }

  function PartsElements(ps: seq<Part>): seq<Element> {
    if ps == [] then [] else PartsElements(ps[..|ps| - 1]) + PartElements(ps[|ps| - 1])
  }

  /** `parseHtmlToElements` */
  function HtmlElements(html: string): seq<Element> {
    PartsElements(Parts(StripComments(html)))
  }

  // ---------------------------------------------------------------------------
  // The loops

  /** One step of a scan: the match found from `i` contributes first. */
  lemma CollectStep<T>(at: nat -> Option<Hit>, n: nat, i: nat, push: Hit -> seq<T>)
    requires Exec(at, n, i).Some?
    ensures var f := Exec(at, n, i).value;
      CollectHits(Scan(at, n, i), push) == push(f.hit) + CollectHits(Scan(at, n, f.hit.end), push)
  {
    var f := Exec(at, n, i).value;
    assert Scan(at, n, i) == [f] + Scan(at, n, f.hit.end);
    assert ([f] + Scan(at, n, f.hit.end))[1..] == Scan(at, n, f.hit.end);
  }

  /** A `while ((m = re.exec(s)) !== null)` loop appending what each match contributes. */
  method ExecAll<T>(at: nat -> Option<Hit>, n: nat, push: Hit -> seq<T>) returns (acc: seq<T>)
    ensures acc == CollectHits(Scan(at, n, 0), push)
  {
    acc := [];
    var lastIndex := 0;
    var m := Exec(at, n, 0);
    while m.Some?
      invariant lastIndex <= n && m == Exec(at, n, lastIndex)
      invariant acc + CollectHits(Scan(at, n, lastIndex), push) == CollectHits(Scan(at, n, 0), push)
      decreases n - lastIndex
    {
      var f := m.value;
      assert Scan(at, n, lastIndex) == [f] + Scan(at, n, f.hit.end);
      assert ([f] + Scan(at, n, f.hit.end))[1..] == Scan(at, n, f.hit.end);
      acc := acc + push(f.hit);
      lastIndex := f.hit.end;
      m := Exec(at, n, lastIndex);
    }
  }

  /** The row loop of `parseTable`; each row runs the cell loop over its content. */
  method TableRows(at: nat -> Option<Hit>, n: nat, cellAt: string -> (nat -> Option<Hit>), cellPush: Hit -> seq<string>) returns (rows: seq<seq<string>>)
    ensures rows == Rows(Scan(at, n, 0), cellAt, cellPush)
  {
    ghost var total := Rows(Scan(at, n, 0), cellAt, cellPush);
    rows := [];
    var lastIndex := 0;
    var rowMatch := Exec(at, n, 0);
    while rowMatch.Some?
      invariant lastIndex <= n && rowMatch == Exec(at, n, lastIndex)
      invariant rows + Rows(Scan(at, n, lastIndex), cellAt, cellPush) == total
      decreases n - lastIndex
    {
      var f := rowMatch.value;
      ghost var rest := Rows(Scan(at, n, f.hit.end), cellAt, cellPush);
      assert Rows(Scan(at, n, lastIndex), cellAt, cellPush) == RowOf(cellAt, cellPush, f.hit) + rest by {
        RowsStep(at, n, lastIndex, cellAt, cellPush);
      }
      ghost var before := rows;
      rows := AddRow(rows, f.hit, cellAt, cellPush);
      AppendStep(before, RowOf(cellAt, cellPush, f.hit), rest, total);
      lastIndex := f.hit.end;
      rowMatch := Exec(at, n, lastIndex);
    }
  }

  /** One step of the row scan: the row found from `i` comes first. */
  lemma RowsStep(at: nat -> Option<Hit>, n: nat, i: nat, cellAt: string -> (nat -> Option<Hit>), cellPush: Hit -> seq<string>)
    requires Exec(at, n, i).Some?
    ensures var f := Exec(at, n, i).value;
      Rows(Scan(at, n, i), cellAt, cellPush)
      == RowOf(cellAt, cellPush, f.hit) + Rows(Scan(at, n, f.hit.end), cellAt, cellPush)
  {
    var f := Exec(at, n, i).value;
    assert Scan(at, n, i) == [f] + Scan(at, n, f.hit.end);
    assert ([f] + Scan(at, n, f.hit.end))[1..] == Scan(at, n, f.hit.end);
  }

  /** The body of the row loop: run the cell loop, keep the row if it has a cell. */
  method AddRow(rows0: seq<seq<string>>, h: Hit, cellAt: string -> (nat -> Option<Hit>), cellPush: Hit -> seq<string>) returns (rows: seq<seq<string>>)
    ensures rows == rows0 + RowOf(cellAt, cellPush, h)
  {
    rows := rows0;
    var cells := ExecAll(cellAt(h.inner), |h.inner|, cellPush);
    if |cells| > 0 {
      rows := rows + [cells];
    }
  }

  /** `parseTable` */
  method ParseTable(tableHtml: string) returns (r: Option<Element>)
    ensures r == TableOf(tableHtml)
  {
    var rows := TableRows(Matcher(RowRe, tableHtml), |tableHtml|, CellMatchers, CellText);
    if |rows| == 0 {
      return None;
    }
    return Some(Table(rows));
  }

  /** `parseHtmlContent` */
  method ParseHtmlContent(html: string) returns (elements: seq<Element>)
    ensures elements == ContentElements(html)
  {
    elements := ExecAll(Matcher(BlockRe, html), |html|, BlockElements);
  }

  /** The table loop of `parseHtmlToElements`: the parts around each table match. */
  method SplitTables(at: nat -> Option<Hit>, html: string) returns (htmlParts: seq<Part>)
    ensures htmlParts == PartsFrom(at, html, 0)
  {
    ghost var total := PartsFrom(at, html, 0);
    var lastTableEnd := 0;
    htmlParts := [];
    var tableMatch := Exec(at, |html|, 0);
    while tableMatch.Some?
      invariant lastTableEnd <= |html| && tableMatch == Exec(at, |html|, lastTableEnd)
      invariant htmlParts + PartsFrom(at, html, lastTableEnd) == total
      decreases |html| - lastTableEnd
    {
      var f := tableMatch.value;
      ghost var step := (if f.start > lastTableEnd then [HtmlPart(html[lastTableEnd..f.start])] else [])
                        + [TablePart(html[f.start..f.hit.end])];
      ghost var rest := PartsFrom(at, html, f.hit.end);
      assert PartsFrom(at, html, lastTableEnd) == step + rest by {
        PartsStep(at, html, lastTableEnd);
      }
      ghost var before := htmlParts;
      if f.start > lastTableEnd {
        htmlParts := htmlParts + [HtmlPart(html[lastTableEnd..f.start])];
      }
      htmlParts := htmlParts + [TablePart(html[f.start..f.hit.end])];
      assert htmlParts == before + step;
      AppendStep(before, step, rest, total);
      lastTableEnd := f.hit.end;
      tableMatch := Exec(at, |html|, lastTableEnd);
    }
    if lastTableEnd < |html| {
      htmlParts := htmlParts + [HtmlPart(html[lastTableEnd..])];
    }
  }

  /** One step of the table scan: the gap before the table found from `last`, then
      the table, come first. */
  lemma PartsStep(at: nat -> Option<Hit>, s: string, last: nat)
    requires last <= |s| && Exec(at, |s|, last).Some?
    ensures var f := Exec(at, |s|, last).value;
      PartsFrom(at, s, last)
      == (if f.start > last then [HtmlPart(s[last..f.start])] else [])
         + [TablePart(s[f.start..f.hit.end])] + PartsFrom(at, s, f.hit.end)
  {
  }

  /** Moving one step's output from the rest of a scan to what was collected. */
  lemma AppendStep<T>(acc: seq<T>, step: seq<T>, rest: seq<T>, total: seq<T>)
    requires acc + (step + rest) == total
    ensures (acc + step) + rest == total
  {
  }

  /** `parseHtmlToElements` */
  method ParseHtmlToElements(input: string) returns (elements: seq<Element>)
    ensures elements == HtmlElements(input)
  {
    var html := StripComments(input);
    var htmlParts := SplitTables(Matcher(TableRe, html), html);
    elements := PartsToElements(htmlParts);
  }

  /** The loop of `parseHtmlToElements` over the parts: a table part becomes its
      table, if it has a row, and any other part the elements of its blocks. */
  method PartsToElements(htmlParts: seq<Part>) returns (elements: seq<Element>)
    ensures elements == PartsElements(htmlParts)
  {
    elements := [];
    for k := 0 to |htmlParts|
      invariant elements == PartsElements(htmlParts[..k])
    {
      var more: seq<Element>;
      match htmlParts[k] {
        case TablePart(c) =>
          var tableElement := ParseTable(c);
          more := if tableElement.Some? then [tableElement.value] else [];
        case HtmlPart(c) =>
          more := ParseHtmlContent(c);
      }
      assert htmlParts[..k + 1][..k] == htmlParts[..k];
      elements := elements + more;
    }
    assert htmlParts[..|htmlParts|] == htmlParts;
  }
}
