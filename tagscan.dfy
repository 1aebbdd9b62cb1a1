/**
 * The bracket tags the model writes into its replies, and the scanners that stand
 * for the regular expressions the bot runs over the text.
 *
 * Each `...At(s, i)` function answers what the corresponding regular expression
 * matches when the engine tries it at position `i`: the captured groups and the end
 * of the match, or `None`. `Matches` is `String.prototype.matchAll` (and the `exec`
 * loop on a global expression): it scans left to right and resumes after each match.
 * `Strip` is `s.replace(re, '')` with a global expression. Literal parts of the tags
 * are compared case-insensitively because every expression carries the `i` flag.
 */
module TagScan {
  import opened Text

  datatype Kind =
    | ReactionKind    // \[reaction:(\d+:)?([^\]]+)\]
    | StickerKind     // \[sticker:(\w+)\]
    | UndoKind        // \[undo:(all|(-?\d+)(?::(-?\d+))?)\]
    | QuoteKind       // \[quote:(-?\d+)\]([\s\S]*?)\[\/quote\]
    | MsgKind         // \[msg\]([\s\S]*?)\[\/msg\]
    | CardKind        // \[card(?::(\d+))?\]
    | ImageKind       // \[image:(https?:\/\/[^\]]+)\]([\s\S]*?)\[\/image\]
    | ToolKind        // \[tool:\w+(?:\s+[^\]]*?)?\](?:\s*\{[\s\S]*?\}\s*\[\/tool\])?
    | QuoteTailKind   // \[quote:(-?\d+)\]([\s\S]*?)\[\/quote\]\s*([^[]*?)(?=\[|$)
    | UndoSingleKind  // \[undo:(-?\d+)\]

  /** The groups a match captures. */
  datatype Tag =
    | Reaction(target: Option<string>, raw: string)
    | Sticker(keyword: string)
    | Undo(body: string, first: Option<string>, second: Option<string>)
    | Quote(index: string, inner: string)
    | Msg(inner: string)
    | Card(userId: Option<string>)
    | Image(url: string, caption: string)
    | Tool
    | QuoteTail(index: string, inner: string, after: string)
    | UndoSingle(index: string)

  /** A match at a known start: its groups and where it ends. */
  datatype Hit = Hit(tag: Tag, end: nat)

  /** A match found by a scan: where it starts, where it ends, and its groups. */
  datatype Found = Found(start: nat, end: nat, tag: Tag)

  predicate NoChar(s: string, lo: nat, hi: nat, c: char)
    requires lo <= hi <= |s|
  {
    forall p | lo <= p < hi :: s[p] != c
  }

  predicate NoLiteral(s: string, lo: nat, hi: nat, lit: string) {
    forall p | lo <= p < hi :: !HasAt(s, p, lit)
  }

  predicate AllDigits(t: string) {
    forall k | 0 <= k < |t| :: IsDigit(t[k])
  }

  /** `[reaction:` then either `digits:` and a non-empty name, or a non-empty name
      alone, up to the first `]`. */
  function ReactionAt(s: string, i: nat): (r: Option<Hit>)
    ensures r.Some? ==> HasAt(s, i, "[reaction:") && i + 10 < r.value.end <= |s|
    ensures r.Some? ==> s[r.value.end - 1] == CloseBracket && NoChar(s, i + 10, r.value.end - 1, CloseBracket)
    ensures r.Some? ==> r.value.tag.Reaction? && |r.value.tag.raw| > 0
    ensures r.Some? ==> var t := r.value.tag;
      s[i + 10..r.value.end - 1] == (if t.target.Some? then t.target.value + ":" else "") + t.raw
    ensures r.Some? && r.value.tag.target.Some? ==>
      |r.value.tag.target.value| > 0 && AllDigits(r.value.tag.target.value)
    ensures HasAt(s, i, "[reaction:") && r.None? ==>
      (i + 10 < |s| && s[i + 10] == CloseBracket) || NoChar(s, i + 10, |s|, CloseBracket)
  {
    if !HasAt(s, i, "[reaction:") then None
    else
      var b := i + 10;
      match FindChar(s, b, CloseBracket)
      case None => None
      case Some(c) =>
        if c == b then None
        else
          var d := DigitRunEnd(s, b);
          if b < d && d + 1 < c && s[d] == ':' then
            assert s[b..c] == s[b..d] + ":" + s[d + 1..c];
            Some(Hit(Reaction(Some(s[b..d]), s[d + 1..c]), c + 1))
          else Some(Hit(Reaction(None, s[b..c]), c + 1))
  }

  /** `[sticker:` then a non-empty run of word characters and `]`. */
  function StickerAt(s: string, i: nat): (r: Option<Hit>)
    ensures r.Some? ==> HasAt(s, i, "[sticker:") && i + 9 < r.value.end <= |s|
    ensures r.Some? ==> s[r.value.end - 1] == CloseBracket && r.value.tag == Sticker(s[i + 9..r.value.end - 1])
    ensures r.Some? ==> forall k | i + 9 <= k < r.value.end - 1 :: IsWordChar(s[k])
  {
    if !HasAt(s, i, "[sticker:") then None
    else
      var w := WordRunEnd(s, i + 9);
      if i + 9 < w < |s| && s[w] == CloseBracket then Some(Hit(Sticker(s[i + 9..w]), w + 1)) else None
  }

  /** `[undo:` then `all` (in any case), a signed index, or two signed indexes
      separated by `:`, then `]`. */
  function UndoAt(s: string, i: nat): (r: Option<Hit>)
    ensures r.Some? ==> HasAt(s, i, "[undo:") && i + 6 < r.value.end <= |s| && s[r.value.end - 1] == CloseBracket
    ensures r.Some? ==> r.value.tag.Undo? && r.value.tag.body == s[i + 6..r.value.end - 1]
    ensures r.Some? ==> var t := r.value.tag;
      if t.first.None? then t.second.None? && HasAt(t.body, 0, "all") && |t.body| == 3
      else (IsIntText(t.first.value)
            && if t.second.None? then t.body == t.first.value
               else IsIntText(t.second.value) && t.body == t.first.value + ":" + t.second.value)
  {
    if !HasAt(s, i, "[undo:") then None
    else
      var b := i + 6;
      if HasAt(s, b, "all") && b + 3 < |s| && s[b + 3] == CloseBracket then
        Some(Hit(Undo(s[b..b + 3], None, None), b + 4))
      else
        match SignedIntEnd(s, b)
        case None => None
        case Some(e) =>
          if e < |s| && s[e] == ':' then UndoPairAt(s, b, e)
          else if e < |s| && s[e] == CloseBracket then
            Some(Hit(Undo(s[b..e], Some(s[b..e]), None), e + 1))
          else None
  }

  /** The `N:M]` reading of `[undo:`, with the first index ending at `e`. */
  function UndoPairAt(s: string, b: nat, e: nat): (r: Option<Hit>)
    requires b < e < |s| && s[e] == ':' && IsIntText(s[b..e])
    ensures r.Some? ==> e + 1 < r.value.end <= |s| && s[r.value.end - 1] == CloseBracket
    ensures r.Some? ==> r.value.tag == Undo(s[b..r.value.end - 1], Some(s[b..e]), Some(s[e + 1..r.value.end - 1]))
    ensures r.Some? ==> IsIntText(s[e + 1..r.value.end - 1])
    ensures r.Some? ==> s[b..r.value.end - 1] == s[b..e] + ":" + s[e + 1..r.value.end - 1]
  {
    match SignedIntEnd(s, e + 1)
    case None => None
    case Some(f) =>
      if f < |s| && s[f] == CloseBracket then
        assert s[b..f] == s[b..e] + ":" + s[e + 1..f];
        Some(Hit(Undo(s[b..f], Some(s[b..e]), Some(s[e + 1..f])), f + 1))
      else None
  }

  /** `[undo:` then one signed index and `]`. */
  function UndoSingleAt(s: string, i: nat): (r: Option<Hit>)
    ensures r.Some? ==> HasAt(s, i, "[undo:") && i + 6 < r.value.end <= |s| && s[r.value.end - 1] == CloseBracket
    ensures r.Some? ==> (r.value.tag == UndoSingle(s[i + 6..r.value.end - 1])
                         && IsIntText(r.value.tag.index))
  {
    if !HasAt(s, i, "[undo:") then None
    else
      match SignedIntEnd(s, i + 6)
      case None => None
      case Some(e) => if e < |s| && s[e] == CloseBracket then Some(Hit(UndoSingle(s[i + 6..e]), e + 1)) else None
  }

  /** The `[quote:N]` opening: the end of its index, when there is one. */
  function QuoteHeadAt(s: string, i: nat): (r: Option<nat>)
    ensures r.Some? ==> HasAt(s, i, "[quote:") && i + 7 < r.value < |s| && s[r.value] == CloseBracket
    ensures r.Some? ==> IsIntText(s[i + 7..r.value])
  {
    if !HasAt(s, i, "[quote:") then None
    else
      match SignedIntEnd(s, i + 7)
      case None => None
      case Some(e) => if e < |s| && s[e] == CloseBracket then Some(e) else None
  }

  /** `h` is `[quote:N]` at `i`, then the text up to the first `[/quote]` after it,
      then that `[/quote]`. */
  predicate QuoteShaped(s: string, i: nat, h: Hit) {
    QuoteHeadAt(s, i).Some? && QuoteHeadAt(s, i).value + 1 + 8 <= h.end <= |s|
    && var e := QuoteHeadAt(s, i).value;
      HasAt(s, h.end - 8, "[/quote]")
      && h.tag == Quote(s[i + 7..e], s[e + 1..h.end - 8])
      && NoLiteral(s, e + 1, h.end - 8, "[/quote]")
  }

  /** `[quote:N]`, the shortest text, then `[/quote]`. */
  function QuoteAt(s: string, i: nat): (r: Option<Hit>)
    ensures r.Some? ==> QuoteShaped(s, i, r.value)
  {
    match QuoteHeadAt(s, i)
    case None => None
    case Some(e) =>
      match Find(s, e + 1, "[/quote]")
      case None => None
      case Some(c) => Some(Hit(Quote(s[i + 7..e], s[e + 1..c]), c + 8))
  }

  /** A quote match at `i` extended by the white space after it and the text `after`
      that runs to the next `[` or the end of the input. */
  predicate QuoteTailShaped(s: string, i: nat, h: Hit) {
    QuoteAt(s, i).Some? && QuoteAt(s, i).value.end <= h.end <= |s|
    && var q := QuoteAt(s, i).value;
      h.tag.QuoteTail? && h.tag == QuoteTail(q.tag.index, q.tag.inner, h.tag.after)
      && (h.end == |s| || s[h.end] == OpenBracket)
      && NoChar(s, q.end, h.end, OpenBracket)
      && q.end + |h.tag.after| <= h.end
      && s[q.end..h.end] == s[q.end..h.end - |h.tag.after|] + h.tag.after
      && forall k | q.end <= k < h.end - |h.tag.after| :: IsSpace(s[k])
  }

  /** `[quote:N]...[/quote]` followed by white space and the text up to the next `[`
      or the end of the input, as the batch parser reads a quote. */
  function QuoteTailAt(s: string, i: nat): (r: Option<Hit>)
    ensures r.Some? ==> QuoteTailShaped(s, i, r.value)
  {
    match QuoteAt(s, i)
    case None => None
    case Some(q) =>
      var j := SpaceRunEnd(s, q.end);
      var k := match FindChar(s, j, OpenBracket) case Some(p) => p case None => |s|;
      QuoteTailHit(s, i, q, j, k);
      Some(Hit(QuoteTail(q.tag.index, q.tag.inner, s[j..k]), k))
  }

  lemma QuoteTailHit(s: string, i: nat, q: Hit, j: nat, k: nat)
    requires QuoteAt(s, i) == Some(q)
    requires q.end <= j <= k <= |s|
    requires forall p | q.end <= p < j :: IsSpace(s[p])
    requires forall p | j <= p < k :: s[p] != OpenBracket
    requires k == |s| || s[k] == OpenBracket
    ensures QuoteTailShaped(s, i, Hit(QuoteTail(q.tag.index, q.tag.inner, s[j..k]), k))
  {
    assert NoChar(s, q.end, j, OpenBracket);
    assert s[q.end..k] == s[q.end..j] + s[j..k];
  }

  /** `h` is `[msg]` at `i`, then the text up to the first `[/msg]` after it, then
      that `[/msg]`. */
  predicate MsgShaped(s: string, i: nat, h: Hit) {
    HasAt(s, i, "[msg]") && i + 5 + 6 <= h.end <= |s|
    && HasAt(s, h.end - 6, "[/msg]") && h.tag == Msg(s[i + 5..h.end - 6])
    && NoLiteral(s, i + 5, h.end - 6, "[/msg]")
  }

  /** `[msg]`, the shortest text, then `[/msg]`. */
  function MsgAt(s: string, i: nat): (r: Option<Hit>)
    ensures r.Some? ==> MsgShaped(s, i, r.value)
  {
    if !HasAt(s, i, "[msg]") then None
    else
      match Find(s, i + 5, "[/msg]")
      case None => None
      case Some(c) => Some(Hit(Msg(s[i + 5..c]), c + 6))
  }

  /** `h` is `[card]` at `i`, or `[card:`, one or more digits (its user id) and `]`. */
  predicate CardShaped(s: string, i: nat, h: Hit) {
    HasAt(s, i, "[card") && i + 5 < h.end <= |s| && s[h.end - 1] == CloseBracket && h.tag.Card?
    && (h.tag.userId.None? ==> h.end == i + 6)
    && (h.tag.userId.Some? ==>
          s[i + 5] == ':' && i + 6 < h.end - 1 && h.tag.userId.value == s[i + 6..h.end - 1]
          && AllDigits(h.tag.userId.value))
  }

  /** `[card]` or `[card:` digits `]`. */
  function CardAt(s: string, i: nat): (r: Option<Hit>)
    ensures r.Some? ==> CardShaped(s, i, r.value)
  {
    if !HasAt(s, i, "[card") || i + 5 >= |s| then None
    else if s[i + 5] == CloseBracket then Some(Hit(Card(None), i + 6))
    else if s[i + 5] == ':' then
      var d := DigitRunEnd(s, i + 6);
      if i + 6 < d < |s| && s[d] == CloseBracket then Some(Hit(Card(Some(s[i + 6..d])), d + 1)) else None
    else None
  }

  /** The scheme separator, a colon and two slashes, and the two URL schemes. */
  const SchemeSep: string := [':', '/', '/']
  const HttpScheme: string := "http" + SchemeSep
  const HttpsScheme: string := "https" + SchemeSep

  /** An image match at `i`: `[image:`, a URL with one of the two schemes and no `]`,
      `]`, then a caption with no `[/image]` in it, and `[/image]`. */
  predicate ImageShaped(s: string, i: nat, h: Hit) {
    HasAt(s, i, "[image:") && h.end <= |s| && h.tag.Image?
    && var url := h.tag.url; var c := i + 7 + |url|;
      c + 1 + 8 <= h.end && url == s[i + 7..c] && s[c] == CloseBracket && NoChar(s, i + 7, c, CloseBracket)
      && (HasAt(url, 0, HttpScheme) || HasAt(url, 0, HttpsScheme))
      && HasAt(s, h.end - 8, "[/image]") && h.tag.caption == s[c + 1..h.end - 8]
      && NoLiteral(s, c + 1, h.end - 8, "[/image]")
  }

  /** `[image:`, a URL starting with `HttpScheme` or `HttpsScheme` (any case) running
      to the first `]`, then the shortest caption and `[/image]`. */
  function ImageAt(s: string, i: nat): (r: Option<Hit>)
    ensures r.Some? ==> ImageShaped(s, i, r.value)
  {
    if !HasAt(s, i, "[image:") || !HasAt(s, i + 7, "http") then None
    else
      var p := i + 11;
      var q := if p < |s| && Lower(s[p]) == 's' then p + 1 else p;
      if !HasAt(s, q, SchemeSep) then None
      else
        match FindChar(s, q + 3, CloseBracket)
        case None => None
        case Some(c) =>
          if c == q + 3 then None
          else
            match Find(s, c + 1, "[/image]")
            case None => None
            case Some(d) =>
              ImageHit(s, i, q, c, d);
              Some(Hit(Image(s[i + 7..c], s[c + 1..d]), d + 8))
  }

  lemma ImageHit(s: string, i: nat, q: nat, c: nat, d: nat)
    requires HasAt(s, i, "[image:") && HasAt(s, i + 7, "http")
    requires q == i + 11 || (q == i + 12 && i + 11 < |s| && Lower(s[i + 11]) == 's')
    requires HasAt(s, q, SchemeSep) && q + 3 < c < |s| && s[c] == CloseBracket
    requires forall x | q + 3 <= x < c :: s[x] != CloseBracket
    requires c + 1 <= d && HasAt(s, d, "[/image]")
    requires forall x | c + 1 <= x < d :: !HasAt(s, x, "[/image]")
    ensures ImageShaped(s, i, Hit(Image(s[i + 7..c], s[c + 1..d]), d + 8))
  {
    UrlScheme(s, i, q, c);
    UrlNoBracket(s, i, q, c);
    assert |s[i + 7..c]| == c - (i + 7);
  }

  /** The text after `[image:` that `http`, an optional `s` and `SchemeSep` begin is a
      URL with one of the two schemes. */
  lemma UrlScheme(s: string, i: nat, q: nat, c: nat)
    requires HasAt(s, i + 7, "http") && (q == i + 11 || (q == i + 12 && i + 11 < |s| && Lower(s[i + 11]) == 's'))
    requires HasAt(s, q, SchemeSep) && q + 3 <= c <= |s|
    ensures HasAt(s[i + 7..c], 0, HttpScheme) || HasAt(s[i + 7..c], 0, HttpsScheme)
  {
    var url := s[i + 7..c];
    if q == i + 11 {
      forall k | 0 <= k < 7 ensures Lower(url[k]) == HttpScheme[k] {
        if k < 4 {
          assert url[k] == s[i + 7 + k] && HttpScheme[k] == "http"[k];
        } else {
          assert url[k] == s[q + (k - 4)] && HttpScheme[k] == SchemeSep[k - 4];
        }
      }
    } else {
      forall k | 0 <= k < 8 ensures Lower(url[k]) == HttpsScheme[k] {
        if k < 4 {
          assert url[k] == s[i + 7 + k] && HttpsScheme[k] == "http"[k];
        } else if k == 4 {
          assert url[k] == s[i + 11];
        } else {
          assert url[k] == s[q + (k - 5)] && HttpsScheme[k] == SchemeSep[k - 5];
        }
      }
    }
  }

  /** The scheme has no `]`, so a URL running to the first `]` after `SchemeSep` has
      none. */
  lemma UrlNoBracket(s: string, i: nat, q: nat, c: nat)
    requires HasAt(s, i + 7, "http") && (q == i + 11 || (q == i + 12 && i + 11 < |s| && Lower(s[i + 11]) == 's'))
    requires HasAt(s, q, SchemeSep) && q + 3 <= c <= |s|
    requires forall x | q + 3 <= x < c :: s[x] != CloseBracket
    ensures NoChar(s, i + 7, c, CloseBracket)
  {
    NoBracketAt(s, i + 7, "http");
    NoBracketAt(s, q, SchemeSep);
    forall x | i + 7 <= x < c ensures s[x] != CloseBracket {
      if x == i + 11 && q == i + 12 {
        assert Lower(s[x]) == 's';
      }
    }
  }

  /** Where a literal without `]` occurs (in any case), the text has no `]`. */
  lemma NoBracketAt(s: string, lo: nat, lit: string)
    requires HasAt(s, lo, lit) && forall k | 0 <= k < |lit| :: lit[k] != CloseBracket
    ensures forall x | lo <= x < lo + |lit| :: s[x] != CloseBracket
  {
    forall x | lo <= x < lo + |lit| ensures s[x] != CloseBracket {
      assert Lower(s[lo + (x - lo)]) == lit[x - lo];
    }
  }

  /** The curly braces around a tool call's argument block. */
  const OpenBrace: char := 123 as char
  const CloseBrace: char := 125 as char

  /** The first closing curly brace at or after `q` that is followed by optional white
      space and `[/tool]`: the end of a tool call's argument block. */
  function ToolTailEnd(s: string, q: nat): (r: Option<nat>)
    decreases |s| - q
    ensures r.Some? ==> q < r.value <= |s| && 7 <= r.value && HasAt(s, r.value - 7, "[/tool]")
    ensures r.Some? ==> s[r.value - 1] == CloseBracket
  {
    if q >= |s| then None
    else if s[q] == CloseBrace && HasAt(s, SpaceRunEnd(s, q + 1), "[/tool]") then
      var e := SpaceRunEnd(s, q + 1) + 7;
      ToolCloseLast(s, e - 7);
      Some(e)
    else ToolTailEnd(s, q + 1)
  }

  /** The last character of a `[/tool]` found at `p` is the closing bracket itself. */
  lemma ToolCloseLast(s: string, p: nat)
    requires HasAt(s, p, "[/tool]")
    ensures s[p + 6] == CloseBracket
  {
    assert Lower(s[p + 6]) == "[/tool]"[6];
  }

  /** `[tool:name]` or `[tool:name args]`, optionally followed by `{...}` and
      `[/tool]`. */
  function ToolAt(s: string, i: nat): (r: Option<Hit>)
    ensures r.Some? ==> HasAt(s, i, "[tool:") && i + 6 < r.value.end <= |s| && s[r.value.end - 1] == CloseBracket
    ensures r.Some? ==> r.value.tag == Tool
  {
    if !HasAt(s, i, "[tool:") then None
    else
      var w := WordRunEnd(s, i + 6);
      if w == i + 6 || w >= |s| || !(s[w] == CloseBracket || IsSpace(s[w])) then None
      else
        match FindChar(s, w, CloseBracket)
        case None => None
        case Some(c) =>
          var h := c + 1;
          var j := SpaceRunEnd(s, h);
          if j < |s| && s[j] == OpenBrace && ToolTailEnd(s, j + 1).Some? then
            Some(Hit(Tool, ToolTailEnd(s, j + 1).value))
          else Some(Hit(Tool, h))
  }

  /** The kind of expression that captures a tag. */
  function KindOf(t: Tag): Kind {
    match t
    case Reaction(_, _) => ReactionKind
    case Sticker(_) => StickerKind
    case Undo(_, _, _) => UndoKind
    case Quote(_, _) => QuoteKind
    case Msg(_) => MsgKind
    case Card(_) => CardKind
    case Image(_, _) => ImageKind
    case Tool => ToolKind
    case QuoteTail(_, _, _) => QuoteTailKind
    case UndoSingle(_) => UndoSingleKind
  }

  /** The kinds whose tag is a single bracket, `[name:...]` or `[card...]`. */
  predicate SingleBracket(k: Kind) {
    k in {ReactionKind, StickerKind, UndoKind, UndoSingleKind, CardKind, ToolKind}
  }

  /** What the expression of kind `k` matches when tried at position `i`. */
  function MatchAt(k: Kind, s: string, i: nat): (r: Option<Hit>)
    ensures r.Some? ==> i < r.value.end <= |s|
    ensures r.Some? ==> KindOf(r.value.tag) == k
  {
    if SingleBracket(k) then SingleBracketAt(k, s, i)
    else if k == QuoteKind || k == QuoteTailKind then QuoteFamilyAt(k, s, i)
    else EnclosedAt(k, s, i)
  }

  /** The matchers of the single-bracket kinds. */
  function SingleBracketAt(k: Kind, s: string, i: nat): (r: Option<Hit>)
    requires SingleBracket(k)
    ensures r.Some? ==> i < r.value.end <= |s|
    ensures r.Some? ==> KindOf(r.value.tag) == k
  {
    match k
    case ReactionKind => ReactionAt(s, i)
    case StickerKind => StickerAt(s, i)
    case UndoKind => UndoAt(s, i)
    case UndoSingleKind => UndoSingleAt(s, i)
    case CardKind => CardAt(s, i)
    case ToolKind => ToolAt(s, i)
  }

  /** The two readings of `[quote:N]...[/quote]`. */
  function QuoteFamilyAt(k: Kind, s: string, i: nat): (r: Option<Hit>)
    requires k == QuoteKind || k == QuoteTailKind
    ensures r.Some? ==> i < r.value.end <= |s|
    ensures r.Some? ==> KindOf(r.value.tag) == k
  {
    if k == QuoteKind then QuoteAt(s, i) else QuoteTailAt(s, i)
  }

  /** `[msg]...[/msg]` and `[image:url]...[/image]`. */
  function EnclosedAt(k: Kind, s: string, i: nat): (r: Option<Hit>)
    requires k == MsgKind || k == ImageKind
    ensures r.Some? ==> i < r.value.end <= |s|
    ensures r.Some? ==> KindOf(r.value.tag) == k
  {
    if k == MsgKind then MsgAt(s, i) else ImageAt(s, i)
  }

  /** What an expression matches when tried at each position of a text. */
  type HitAt = nat -> Option<Hit>

  /** A matcher for a text of length `n`: what an expression matches when tried at each
      position. Every match is non-empty and stays inside the text. */
  ghost predicate Advances(at: HitAt, n: nat) {
    forall i: nat :: at(i).Some? ==> i < at(i).value.end <= n
  }

  /** The matcher of kind `k` over `s`. */
  function Matcher(k: Kind, s: string): (at: HitAt)
    ensures Advances(at, |s|)
  {
    (i: nat) => MatchAt(k, s, i)
  }

  /** Every scan result is a real match, and the results are in order and do not overlap. */
  predicate WellScanned(at: HitAt, n: nat, from: nat, ms: seq<Found>) {
    (forall j | 0 <= j < |ms| :: from <= ms[j].start < ms[j].end <= n)
    && (forall j | 0 <= j < |ms| :: at(ms[j].start) == Some(Hit(ms[j].tag, ms[j].end)))
    && (forall j, k | 0 <= j < k < |ms| :: ms[j].end <= ms[k].start)
  }

  /** A global scan (`matchAll`, or an `exec` loop) from position `from`: try each
      position in turn, and after a match resume at its end. */
  function Scan(at: HitAt, n: nat, from: nat): (r: seq<Found>)
    requires Advances(at, n)
    decreases n - from
    ensures WellScanned(at, n, from, r)
  {
    if from >= n then []
    else
      match at(from)
      case Some(h) => [Found(from, h.end, h.tag)] + Scan(at, n, h.end)
      case None => Scan(at, n, from + 1)
  }

  /** Position `p` lies strictly inside one of the spans in `ms` (after its first character). */
  predicate Inside(ms: seq<Found>, p: nat) {
    exists j | 0 <= j < |ms| :: ms[j].start < p < ms[j].end
  }

  /** The scan misses nothing: every position where the expression matches, and that
      an earlier match has not swallowed, starts one of the reported matches. */
  lemma {:induction false} ScanComplete(at: HitAt, n: nat, from: nat, p: nat)
    requires Advances(at, n)
    requires from <= p < n && at(p).Some? && !Inside(Scan(at, n, from), p)
    ensures exists j | 0 <= j < |Scan(at, n, from)| :: Scan(at, n, from)[j].start == p
    decreases n - from
  {
    var r := Scan(at, n, from);
    match at(from)
    case Some(h) =>
      if p == from {
        assert r[0].start == p;
      } else {
        var rest := Scan(at, n, h.end);
        assert r == [Found(from, h.end, h.tag)] + rest;
        assert !(r[0].start < p < r[0].end);
        forall j | 0 <= j < |rest| ensures !(rest[j].start < p < rest[j].end) {
          assert r[j + 1] == rest[j];
        }
        ScanComplete(at, n, h.end, p);
        var j :| 0 <= j < |rest| && rest[j].start == p;
        assert r[j + 1].start == p;
      }
    case None =>
      ScanComplete(at, n, from + 1, p);
  }

  /** A global `replace` with the empty string, from position `from`: every match
      is removed and every other character kept. */
  function RemoveFrom(at: HitAt, s: string, from: nat): string
    requires Advances(at, |s|)
    decreases |s| - from
  {
    if from >= |s| then []
    else
      match at(from)
      case Some(h) => RemoveFrom(at, s, h.end)
      case None => [s[from]] + RemoveFrom(at, s, from + 1)
  }

  /** The text between consecutive spans, from `from` to the end of `s`. */
  function Gaps(s: string, from: nat, ms: seq<Found>): string
    requires from <= |s|
    requires forall j | 0 <= j < |ms| :: from <= ms[j].start <= ms[j].end <= |s|
    requires forall j, k | 0 <= j < k < |ms| :: ms[j].end <= ms[k].start
    decreases |ms|
  {
    if ms == [] then s[from..]
    else s[from..ms[0].start] + Gaps(s, ms[0].end, ms[1..])
  }

  /** Replacing with the empty string removes exactly the spans the scan reports and
      keeps every character between them, in order. */
  lemma {:induction false} RemoveIsGaps(at: HitAt, s: string, from: nat)
    requires Advances(at, |s|) && from <= |s|
    ensures RemoveFrom(at, s, from) == Gaps(s, from, Scan(at, |s|, from))
    decreases |s| - from
  {
    if from < |s| {
      match at(from)
      case Some(h) =>
        RemoveIsGaps(at, s, h.end);
        var rest := Scan(at, |s|, h.end);
        assert Scan(at, |s|, from) == [Found(from, h.end, h.tag)] + rest;
        GapsSkip(s, Found(from, h.end, h.tag), rest);
      case None =>
        RemoveIsGaps(at, s, from + 1);
        var ms := Scan(at, |s|, from + 1);
        assert Scan(at, |s|, from) == ms;
        assert RemoveFrom(at, s, from) == [s[from]] + RemoveFrom(at, s, from + 1);
        GapsStep(s, from, ms);
    }
  }

  /** A span at the very start contributes no text. */
  lemma GapsSkip(s: string, f: Found, rest: seq<Found>)
    requires f.start <= f.end <= |s|
    requires forall j | 0 <= j < |rest| :: f.end <= rest[j].start <= rest[j].end <= |s|
    requires forall j, k | 0 <= j < k < |rest| :: rest[j].end <= rest[k].start
    ensures Gaps(s, f.start, [f] + rest) == Gaps(s, f.end, rest)
  {
    var ms := [f] + rest;
    assert ms[0] == f && ms[1..] == rest;
    assert s[f.start..f.start] == [];
  }

  /** A character ahead of every span starts the text between them. */
  lemma GapsStep(s: string, from: nat, ms: seq<Found>)
    requires from < |s|
    requires forall j | 0 <= j < |ms| :: from + 1 <= ms[j].start <= ms[j].end <= |s|
    requires forall j, k | 0 <= j < k < |ms| :: ms[j].end <= ms[k].start
    ensures Gaps(s, from, ms) == [s[from]] + Gaps(s, from + 1, ms)
  {
    if ms == [] {
      assert s[from..] == [s[from]] + s[from + 1..];
    } else {
      var g := Gaps(s, ms[0].end, ms[1..]);
      assert Gaps(s, from, ms) == s[from..ms[0].start] + g;
      assert Gaps(s, from + 1, ms) == s[from + 1..ms[0].start] + g;
      assert s[from..ms[0].start] == [s[from]] + s[from + 1..ms[0].start];
      ConcatAssoc([s[from]], s[from + 1..ms[0].start], g);
    }
  }

  lemma ConcatAssoc<T>(a: seq<T>, b: seq<T>, c: seq<T>)
    ensures (a + b) + c == a + (b + c)
  {
  }

  /** Removing spans never lengthens the text. */
  lemma {:induction false} RemoveShorter(at: HitAt, s: string, from: nat)
    requires Advances(at, |s|) && from <= |s|
    ensures |RemoveFrom(at, s, from)| <= |s| - from
    decreases |s| - from
  {
    if from < |s| {
      match at(from)
      case Some(h) => RemoveShorter(at, s, h.end);
      case None => RemoveShorter(at, s, from + 1);
    }
  }

  /** `s.matchAll(re)` for the expression of kind `k`. */
  function Matches(k: Kind, s: string): (r: seq<Found>)
    ensures forall j | 0 <= j < |r| :: r[j].end <= |s| && MatchAt(k, s, r[j].start) == Some(Hit(r[j].tag, r[j].end))
    ensures forall j | 0 <= j < |r| :: KindOf(r[j].tag) == k
  {
    var at := Matcher(k, s);
    var r := Scan(at, |s|, 0);
    assert forall j | 0 <= j < |r| :: at(r[j].start) == MatchAt(k, s, r[j].start);
    r
  }

  /** `s.replace(re, '')` for the expression of kind `k`. */
  function Strip(k: Kind, s: string): string {
    RemoveFrom(Matcher(k, s), s, 0)
  }

  /** Text in which the expression finds nothing is left as it is. */
  lemma StripNoMatch(k: Kind, s: string)
    requires Matches(k, s) == []
    ensures Strip(k, s) == s
  {
    RemoveIsGaps(Matcher(k, s), s, 0);
  }
}
