/**
 * Properties of the HTML-to-element parser: what entity decoding does and does not
 * change, that stripping tags leaves no tag behind (and that decoding can bring one
 * back), how the table split covers its input, and what each block becomes.
 */
module HtmlFacts {
  import opened Text
  import opened HtmlParse

  // ---------------------------------------------------------------------------
  // Entity decoding

  /** `&amp;` is decoded before `&lt;`, so a doubly escaped `<` comes out as `<`. */
  lemma DecodeAmpLt()
    ensures DecodeHtmlEntities("&amp;lt;") == "<"
  {
    var t1 := ReplaceAll("&amp;lt;", "&nbsp;", " ");
    ReplaceAllAbsent("&amp;lt;", "&nbsp;", " ");
    assert t1 == "&amp;lt;";
    var t2 := ReplaceAll(t1, "&amp;", "&");
    assert t2 == "&lt;";
    var t3 := ReplaceAll(t2, "&lt;", "<");
    assert t3 == "<";
    NoAmpUnchanged("<");
  }

  /** Every step of the decoding needs an `&`: text without one is left as it is. */
  lemma NoAmpUnchanged(t: string)
    requires forall k | 0 <= k < |t| :: t[k] != '&'
    ensures DecodeHtmlEntities(t) == t
  {
    NoAmpReplace(t, "&nbsp;", " ");
    NoAmpReplace(t, "&amp;", "&");
    NoAmpReplace(t, "&lt;", "<");
    NoAmpReplace(t, "&gt;", ">");
    NoAmpReplace(t, "&quot;", "\"");
    NoAmpReplace(t, "&#39;", "'");
    NoAmpReplace(t, "&apos;", "'");
    NoAmpDecimal(t);
    NoAmpHex(t);
  }

  lemma NoAmpNoLiteral(t: string, lit: string)
    requires lit != [] && lit[0] == '&'
    requires forall k | 0 <= k < |t| :: t[k] != '&'
    ensures forall p | 0 <= p <= |t| - |lit| :: !HasExactAt(t, p, lit)
  {
    forall p | 0 <= p <= |t| - |lit|
      ensures !HasExactAt(t, p, lit)
    {
      if p + |lit| <= |t| {
        assert t[p..p + |lit|][0] != lit[0];
      }
    }
  }

  lemma NoAmpReplace(t: string, lit: string, rep: string)
    requires lit != [] && lit[0] == '&'
    requires forall k | 0 <= k < |t| :: t[k] != '&'
    ensures ReplaceAll(t, lit, rep) == t
  {
    NoAmpNoLiteral(t, lit);
    ReplaceAllAbsent(t, lit, rep);
  }

  lemma {:induction false} NoAmpDecimal(t: string)
    requires forall k | 0 <= k < |t| :: t[k] != '&'
    ensures DecodeDecimal(t) == t
    decreases |t|
  {
    if t != [] {
      assert !HasExactAt(t, 0, "&#") by {
        if 2 <= |t| { assert t[0..2][0] != "&#"[0]; }
      }
      NoAmpDecimal(t[1..]);
      assert [t[0]] + t[1..] == t;
    }
  }

  lemma {:induction false} NoAmpHex(t: string)
    requires forall k | 0 <= k < |t| :: t[k] != '&'
    ensures DecodeHex(t) == t
    decreases |t|
  {
    if t != [] {
      assert !HasExactAt(t, 0, "&#x") by {
        if 3 <= |t| { assert t[0..3][0] != "&#x"[0]; }
      }
      NoAmpHex(t[1..]);
      assert [t[0]] + t[1..] == t;
    }
  }

  // ---------------------------------------------------------------------------
  // Stripping tags

  /** No `<[^>]+>` can match: every `<` is followed directly by `>`, or by no `>` at all. */
  predicate TagFree(t: string) {
    forall p | 0 <= p < |t| :: t[p] == LessThan ==> ClosedOrLast(t, p)
  }

  /** The character after `p` is `>`, or no `>` comes after `p`. */
  predicate ClosedOrLast(t: string, p: nat) {
    (p + 1 < |t| && t[p + 1] == GreaterThan) || NoGtAfter(t, p)
  }

  predicate NoGtAfter(t: string, p: nat) {
    forall k | p < k < |t| :: t[k] != GreaterThan
  }

  lemma TagFreeHasNoTag(t: string)
    requires TagFree(t)
    ensures forall p: nat :: TagAt(t, p).None?
  {
    forall p: nat | p < |t| && t[p] == LessThan
      ensures TagAt(t, p).None?
    {
      if p + 1 < |t| && t[p + 1] == GreaterThan {
        assert FindChar(t, p + 1, GreaterThan) == Some(p + 1);
      }
    }
  }

  predicate NoGt(t: string) {
    forall k | 0 <= k < |t| :: t[k] != GreaterThan
  }

  /** A `<` where no tag starts is followed by `>` or by no `>` at all. */
  lemma NoTagAt(s: string, q: nat)
    requires q < |s| && s[q] == LessThan && TagAt(s, q).None?
    ensures ClosedOrLast(s, q)
  {
    match FindChar(s, q + 1, GreaterThan)
    case None =>
    case Some(g) =>
  }

  /** A matcher whose matches start at a `<`, and with a `<` where it finds none
      closed at once or followed by no `>`. */
  predicate LtMatcher(at: nat -> Option<Hit>, s: string) {
    forall q: nat | q < |s| ::
      (at(q).Some? ==> s[q] == LessThan) && (s[q] == LessThan && !Fits(at, |s|, q) ==> ClosedOrLast(s, q))
  }

  /** The tag matcher is one. */
  lemma TagMatcherIsLt(s: string)
    ensures LtMatcher(Matcher(TagRe, s), s)
  {
    forall q: nat | q < |s| && s[q] == LessThan && !Fits(Matcher(TagRe, s), |s|, q)
      ensures ClosedOrLast(s, q)
    {
      MatcherFits(TagRe, s, q);
      NoTagAt(s, q);
    }
  }

  /** Text before a tag-free rest keeps it tag free when each of its `<` is closed at
      once, or is followed by no `>` in it nor in the rest. */
  lemma AppendTagFree(a: string, b: string)
    requires forall p | 0 <= p < |a| :: a[p] == LessThan ==>
      (p + 1 < |a| && a[p + 1] == GreaterThan) || (NoGtAfter(a, p) && NoGt(b))
    requires TagFree(b)
    ensures TagFree(a + b)
  {
    var g := a + b;
    forall p | 0 <= p < |g| && g[p] == LessThan
      ensures ClosedOrLast(g, p)
    {
      if p < |a| {
        if p + 1 < |a| && a[p + 1] == GreaterThan {
          assert g[p + 1] == a[p + 1];
        } else {
          forall k | p < k < |g| ensures g[k] != GreaterThan {
            if k < |a| { assert g[k] == a[k]; } else { assert g[k] == b[k - |a|]; }
          }
        }
      } else {
        var q := p - |a|;
        assert g[p] == b[q];
        if q + 1 < |b| && b[q + 1] == GreaterThan {
          assert g[p + 1] == b[q + 1];
        } else {
          assert NoGtAfter(b, q);
          forall k | p < k < |g| ensures g[k] != GreaterThan {
            assert g[k] == b[k - |a|];
          }
        }
      }
    }
  }

  lemma AppendNoGt(a: string, b: string)
    requires NoGt(a) && NoGt(b)
    ensures NoGt(a + b)
  {
    assert forall k | 0 <= k < |a + b| :: (a + b)[k] == if k < |a| then a[k] else b[k - |a|];
  }

  /** The text a `replace` with such a matcher keeps from `from` on is tag free, and
      has a `>` only when that part of the input has one. */
  lemma {:induction false} GapsTagFree(at: nat -> Option<Hit>, s: string, from: nat)
    requires from <= |s| && LtMatcher(at, s)
    decreases |s| - from
    ensures TagFree(Gaps(at, s, from))
    ensures NoGt(s[from..]) ==> NoGt(Gaps(at, s, from))
  {
    var g := Gaps(at, s, from);
    ExecLeftmost(at, |s|, from);
    match Exec(at, |s|, from)
    case None =>
      assert g == s[from..];
      forall p | 0 <= p < |g| && g[p] == LessThan
        ensures ClosedOrLast(g, p)
      {
        assert s[from + p] == LessThan && ClosedOrLast(s, from + p);
      }
    case Some(f) =>
      GapsTagFree(at, s, f.hit.end);
      var a := s[from..f.start];
      var b := Gaps(at, s, f.hit.end);
      assert g == a + b;
      assert s[f.start] == LessThan;
      forall p | 0 <= p < |a| && a[p] == LessThan
        ensures (p + 1 < |a| && a[p + 1] == GreaterThan) || (NoGtAfter(a, p) && NoGt(b))
      {
        assert s[from + p] == LessThan && ClosedOrLast(s, from + p);
        if !(p + 1 < |a| && a[p + 1] == GreaterThan) {
          assert NoGtAfter(s, from + p);
          assert s[f.hit.end..] == s[from..][f.hit.end - from..];
        }
      }
      AppendTagFree(a, b);
      if NoGt(s[from..]) {
        assert NoGt(s[f.hit.end..]) by {
          assert forall k | 0 <= k < |s| - f.hit.end :: s[f.hit.end..][k] == s[from..][k + f.hit.end - from];
        }
        assert NoGt(a) by {
          assert forall k | 0 <= k < |a| :: a[k] == s[from..][k];
        }
        AppendNoGt(a, b);
      }
  }

  /** After `replace(/<[^>]+>/g, '')` no tag is left. */
  lemma StripTagsTagFree(s: string)
    ensures forall p: nat :: TagAt(StripTags(s), p).None?
  {
    TagMatcherIsLt(s);
    GapsTagFree(Matcher(TagRe, s), s, 0);
    TagFreeHasNoTag(StripTags(s));
  }

  /** With no match at or after `from`, `exec` finds nothing. */
  lemma {:induction false} ExecNone(at: nat -> Option<Hit>, n: nat, from: nat)
    requires forall q: nat | from <= q :: at(q).None?
    ensures Exec(at, n, from).None?
    decreases n - from
  {
    if from < n {
      ExecNone(at, n, from + 1);
    }
  }

  /** Text without `<` has no tag to strip. */
  lemma NoLtStripTags(s: string)
    requires LessThan !in s
    ensures StripTags(s) == s
  {
    ExecNone(Matcher(TagRe, s), |s|, 0);
  }

  /** The decoding of an escaped `<b>`: only `&lt;` and `&gt;` change anything. */
  lemma DecodeEscapedTag()
    ensures DecodeHtmlEntities("&lt;b&gt;") == "<b>"
  {
    var s := "&lt;b&gt;";
    EscapedTagNamedSteps();
    assert ReplaceAll(s, "&nbsp;", " ") == s;
    assert ReplaceAll(s, "&amp;", "&") == s;
    EscapedTagLtStep();
    EscapedTagGtStep();
    NoAmpReplace("<b>", "&quot;", "\"");
    NoAmpReplace("<b>", "&#39;", "'");
    NoAmpReplace("<b>", "&apos;", "'");
    NoAmpDecimal("<b>");
    NoAmpHex("<b>");
  }

  lemma EscapedTagNamedSteps()
    ensures ReplaceAll("&lt;b&gt;", "&nbsp;", " ") == "&lt;b&gt;"
    ensures ReplaceAll("&lt;b&gt;", "&amp;", "&") == "&lt;b&gt;"
  {
    var s := "&lt;b&gt;";
    assert s[0..6][1] != "&nbsp;"[1];
    assert s[1..7][0] != '&' && s[2..8][0] != '&' && s[3..9][0] != '&';
    ReplaceAllAbsent(s, "&nbsp;", " ");
    assert s[0..5][1] != "&amp;"[1] && s[4..9][1] != "&amp;"[1];
    assert s[1..6][0] != '&' && s[2..7][0] != '&' && s[3..8][0] != '&';
    ReplaceAllAbsent(s, "&amp;", "&");
  }

  lemma EscapedTagLtStep()
    ensures ReplaceAll("&lt;b&gt;", "&lt;", "<") == "<b&gt;"
  {
    var s := "&lt;b&gt;";
    var r := "b&gt;";
    assert s[..4] == "&lt;" && s[4..] == r;
    assert r[0..4][0] != '&' && r[1..5][1] != "&lt;"[1];
    ReplaceAllAbsent(r, "&lt;", "<");
  }

  lemma EscapedTagGtStep()
    ensures ReplaceAll("<b&gt;", "&gt;", ">") == "<b>"
  {
    var t := "<b&gt;";
    assert t[..4][0] != '&' && t[1..] == "b&gt;";
    assert t[1..][..4][0] != '&' && t[1..][1..] == "&gt;";
    assert t[2..][..4] == "&gt;" && t[2..][4..] == [];
  }

  /** Decoding runs after stripping, so an escaped tag reaches the text of
      `parseInlineFormatting` as a tag. */
  lemma EscapedTagSurvives()
    ensures InlineFormatting("&lt;b&gt;").text == "<b>"
    ensures TagAt(InlineFormatting("&lt;b&gt;").text, 0).Some?
  {
    var html := "&lt;b&gt;";
    assert InlineFormatting(html).text == DecodeHtmlEntities(StripTags(html));
    NoLtStripTags(html);
    DecodeEscapedTag();
    BoldTagAt();
  }

  lemma BoldTagAt()
    ensures TagAt("<b>", 0).Some?
  {
    assert FindChar("<b>", 1, GreaterThan) == Some(2);
  }

  // ---------------------------------------------------------------------------
  // Splitting out the tables

  function Concat(ps: seq<Part>): string {
    if ps == [] then [] else ps[0].content + Concat(ps[1..])
  }

  /** Non-table parts are never empty and never follow one another. */
  predicate Alternating(ps: seq<Part>) {
    (forall k | 0 <= k < |ps| && ps[k].HtmlPart? :: ps[k].content != [])
    && (forall k | 0 <= k < |ps| - 1 && ps[k].HtmlPart? :: ps[k + 1].TablePart?)
  }

  lemma ConcatAppend(a: seq<Part>, b: seq<Part>)
    ensures Concat(a + b) == Concat(a) + Concat(b)
  {
    if a != [] {
      assert (a + b)[0] == a[0] && (a + b)[1..] == a[1..] + b;
      ConcatAppend(a[1..], b);
      calc {
        Concat(a + b);
        a[0].content + Concat(a[1..] + b);
        a[0].content + (Concat(a[1..]) + Concat(b));
        (a[0].content + Concat(a[1..])) + Concat(b);
      }
    } else {
      assert a + b == b;
    }
  }

  /** One step of the split: the text before the table, the table, then the rest. */
  lemma PartsFromStep(at: nat -> Option<Hit>, s: string, last: nat)
    requires last <= |s| && Exec(at, |s|, last).Some?
    ensures var f := Exec(at, |s|, last).value;
      PartsFrom(at, s, last)
      == (if f.start > last then [HtmlPart(s[last..f.start])] else [])
         + ([TablePart(s[f.start..f.hit.end])] + PartsFrom(at, s, f.hit.end))
  {
  }

  /** The parts from `last` on spell out the input from `last` on, in order. */
  lemma {:induction false} PartsFromConcat(at: nat -> Option<Hit>, s: string, last: nat)
    requires last <= |s|
    decreases |s| - last
    ensures Concat(PartsFrom(at, s, last)) == s[last..]
  {
    match Exec(at, |s|, last)
    case None =>
      if last < |s| {
        assert Concat([HtmlPart(s[last..])]) == s[last..] + Concat([]);
      }
    case Some(f) =>
      PartsFromConcat(at, s, f.hit.end);
      PartsFromStep(at, s, last);
      var lead := if f.start > last then [HtmlPart(s[last..f.start])] else [];
      ConcatCons(lead, s[last..f.start], s[f.start..f.hit.end], PartsFrom(at, s, f.hit.end));
      SliceThree(s, last, f.start, f.hit.end);
  }

  lemma SliceThree(s: string, a: nat, b: nat, c: nat)
    requires a <= b <= c <= |s|
    ensures s[a..] == s[a..b] + s[b..c] + s[c..]
  {
  }

  /** The text of a leading part, a table and the parts after it. */
  lemma ConcatCons(lead: seq<Part>, before: string, table: string, rest: seq<Part>)
    requires (lead == [] && before == []) || lead == [HtmlPart(before)]
    ensures Concat(lead + ([TablePart(table)] + rest)) == before + table + Concat(rest)
  {
    var tail := [TablePart(table)] + rest;
    ConcatAppend(lead, tail);
    assert tail[0] == TablePart(table) && tail[1..] == rest;
    if lead != [] {
      assert Concat(lead) == before + Concat([]);
    }
  }

  /** The parts alternate: a non-table part is non-empty and a table follows it. */
  lemma {:induction false} PartsFromAlternate(at: nat -> Option<Hit>, s: string, last: nat)
    requires last <= |s|
    decreases |s| - last
    ensures Alternating(PartsFrom(at, s, last))
  {
    match Exec(at, |s|, last)
    case None =>
    case Some(f) =>
      PartsFromAlternate(at, s, f.hit.end);
      PartsFromStep(at, s, last);
      var lead := if f.start > last then [HtmlPart(s[last..f.start])] else [];
      AlternatingCons(lead, TablePart(s[f.start..f.hit.end]), PartsFrom(at, s, f.hit.end));
  }

  /** A non-empty non-table part, if any, then a table, then alternating parts,
      alternate. */
  lemma AlternatingCons(lead: seq<Part>, table: Part, rest: seq<Part>)
    requires |lead| <= 1 && forall p | p in lead :: p.HtmlPart? && p.content != []
    requires table.TablePart? && Alternating(rest)
    ensures Alternating(lead + ([table] + rest))
  {
    var ps := lead + ([table] + rest);
    var n := |lead|;
    assert ps[n] == table;
    assert forall k | n < k < |ps| :: ps[k] == rest[k - n - 1];
  }

  /** `parseHtmlToElements` splits the comment-free HTML into parts that together are
      that HTML, in order, with table and non-table parts alternating. */
  lemma PartsCover(html: string)
    ensures Concat(Parts(StripComments(html))) == StripComments(html)
    ensures Alternating(Parts(StripComments(html)))
  {
    var s := StripComments(html);
    PartsFromConcat(Matcher(TableRe, s), s, 0);
    PartsFromAlternate(Matcher(TableRe, s), s, 0);
  }

  // ---------------------------------------------------------------------------
  // Tables

  /** Every row a table keeps has at least one cell, and there are no more rows
      than row matches. */
  lemma {:induction false} RowsNonempty(ms: seq<Found>, cellAt: string -> (nat -> Option<Hit>), cellPush: Hit -> seq<string>)
    ensures forall k | 0 <= k < |Rows(ms, cellAt, cellPush)| :: Rows(ms, cellAt, cellPush)[k] != []
    ensures |Rows(ms, cellAt, cellPush)| <= |ms|
  {
    if ms != [] {
      RowsNonempty(ms[1..], cellAt, cellPush);
      var head := RowOf(cellAt, cellPush, ms[0].hit);
      var rest := Rows(ms[1..], cellAt, cellPush);
      assert Rows(ms, cellAt, cellPush) == head + rest;
      assert forall k | |head| <= k < |head| + |rest| :: (head + rest)[k] == rest[k - |head|];
    }
  }

  /** `parseTable` gives a table exactly when some row has a cell, and then every row
      it keeps has one. */
  lemma TableRowsHaveCells(tableHtml: string)
    ensures TableOf(tableHtml).Some? ==>
      TableOf(tableHtml).value.Table? && TableOf(tableHtml).value.rows != []
      && forall k | 0 <= k < |TableOf(tableHtml).value.rows| :: TableOf(tableHtml).value.rows[k] != []
    ensures |TableRowsOf(tableHtml)| <= |Matches(RowRe, tableHtml)|
  {
    RowsNonempty(Matches(RowRe, tableHtml), CellMatchers, CellText);
  }

  /** Each cell text is trimmed before decoding, so a cell with only whitespace and
      tags is the empty text. */
  lemma BlankCell(h: Hit)
    requires forall k | 0 <= k < |StripTags(h.inner)| :: IsSpace(StripTags(h.inner)[k])
    ensures CellText(h) == [""]
  {
    TrimEmptyIffBlank(StripTags(h.inner));
    assert DecodeHtmlEntities([]) == [] by { NoAmpUnchanged([]); }
  }

  // ---------------------------------------------------------------------------
  // Block elements

  /** The text element of a block: of the kind its tag names, with the content given,
      which is non-empty. */
  lemma TextElementKinds(name: string, content: string, format: Format)
    requires BlockTagName(name) && name != "hr" && name != "br" && name != "img"
    ensures |TextElement(name, content, format)| == (if content == [] then 0 else 1)
    ensures forall e | e in TextElement(name, content, format) ::
      e.content == content && content != []
      && (e.Heading? || e.ListItem? || e.Paragraph?)
      && (e.Heading? <==> name[0] == 'h')
      && (e.Heading? ==> e.level == DigitValue(name[1]) && 1 <= e.level <= 6 && e.bold)
      && (e.ListItem? <==> name == "li")
      && (e.Paragraph? <==> name == "p")
  {
  }

  lemma ElementsOfText(h: Hit, inl: Inline)
    requires h.name != "hr" && h.name != "br" && h.name != "img"
    ensures ElementsOf(h, inl) == ImagesOf(h) + TextElement(h.name, Trim(inl.text), inl.format)
  {
  }

  /** What a block becomes, whatever its inline formatting: `hr` a rule, `br` a
      break, `img` at most its image, and any other tag at most its first image and
      one text element of its kind. */
  lemma BlockKinds(h: Hit, inl: Inline)
    requires BlockTagName(h.name)
    ensures (Hr in ElementsOf(h, inl)) <==> h.name == "hr"
    ensures (Break in ElementsOf(h, inl)) <==> h.name == "br"
    ensures |ElementsOf(h, inl)| <= 2
    ensures forall e | e in ElementsOf(h, inl) && e.Heading? ::
      h.name[0] == 'h' && e.level == DigitValue(h.name[1]) && 1 <= e.level <= 6 && e.bold
    ensures forall e | e in ElementsOf(h, inl) && e.ListItem? :: h.name == "li"
    ensures forall e | e in ElementsOf(h, inl) && e.Paragraph? :: h.name == "p"
  {
    if h.name != "hr" && h.name != "br" && h.name != "img" {
      ElementsOfText(h, inl);
      TextElementKinds(h.name, Trim(inl.text), inl.format);
      ImagesHaveIds(h);
      JoinedKinds(ImagesOf(h), TextElement(h.name, Trim(inl.text), inl.format), h.name);
    }
  }

  /** The kinds of an image list followed by the text element of block `name`. */
  lemma JoinedKinds(images: seq<Element>, text: seq<Element>, name: string)
    requires BlockTagName(name) && name != "hr" && name != "br" && name != "img"
    requires |images| <= 1 && forall e | e in images :: e.Image?
    requires |text| <= 1
    requires forall e | e in text ::
      (e.Heading? || e.ListItem? || e.Paragraph?)
      && (e.Heading? ==> name[0] == 'h' && e.level == DigitValue(name[1]) && 1 <= e.level <= 6 && e.bold)
      && (e.ListItem? ==> name == "li")
      && (e.Paragraph? ==> name == "p")
    ensures Hr !in images + text && Break !in images + text
    ensures |images + text| <= 2
    ensures forall e | e in images + text && e.Heading? ::
      name[0] == 'h' && e.level == DigitValue(name[1]) && 1 <= e.level <= 6 && e.bold
    ensures forall e | e in images + text && e.ListItem? :: name == "li"
    ensures forall e | e in images + text && e.Paragraph? :: name == "p"
  {
  }

  /** Images have an id, and text elements trimmed non-empty content. */
  lemma BlockContents(h: Hit, inl: Inline)
    requires BlockTagName(h.name)
    ensures forall e | e in ElementsOf(h, inl) && e.Image? :: e.imageId != []
    ensures forall e | e in ElementsOf(h, inl) && (e.Heading? || e.Paragraph? || e.ListItem?) ::
      e.content != [] && !IsSpace(e.content[0]) && !IsSpace(e.content[|e.content| - 1])
  {
    if h.name != "hr" && h.name != "br" && h.name != "img" {
      ElementsOfText(h, inl);
      ImagesHaveIds(h);
      TextElementTrimmed(h.name, inl);
      JoinedContents(ImagesOf(h), TextElement(h.name, Trim(inl.text), inl.format), Trim(inl.text));
    }
  }

  lemma ImagesHaveIds(h: Hit)
    ensures forall e | e in ImagesOf(h) :: e.Image? && e.imageId != []
  {
  }

  lemma TextElementTrimmed(name: string, inl: Inline)
    requires BlockTagName(name) && name != "hr" && name != "br" && name != "img"
    ensures var content := Trim(inl.text);
      (content == [] || (!IsSpace(content[0]) && !IsSpace(content[|content| - 1])))
      && forall e | e in TextElement(name, content, inl.format) ::
           (e.Heading? || e.Paragraph? || e.ListItem?) && e.content == content && content != []
  {
    TextElementKinds(name, Trim(inl.text), inl.format);
  }

  /** Images with an id followed by text elements carrying the same trimmed content. */
  lemma JoinedContents(images: seq<Element>, text: seq<Element>, content: string)
    requires forall e | e in images :: e.Image? && e.imageId != []
    requires forall e | e in text :: (e.Heading? || e.Paragraph? || e.ListItem?) && e.content == content && content != []
    requires content == [] || (!IsSpace(content[0]) && !IsSpace(content[|content| - 1]))
    ensures forall e | e in images + text && e.Image? :: e.imageId != []
    ensures forall e | e in images + text && (e.Heading? || e.Paragraph? || e.ListItem?) ::
      e.content != [] && !IsSpace(e.content[0]) && !IsSpace(e.content[|e.content| - 1])
  {
  }

  /** A block whose text is only whitespace yields no text element; its image, if any,
      is still emitted. */
  lemma BlankBlockKeepsImage(h: Hit, inl: Inline)
    requires h.name != "hr" && h.name != "br" && h.name != "img"
    requires forall k | 0 <= k < |inl.text| :: IsSpace(inl.text[k])
    ensures forall e | e in ElementsOf(h, inl) :: e.Image?
    ensures |ElementsOf(h, inl)| == (if InnerImage(h.inner, 0).Some? then 1 else 0)
  {
    TrimEmptyIffBlank(inl.text);
  }

  /** A block with visible text yields its text element, trimmed, last. */
  lemma TextBlockKeepsText(h: Hit, inl: Inline)
    requires h.name != "hr" && h.name != "br" && h.name != "img"
    requires Trim(inl.text) != []
    ensures |ElementsOf(h, inl)| >= 1
    ensures var e := ElementsOf(h, inl)[|ElementsOf(h, inl)| - 1];
      (e.Heading? || e.Paragraph? || e.ListItem?) && e.content == Trim(inl.text)
  {
  }

  lemma {:induction false} CollectHitsMember<T>(ms: seq<Found>, push: Hit -> seq<T>, x: T)
    requires x in CollectHits(ms, push)
    ensures exists k | 0 <= k < |ms| :: x in push(ms[k].hit)
  {
    if ms != [] {
      assert CollectHits(ms, push) == push(ms[0].hit) + CollectHits(ms[1..], push);
      if x !in push(ms[0].hit) {
        CollectHitsMember(ms[1..], push, x);
        var k :| 0 <= k < |ms[1..]| && x in push(ms[1..][k].hit);
        assert ms[1..][k] == ms[k + 1];
      }
    }
  }

  /** Every match a scan yields is a match of the matcher at its start. */
  lemma {:induction false} ScanHits(at: nat -> Option<Hit>, n: nat, from: nat)
    decreases n - from
    ensures forall k | 0 <= k < |Scan(at, n, from)| :: at(Scan(at, n, from)[k].start) == Some(Scan(at, n, from)[k].hit)
  {
    match Exec(at, n, from)
    case None =>
    case Some(f) =>
      ScanHits(at, n, f.hit.end);
      assert Scan(at, n, from) == [f] + Scan(at, n, f.hit.end);
  }

  /** In the output of `parseHtmlContent` a heading has a level from 1 to 6 and is
      bold, a text element has trimmed non-empty content, and an image has an id. */
  lemma ContentElementsWellFormed(html: string)
    ensures forall e | e in ContentElements(html) && e.Heading? :: 1 <= e.level <= 6 && e.bold
    ensures forall e | e in ContentElements(html) && (e.Heading? || e.Paragraph? || e.ListItem?) ::
      e.content != [] && !IsSpace(e.content[0]) && !IsSpace(e.content[|e.content| - 1])
    ensures forall e | e in ContentElements(html) && e.Image? :: e.imageId != []
  {
    var ms := Matches(BlockRe, html);
    ScanHits(Matcher(BlockRe, html), |html|, 0);
    forall e | e in ContentElements(html)
      ensures e.Heading? ==> 1 <= e.level <= 6 && e.bold
      ensures (e.Heading? || e.Paragraph? || e.ListItem?) ==>
        e.content != [] && !IsSpace(e.content[0]) && !IsSpace(e.content[|e.content| - 1])
      ensures e.Image? ==> e.imageId != []
    {
      CollectHitsMember(ms, BlockElements, e);
      var k :| 0 <= k < |ms| && e in BlockElements(ms[k].hit);
      assert MatchAt(BlockRe, html, ms[k].start) == Some(ms[k].hit);
      BlockKinds(ms[k].hit, InlineFormatting(ms[k].hit.inner));
      BlockContents(ms[k].hit, InlineFormatting(ms[k].hit.inner));
    }
  }
}
