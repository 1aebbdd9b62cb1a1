/**
 * The markdown reader of the Word-document tool: each line of the content becomes
 * one paragraph (a spacing line, a heading, a bullet, a numbered item or a normal
 * paragraph), and the text of the last three is cut into bold, italic and plain runs
 * at `***`, `**` and `*` markers. The document writer itself is not modelled; a
 * paragraph is described by its kind, its runs and its spacing.
 */
module WordDoc {
  import opened Text

  /** A run of text with its formatting. */
  datatype Run = Run(text: string, bold: bool, italics: bool)

  datatype Kind = Blank | Heading(level: nat) | Bullet | Numbered | Normal

  /** A paragraph: its kind, its runs, and the space before and after it in twips
      (0 where the source sets none). */
  datatype Paragraph = Paragraph(kind: Kind, runs: seq<Run>, before: nat, after: nat)

  // ---------------------------------------------------------------------------
  // Inline formatting: /(\*\*\*(.+?)\*\*\*|\*\*(.+?)\*\*|\*(.+?)\*|([^*]+))/g

  /** `(.+?)marker` with the content already non-empty up to `j`: the first position
      at or after `j` where the marker starts, unless a line terminator comes first. */
  function LazyClose(s: string, j: nat, marker: string): (r: Option<nat>)
    requires |marker| > 0
    decreases |s| - j
    ensures r.Some? ==> j <= r.value && HasExactAt(s, r.value, marker)
    ensures r.Some? ==> forall p | j <= p < r.value :: !IsLineTerminator(s[p])
  {
    if HasExactAt(s, j, marker) then Some(j)
    else if j < |s| && !IsLineTerminator(s[j]) then LazyClose(s, j + 1, marker)
    else None
  }

  /** `marker(.+?)marker` at `i`: the position of the closing marker. */
  function Enclosed(s: string, i: nat, marker: string): (r: Option<nat>)
    requires |marker| > 0
    ensures r.Some? ==> i + |marker| < r.value && r.value + |marker| <= |s|
  {
    var c := i + |marker|;
    if HasExactAt(s, i, marker) && c < |s| && !IsLineTerminator(s[c]) then LazyClose(s, c + 1, marker)
    else None
  }

  /** The end of `[^*]+` from `i`. */
  function StarFreeEnd(s: string, i: nat): (r: nat)
    requires i <= |s|
    decreases |s| - i
    ensures i <= r <= |s| && (r < |s| ==> s[r] == '*')
    ensures forall p | i <= p < r :: s[p] != '*'
  {
    if i < |s| && s[i] != '*' then StarFreeEnd(s, i + 1) else i
  }

  /** A match: where it ends and the run it yields. */
  datatype Match = Match(end: nat, run: Run)

  /** The alternatives at `i`, in the order the expression tries them. */
  function RunAt(s: string, i: nat): (r: Option<Match>)
    ensures r.Some? ==> i < r.value.end <= |s|
  {
    match Enclosed(s, i, "***")
    case Some(j) => Some(Match(j + 3, Run(s[i + 3..j], true, true)))
    case None =>
      match Enclosed(s, i, "**")
      case Some(j) => Some(Match(j + 2, Run(s[i + 2..j], true, false)))
      case None =>
        match Enclosed(s, i, "*")
        case Some(j) => Some(Match(j + 1, Run(s[i + 1..j], false, true)))
        case None =>
          if i < |s| && s[i] != '*' then Some(Match(StarFreeEnd(s, i), Run(s[i..StarFreeEnd(s, i)], false, false)))
          else None
  }

  /** `regex.exec(text)` from `from`: where the leftmost match starts, and the match. */
  function NextMatch(s: string, from: nat): (r: Option<(nat, Match)>)
    decreases |s| - from
    ensures r.Some? ==> from <= r.value.0 && RunAt(s, r.value.0) == Some(r.value.1)
    ensures r.Some? ==> r.value.0 < r.value.1.end <= |s|
  {
    if from >= |s| then None
    else if RunAt(s, from).Some? then Some((from, RunAt(s, from).value))
    else NextMatch(s, from + 1)
  }

  /** The runs of all matches from `from` on. */
  function RunsFrom(s: string, from: nat): seq<Run>
    decreases |s| - from
  {
    match NextMatch(s, from)
    case None => []
    case Some((_, m)) => [m.run] + RunsFrom(s, m.end)
  }

  /** `parseInlineFormatting`: the runs, or one plain run of the whole text if there
      are none. */
  function InlineRuns(text: string): seq<Run> {
    var runs := RunsFrom(text, 0);
    if |runs| > 0 then runs else [Run(text, false, false)]
  }

  /** `parseInlineFormatting` */
  method ParseInlineFormatting(text: string) returns (runs: seq<Run>)
    ensures runs == InlineRuns(text)
  {
    runs := [];
    var lastIndex := 0;
    var m := NextMatch(text, 0);
    while m.Some?
      invariant lastIndex <= |text| && m == NextMatch(text, lastIndex)
      invariant runs + RunsFrom(text, lastIndex) == RunsFrom(text, 0)
      decreases |text| - lastIndex
    {
      var (_, hit) := m.value;
      assert RunsFrom(text, lastIndex) == [hit.run] + RunsFrom(text, hit.end);
      runs := runs + [hit.run];
      lastIndex := hit.end;
      m := NextMatch(text, lastIndex);
    }
    if |runs| == 0 {
      runs := [Run(text, false, false)];
    }
  }

  // ---------------------------------------------------------------------------
  // Lines

  /** The length of a `^\d+\.\s` prefix. */
  function NumberPrefix(t: string): (r: Option<nat>)
    ensures r.Some? ==> 3 <= r.value <= |t|
  {
    var d := DigitRunEnd(t, 0);
    if d > 0 && d + 1 < |t| && t[d] == '.' && IsSpace(t[d + 1]) then Some(d + 2) else None
  }

  function HeadingParagraph(level: nat, text: string, before: nat, after: nat): Paragraph {
    Paragraph(Heading(level), [Run(text, true, false)], before, after)
  }

  /** The paragraph of one line. */
  function LineParagraph(line: string): Paragraph {
    var t := Trim(line);
    if t == [] then Paragraph(Blank, [], 0, 200)
    else if StartsWith(t, "### ") then HeadingParagraph(3, t[4..], 240, 120)
    else if StartsWith(t, "## ") then HeadingParagraph(2, t[3..], 280, 140)
    else if StartsWith(t, "# ") then HeadingParagraph(1, t[2..], 320, 160)
    else if StartsWith(t, "- ") || StartsWith(t, "* ") then Paragraph(Bullet, InlineRuns(t[2..]), 0, 80)
    else if NumberPrefix(t).Some? then Paragraph(Numbered, InlineRuns(t[NumberPrefix(t).value..]), 0, 80)
    else Paragraph(Normal, InlineRuns(t), 0, 120)
  }

  function ParagraphsOf(lines: seq<string>): seq<Paragraph> {
    if lines == [] then [] else ParagraphsOf(lines[..|lines| - 1]) + [LineParagraph(lines[|lines| - 1])]
  }

  /** `parseContentToParagraphs` */
  function ContentParagraphs(content: string): seq<Paragraph> {
    ParagraphsOf(Split(content, '\n'))
  }

  /** The body of the line loop. */
  method ParseLine(line: string) returns (p: Paragraph)
    ensures p == LineParagraph(line)
  {
    var trimmed := Trim(line);
    if trimmed == [] {
      return Paragraph(Blank, [], 0, 200);
    }
    if StartsWith(trimmed, "### ") {
      p := HeadingParagraph(3, trimmed[4..], 240, 120);
    } else if StartsWith(trimmed, "## ") {
      p := HeadingParagraph(2, trimmed[3..], 280, 140);
    } else if StartsWith(trimmed, "# ") {
      p := HeadingParagraph(1, trimmed[2..], 320, 160);
    } else if StartsWith(trimmed, "- ") || StartsWith(trimmed, "* ") {
      var runs := ParseInlineFormatting(trimmed[2..]);
      p := Paragraph(Bullet, runs, 0, 80);
    } else if NumberPrefix(trimmed).Some? {
      var text := trimmed[NumberPrefix(trimmed).value..];
      var runs := ParseInlineFormatting(text);
      p := Paragraph(Numbered, runs, 0, 80);
    } else {
      var runs := ParseInlineFormatting(trimmed);
      p := Paragraph(Normal, runs, 0, 120);
    }
  }

  /** `parseContentToParagraphs` */
  method ParseContentToParagraphs(content: string) returns (paragraphs: seq<Paragraph>)
    ensures paragraphs == ContentParagraphs(content)
  {
    var lines := Split(content, '\n');
    paragraphs := [];
    for k := 0 to |lines|
      invariant paragraphs == ParagraphsOf(lines[..k])
    {
      assert lines[..k + 1][..k] == lines[..k];
      var p := ParseLine(lines[k]);
      paragraphs := paragraphs + [p];
    }
    assert lines[..|lines|] == lines;
  }

  // ---------------------------------------------------------------------------
  // The file name

  /** The file name sent back: `.docx` appended unless it is already there. */
  function DocxName(filename: string): (r: string)
    ensures EndsWith(r, ".docx")
    ensures StartsWith(r, filename)
  {
    if EndsWith(filename, ".docx") then filename else filename + ".docx"
  }
}
