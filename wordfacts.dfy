/**
 * Properties of the markdown reader of the Word-document tool: one paragraph per
 * line, how a line's kind follows from its prefix, what the inline runs are for the
 * basic marker shapes, that the runs spell out the text they came from except for
 * skipped `*` characters, and that the file name always gets its extension once.
 */
module WordFacts {
  import opened Text
  import opened WordDoc

  // ---------------------------------------------------------------------------
  // Lines

  lemma {:induction false} ParagraphsOfLines(lines: seq<string>)
    ensures |ParagraphsOf(lines)| == |lines|
    ensures forall k | 0 <= k < |lines| :: ParagraphsOf(lines)[k] == LineParagraph(lines[k])
  {
    if lines != [] {
      var init := lines[..|lines| - 1];
      ParagraphsOfLines(init);
      assert ParagraphsOf(lines) == ParagraphsOf(init) + [LineParagraph(lines[|lines| - 1])];
      forall k | 0 <= k < |lines| - 1
        ensures ParagraphsOf(lines)[k] == LineParagraph(lines[k])
      {
        assert lines[k] == init[k];
      }
    }
  }

  /** `parseContentToParagraphs` yields exactly one paragraph per line: as many as
      there are `\n` characters plus one, the k-th made from the k-th line. */
  lemma OneParagraphPerLine(content: string)
    ensures |ContentParagraphs(content)| == |Split(content, '\n')| == Count(content, '\n') + 1
    ensures forall k | 0 <= k < |Split(content, '\n')| ::
      ContentParagraphs(content)[k] == LineParagraph(Split(content, '\n')[k])
  {
    SplitCount(content, '\n');
    ParagraphsOfLines(Split(content, '\n'));
  }

  /** The heading prefixes exclude one another, and none of them starts a bullet or a
      numbered item, so the order in which they are tried does not matter. */
  lemma PrefixesExclusive(t: string)
    ensures !(StartsWith(t, "### ") && StartsWith(t, "## "))
    ensures !(StartsWith(t, "### ") && StartsWith(t, "# "))
    ensures !(StartsWith(t, "## ") && StartsWith(t, "# "))
    ensures (StartsWith(t, "- ") || StartsWith(t, "* ") || NumberPrefix(t).Some?) ==>
      !StartsWith(t, "# ") && !StartsWith(t, "## ") && !StartsWith(t, "### ")
    ensures NumberPrefix(t).Some? ==> !StartsWith(t, "- ") && !StartsWith(t, "* ")
  {
    if StartsWith(t, "### ") { assert t[2] == '#'; }
    if StartsWith(t, "## ") { assert t[1] == '#' && t[2] == ' '; }
    if StartsWith(t, "# ") { assert t[0] == '#' && t[1] == ' '; }
    if NumberPrefix(t).Some? { assert IsDigit(t[0]); }
  }

  /** A line's kind is decided by its trimmed text alone: blank exactly when the line is
      all whitespace, a heading of level 3, 2 or 1 exactly when it starts with `### `,
      `## ` or `# `, a bullet exactly when it starts with `- ` or `* `, a numbered item
      exactly when it starts with digits, a dot and a space, and normal otherwise. */
  lemma LineKind(line: string)
    ensures var t := Trim(line); var k := LineParagraph(line).kind;
      (k == Blank <==> forall c | 0 <= c < |line| :: IsSpace(line[c]))
      && (k == Heading(3) <==> StartsWith(t, "### "))
      && (k == Heading(2) <==> StartsWith(t, "## "))
      && (k == Heading(1) <==> StartsWith(t, "# "))
      && (k == Bullet <==> StartsWith(t, "- ") || StartsWith(t, "* "))
      && (k == Numbered <==> NumberPrefix(t).Some?)
      && (k == Normal <==>
            t != [] && !StartsWith(t, "### ") && !StartsWith(t, "## ") && !StartsWith(t, "# ")
            && !StartsWith(t, "- ") && !StartsWith(t, "* ") && NumberPrefix(t).None?)
  {
    TrimEmptyIffBlank(line);
    PrefixesExclusive(Trim(line));
  }

  /** A heading's text is its trimmed line without the prefix, in one bold run; the
      prefix and the text give back the trimmed line. */
  lemma HeadingText(line: string)
    requires LineParagraph(line).kind.Heading?
    ensures var p := LineParagraph(line); var t := Trim(line);
      |p.runs| == 1 && p.runs[0].bold && !p.runs[0].italics
      && 1 <= p.kind.level <= 3
      && t == Repeat('#', p.kind.level) + " " + p.runs[0].text
  {
    var t := Trim(line);
    var p := LineParagraph(line);
    if StartsWith(t, "### ") {
      assert p == HeadingParagraph(3, t[4..], 240, 120);
      HeadingSpelled(t, 3);
    } else if StartsWith(t, "## ") {
      assert p == HeadingParagraph(2, t[3..], 280, 140);
      HeadingSpelled(t, 2);
    } else {
      assert StartsWith(t, "# ") && p == HeadingParagraph(1, t[2..], 320, 160);
      HeadingSpelled(t, 1);
    }
  }

  /** A line that starts with a heading prefix is that prefix followed by the rest. */
  lemma HeadingSpelled(t: string, level: nat)
    requires 1 <= level <= 3
    requires level == 3 ==> StartsWith(t, "### ")
    requires level == 2 ==> StartsWith(t, "## ")
    requires level == 1 ==> StartsWith(t, "# ")
    ensures t == Repeat('#', level) + " " + t[level + 1..]
  {
    assert t == t[..level + 1] + t[level + 1..];
    if level == 3 {
      assert Repeat('#', 3) + " " == "### ";
    } else if level == 2 {
      assert Repeat('#', 2) + " " == "## ";
    } else {
      assert Repeat('#', 1) + " " == "# ";
    }
  }

  function Repeat(c: char, n: nat): string {
    if n == 0 then [] else [c] + Repeat(c, n - 1)
  }

  /** A numbered item's runs are those of the text after `digits. `; the prefix is
      digits, a dot and one whitespace character. */
  lemma NumberedText(line: string)
    requires LineParagraph(line).kind == Numbered
    ensures var t := Trim(line); var n := NumberPrefix(t).value;
      LineParagraph(line).runs == InlineRuns(t[n..])
      && (forall c | 0 <= c < n - 2 :: IsDigit(t[c])) && t[n - 2] == '.' && IsSpace(t[n - 1])
  {
    LineKind(line);
  }

  // ---------------------------------------------------------------------------
  // Inline runs

  /** What a run looks like in the text: its text between its markers. */
  function Marker(r: Run): string {
    if r.bold && r.italics then "***" else if r.bold then "**" else if r.italics then "*" else ""
  }

  function Render(runs: seq<Run>): string {
    if runs == [] then [] else Marker(runs[0]) + runs[0].text + Marker(runs[0]) + Render(runs[1..])
  }

  /** An enclosed match is its content between two markers. */
  lemma EnclosedSpells(s: string, i: nat, marker: string)
    requires |marker| > 0 && Enclosed(s, i, marker).Some?
    ensures var j := Enclosed(s, i, marker).value;
      s[i..j + |marker|] == marker + s[i + |marker|..j] + marker
  {
    var j := Enclosed(s, i, marker).value;
    assert s[i..j + |marker|] == s[i..i + |marker|] + s[i + |marker|..j] + s[j..j + |marker|];
  }

  /** Each match is its run written out with its markers. */
  lemma RunAtSpells(s: string, i: nat)
    requires RunAt(s, i).Some?
    ensures var m := RunAt(s, i).value;
      Marker(m.run) + m.run.text + Marker(m.run) == s[i..m.end]
  {
    if Enclosed(s, i, "***").Some? {
      MarkedSpells(s, i, "***", Run(s[i + 3..Enclosed(s, i, "***").value], true, true));
    } else if Enclosed(s, i, "**").Some? {
      MarkedSpells(s, i, "**", Run(s[i + 2..Enclosed(s, i, "**").value], true, false));
    } else if Enclosed(s, i, "*").Some? {
      MarkedSpells(s, i, "*", Run(s[i + 1..Enclosed(s, i, "*").value], false, true));
    } else {
      var t := s[i..StarFreeEnd(s, i)];
      assert Marker(Run(t, false, false)) + t + Marker(Run(t, false, false)) == t;
    }
  }

  /** An enclosed run written out with its marker. */
  lemma MarkedSpells(s: string, i: nat, marker: string, run: Run)
    requires |marker| > 0 && Enclosed(s, i, marker).Some? && Marker(run) == marker
    requires run.text == s[i + |marker|..Enclosed(s, i, marker).value]
    ensures Marker(run) + run.text + Marker(run) == s[i..Enclosed(s, i, marker).value + |marker|]
  {
    EnclosedSpells(s, i, marker);
  }

  /** At a character other than `*` only the plain alternative can match. */
  lemma PlainAt(s: string, i: nat)
    requires i < |s| && s[i] != '*'
    ensures RunAt(s, i) == Some(Match(StarFreeEnd(s, i), Run(s[i..StarFreeEnd(s, i)], false, false)))
  {
    NoMarkerAt(s, i, "***");
    NoMarkerAt(s, i, "**");
    NoMarkerAt(s, i, "*");
  }

  lemma NoMarkerAt(s: string, i: nat, marker: string)
    requires |marker| > 0 && i < |s| && s[i] != marker[0]
    ensures Enclosed(s, i, marker).None?
  {
    if i + |marker| <= |s| {
      assert s[i..i + |marker|][0] == s[i];
    }
  }

  /** Every position from `from` on where the scan resumes starts a match. */
  predicate Covered(s: string, from: nat)
    decreases |s| - from
  {
    from >= |s| || (RunAt(s, from).Some? && Covered(s, RunAt(s, from).value.end))
  }

  /** When no character is skipped, the runs written out with their markers give back
      the text. */
  lemma {:induction false} CoveredRoundTrip(s: string, from: nat)
    requires from <= |s| && Covered(s, from)
    decreases |s| - from
    ensures Render(RunsFrom(s, from)) == s[from..]
  {
    if from < |s| {
      var m := RunAt(s, from).value;
      assert NextMatch(s, from) == Some((from, m));
      assert RunsFrom(s, from) == [m.run] + RunsFrom(s, m.end);
      CoveredRoundTrip(s, m.end);
      RunAtSpells(s, from);
      RenderCons(m.run, RunsFrom(s, m.end));
      assert s[from..] == s[from..m.end] + s[m.end..];
    }
  }

  lemma RenderCons(r: Run, rest: seq<Run>)
    ensures Render([r] + rest) == Marker(r) + r.text + Marker(r) + Render(rest)
  {
    assert ([r] + rest)[1..] == rest;
  }

  /** The only characters the scan skips are `*` characters with no match. */
  lemma {:induction false} OnlyStarsSkipped(s: string, from: nat)
    decreases |s| - from
    ensures NextMatch(s, from).Some? ==>
      forall p | from <= p < NextMatch(s, from).value.0 :: s[p] == '*' && RunAt(s, p).None?
    ensures NextMatch(s, from).None? ==> forall p | from <= p < |s| :: s[p] == '*' && RunAt(s, p).None?
  {
    if from < |s| && RunAt(s, from).None? {
      NoRunIsStar(s, from);
      OnlyStarsSkipped(s, from + 1);
      assert NextMatch(s, from) == NextMatch(s, from + 1);
    } else if from < |s| {
      assert NextMatch(s, from).value.0 == from;
    }
  }

  /** Where no alternative matches, the character is a `*`. */
  lemma NoRunIsStar(s: string, i: nat)
    requires i < |s| && RunAt(s, i).None?
    ensures s[i] == '*'
  {
    if s[i] != '*' {
      PlainAt(s, i);
    }
  }

  /** As written, a `*` that starts no match is dropped: `a * b` becomes the runs `a `
      and ` b`, which written out lose the star. */
  lemma LoneStarDropped()
    ensures InlineRuns("a * b") == [Run("a ", false, false), Run(" b", false, false)]
    ensures Render(InlineRuns("a * b")) == "a  b"
  {
    var s := "a * b";
    StarRunFirst();
    StarNoMatch();
    StarRunLast();
    assert NextMatch(s, 2) == NextMatch(s, 3);
    assert RunsFrom(s, 5) == [];
    assert RunsFrom(s, 2) == [Run(" b", false, false)];
  }

  lemma StarRunFirst()
    ensures NextMatch("a * b", 0) == Some((0, Match(2, Run("a ", false, false))))
  {
    var s := "a * b";
    PlainAt(s, 0);
    assert StarFreeEnd(s, 0) == 2;
    assert s[0..2] == "a ";
  }

  lemma StarNoMatch()
    ensures RunAt("a * b", 2) == None
  {
    var s := "a * b";
    assert LazyClose(s, 5, "*") == None;
    assert LazyClose(s, 4, "*") == None by { assert s[4..5][0] != "*"[0]; }
    assert !HasExactAt(s, 2, "***") by { assert s[2..5][1] != "***"[1]; }
    assert !HasExactAt(s, 2, "**") by { assert s[2..4][1] != "**"[1]; }
    assert HasExactAt(s, 2, "*") by { assert s[2..3] == "*"; }
    assert Enclosed(s, 2, "*") == None;
  }

  lemma StarRunLast()
    ensures NextMatch("a * b", 3) == Some((3, Match(5, Run(" b", false, false))))
  {
    var s := "a * b";
    PlainAt(s, 3);
    assert StarFreeEnd(s, 3) == 5;
    assert s[3..5] == " b";
  }

  /** Text with no `*` is one plain run of the whole text (the empty text included). */
  lemma NoStarOnePlainRun(text: string)
    requires forall p | 0 <= p < |text| :: text[p] != '*'
    ensures InlineRuns(text) == [Run(text, false, false)]
  {
    if text != [] {
      StarFreeToEnd(text, 0);
      PlainAt(text, 0);
      assert text[0..|text|] == text;
      assert NextMatch(text, 0) == Some((0, Match(|text|, Run(text, false, false))));
      assert RunsFrom(text, |text|) == [];
      assert RunsFrom(text, 0) == [Run(text, false, false)];
    }
  }

  lemma {:induction false} StarFreeToEnd(s: string, i: nat)
    requires i <= |s| && forall p | i <= p < |s| :: s[p] != '*'
    ensures StarFreeEnd(s, i) == |s|
    decreases |s| - i
  {
    if i < |s| {
      StarFreeToEnd(s, i + 1);
    }
  }

  /** A lazy close over text with no `*` and no line break stops at the marker after it. */
  lemma {:induction false} LazyCloseAfter(s: string, j: nat, q: nat, marker: string)
    requires |marker| > 0 && marker[0] == '*' && j <= q && HasExactAt(s, q, marker)
    requires forall p | j <= p < q :: s[p] != '*' && !IsLineTerminator(s[p])
    ensures LazyClose(s, j, marker) == Some(q)
    decreases q - j
  {
    if j < q {
      assert s[j..j + |marker|][0] == s[j];
      LazyCloseAfter(s, j + 1, q, marker);
    }
  }

  /** A plain content between markers: one or more characters, no `*`, no line break. */
  predicate PlainContent(x: string) {
    x != [] && forall p | 0 <= p < |x| :: x[p] != '*' && !IsLineTerminator(x[p])
  }

  /** `***x***` is one bold italic run of `x`. */
  lemma BoldItalicRun(x: string)
    requires PlainContent(x)
    ensures InlineRuns("***" + x + "***") == [Run(x, true, true)]
  {
    var s := "***" + x + "***";
    var q := 3 + |x|;
    assert s[3..q] == x && s[q..] == "***";
    LazyCloseAfter(s, 4, q, "***");
    assert RunAt(s, 0) == Some(Match(q + 3, Run(x, true, true)));
    assert RunsFrom(s, q + 3) == [];
  }

  /** `**x**` is one bold run of `x`. */
  lemma BoldRun(x: string)
    requires PlainContent(x)
    ensures InlineRuns("**" + x + "**") == [Run(x, true, false)]
  {
    var s := "**" + x + "**";
    var q := 2 + |x|;
    assert s[2..q] == x && s[q..] == "**";
    assert !HasExactAt(s, 0, "***") by { assert s[0..3][2] == x[0] != "***"[2]; }
    LazyCloseAfter(s, 3, q, "**");
    assert Enclosed(s, 0, "**") == Some(q);
    assert RunAt(s, 0) == Some(Match(q + 2, Run(x, true, false)));
    assert RunsFrom(s, q + 2) == [];
  }

  /** `*x*` is one italic run of `x`. */
  lemma ItalicRun(x: string)
    requires PlainContent(x)
    ensures InlineRuns("*" + x + "*") == [Run(x, false, true)]
  {
    var s := "*" + x + "*";
    var q := 1 + |x|;
    assert s[1..q] == x && s[q..] == "*";
    assert !HasExactAt(s, 0, "***") && !HasExactAt(s, 0, "**") by { assert s[1] == x[0]; }
    LazyCloseAfter(s, 2, q, "*");
    assert RunAt(s, 0) == Some(Match(q + 1, Run(x, false, true)));
    assert RunsFrom(s, q + 1) == [];
  }

  // ---------------------------------------------------------------------------
  // The file name

  /** Normalising a file name twice is normalising it once, and a name that already
      ends in `.docx` is kept as it is. */
  lemma DocxNameIdempotent(filename: string)
    ensures DocxName(DocxName(filename)) == DocxName(filename)
    ensures EndsWith(filename, ".docx") ==> DocxName(filename) == filename
    ensures !EndsWith(filename, ".docx") ==> DocxName(filename) == filename + ".docx"
  {
  }
}
