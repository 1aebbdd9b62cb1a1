/**
 * JavaScript string primitives used throughout the bot, stated over Dafny strings.
 *
 * A JavaScript string is modelled as a sequence of Unicode code points. Where the
 * source depends on the UTF-16 length (`.length`), `Utf16Length` gives it.
 * `toLowerCase` is modelled on ASCII letters only.
 */
module Text {

  datatype Option<T> = None | Some(value: T)

  /** The delimiters of tags and markup, by code point. */
  const OpenBracket: char := 91 as char
  const CloseBracket: char := 93 as char
  const LessThan: char := 60 as char
  const GreaterThan: char := 62 as char

  /** The characters JavaScript's `trim` removes and `\s` matches
      (WhiteSpace and LineTerminator of ECMA-262). */
  predicate IsSpace(c: char) {
    c == '\t' || c == '\n' || c == '\U{B}' || c == '\U{C}' || c == '\r' || c == ' '
    || c == '\U{A0}' || c == '\U{1680}' || ('\U{2000}' <= c <= '\U{200A}')
    || c == '\U{2028}' || c == '\U{2029}' || c == '\U{202F}' || c == '\U{205F}'
    || c == '\U{3000}' || c == '\U{FEFF}'
  }

  /** `\d` */
  predicate IsDigit(c: char) {
    '0' <= c <= '9'
  }

  /** `\w` (ASCII letters, digits and underscore) */
  predicate IsWordChar(c: char) {
    ('a' <= c <= 'z') || ('A' <= c <= 'Z') || IsDigit(c) || c == '_'
  }

  /** The characters `.` does not match in a JavaScript regular expression. */
  predicate IsLineTerminator(c: char) {
    c == '\n' || c == '\r' || c == '\U{2028}' || c == '\U{2029}'
  }

  function Lower(c: char): char {
    if 'A' <= c <= 'Z' then (c as int + 32) as char else c
  }

  /** `toLowerCase`, on ASCII letters. */
  function ToLower(s: string): (r: string)
    ensures |r| == |s|
    ensures forall k | 0 <= k < |s| :: r[k] == Lower(s[k])
  {
    seq(|s|, k requires 0 <= k < |s| => Lower(s[k]))
  }

  lemma {:induction false} LowerIdempotent(s: string)
    ensures ToLower(ToLower(s)) == ToLower(s)
  {
    var once := ToLower(s);
    var twice := ToLower(once);
    forall k | 0 <= k < |s|
      ensures twice[k] == once[k]
    {
      assert once[k] == Lower(s[k]);
    }
  }

  /** `s.trimStart()` */
  function TrimStart(s: string): (r: string)
    ensures |r| <= |s| && r == s[|s| - |r|..]
    ensures r == [] || !IsSpace(r[0])
    ensures forall k | 0 <= k < |s| - |r| :: IsSpace(s[k])
  {
    if s != [] && IsSpace(s[0]) then TrimStart(s[1..]) else s
  }

  /** `s.trimEnd()` */
  function TrimEnd(s: string): (r: string)
    ensures |r| <= |s| && r == s[..|r|]
    ensures r == [] || !IsSpace(r[|r| - 1])
    ensures forall k | |r| <= k < |s| :: IsSpace(s[k])
  {
    if s != [] && IsSpace(s[|s| - 1]) then TrimEnd(s[..|s| - 1]) else s
  }

  /** Neither end of `t` is white space (an empty text qualifies). */
  predicate NoOuterSpace(t: string) {
    t == [] || (!IsSpace(t[0]) && !IsSpace(t[|t| - 1]))
  }

  /** `s.trim()`: the result is a slice of `s` with no white space at either end,
      and everything cut off is white space. */
  function Trim(s: string): (r: string)
    ensures Lead(s) + |r| <= |s| && r == s[Lead(s)..Lead(s) + |r|]
    ensures r == [] || (!IsSpace(r[0]) && !IsSpace(r[|r| - 1]))
    ensures forall k | 0 <= k < Lead(s) :: IsSpace(s[k])
    ensures forall k | Lead(s) + |r| <= k < |s| :: IsSpace(s[k])
  {
    var t := TrimStart(s);
    var r := TrimEnd(t);
    assert r == s[|s| - |t|..|s| - |t| + |r|];
    r
  }

  /** The number of white-space characters `trim` removes at the front. */
  function Lead(s: string): nat {
    |s| - |TrimStart(s)|
  }

  /** Trimming is idempotent. */
  lemma {:induction false} TrimIdempotent(s: string)
    ensures Trim(Trim(s)) == Trim(s)
  {
    var r := Trim(s);
    TrimOfTrimmed(r);
  }

  /** A string without white space at either end is its own trim. */
  lemma TrimOfTrimmed(r: string)
    requires r == [] || (!IsSpace(r[0]) && !IsSpace(r[|r| - 1]))
    ensures Trim(r) == r
  {
    assert TrimStart(r) == r;
    assert TrimEnd(r) == r;
  }

  /** A space in front of trimmed text is removed by `trim`. */
  lemma TrimSpaceThenTrimmed(r: string)
    requires r != [] && !IsSpace(r[0]) && !IsSpace(r[|r| - 1])
    ensures Trim([' '] + r) == r
  {
    assert ([' '] + r)[1..] == r;
    assert TrimStart(r) == r;
    assert TrimStart([' '] + r) == r;
    assert TrimEnd(r) == r;
  }

  /** A string is blank when it trims to nothing, that is, it is all white space. */
  lemma {:induction false} TrimEmptyIffBlank(s: string)
    ensures Trim(s) == [] <==> forall k | 0 <= k < |s| :: IsSpace(s[k])
  {
    var r := Trim(s);
    assert r != [] ==> r[0] == s[Lead(s)];
  }

  /** `s.startsWith(p)` */
  predicate StartsWith(s: string, p: string) {
    |p| <= |s| && s[..|p|] == p
  }

  /** `s.endsWith(p)` */
  predicate EndsWith(s: string, p: string) {
    |p| <= |s| && s[|s| - |p|..] == p
  }

  /** The literal `lit` (written in lower case) occurs at position `i` of `s`,
      compared case-insensitively as under a regular expression's `i` flag. */
  predicate HasAt(s: string, i: nat, lit: string) {
    i + |lit| <= |s| && forall k | 0 <= k < |lit| :: Lower(s[i + k]) == lit[k]
  }

  /** The literal `lit` occurs at position `i` of `s` exactly. */
  predicate HasExactAt(s: string, i: nat, lit: string) {
    i + |lit| <= |s| && s[i..i + |lit|] == lit
  }

  /** The first position at or after `i` where `lit` occurs (case-insensitively). */
  function Find(s: string, i: nat, lit: string): (r: Option<nat>)
    requires |lit| > 0
    decreases |s| - i
    ensures r.Some? ==> i <= r.value && HasAt(s, r.value, lit)
    ensures r.Some? ==> forall p | i <= p < r.value :: !HasAt(s, p, lit)
    ensures r.None? ==> forall p | i <= p :: !HasAt(s, p, lit)
  {
    if i + |lit| > |s| then None
    else if HasAt(s, i, lit) then Some(i)
    else Find(s, i + 1, lit)
  }

  /** The first position at or after `i` holding the character `c`. */
  function FindChar(s: string, i: nat, c: char): (r: Option<nat>)
    decreases |s| - i
    ensures r.Some? ==> i <= r.value < |s| && s[r.value] == c
    ensures r.Some? ==> forall p | i <= p < r.value :: s[p] != c
    ensures r.None? ==> forall p | i <= p < |s| :: s[p] != c
  {
    if i >= |s| then None
    else if s[i] == c then Some(i)
    else FindChar(s, i + 1, c)
  }

  /** The end of the longest run of digits starting at `i`. */
  function DigitRunEnd(s: string, i: nat): (r: nat)
    requires i <= |s|
    decreases |s| - i
    ensures i <= r <= |s|
    ensures forall p | i <= p < r :: IsDigit(s[p])
    ensures r < |s| ==> !IsDigit(s[r])
  {
    if i < |s| && IsDigit(s[i]) then DigitRunEnd(s, i + 1) else i
  }

  /** The end of the longest run of word characters starting at `i`. */
  function WordRunEnd(s: string, i: nat): (r: nat)
    requires i <= |s|
    decreases |s| - i
    ensures i <= r <= |s|
    ensures forall p | i <= p < r :: IsWordChar(s[p])
    ensures r < |s| ==> !IsWordChar(s[r])
  {
    if i < |s| && IsWordChar(s[i]) then WordRunEnd(s, i + 1) else i
  }

  /** The end of the longest run of white space starting at `i`. */
  function SpaceRunEnd(s: string, i: nat): (r: nat)
    requires i <= |s|
    decreases |s| - i
    ensures i <= r <= |s|
    ensures forall p | i <= p < r :: IsSpace(s[p])
    ensures r < |s| ==> !IsSpace(s[r])
  {
    if i < |s| && IsSpace(s[i]) then SpaceRunEnd(s, i + 1) else i
  }

  function DigitValue(c: char): nat
    requires IsDigit(c)
  {
    c as int - '0' as int
  }

  /** The decimal value of a string of digits. */
  function DigitsValue(ds: string): nat
    requires forall k | 0 <= k < |ds| :: IsDigit(ds[k])
  {
    if ds == [] then 0 else 10 * DigitsValue(ds[..|ds| - 1]) + DigitValue(ds[|ds| - 1])
  }

  /** Text matching `-?\d+`: an optional minus sign and at least one digit. */
  predicate IsIntText(t: string) {
    |t| > 0
    && (t[0] == '-' ==> |t| > 1 && forall k | 1 <= k < |t| :: IsDigit(t[k]))
    && (t[0] != '-' ==> forall k | 0 <= k < |t| :: IsDigit(t[k]))
  }

  /** The value of `-?\d+` text. */
  function SignedValue(t: string): int
    requires IsIntText(t)
  {
    if t[0] == '-' then -(DigitsValue(t[1..]) as int) else DigitsValue(t)
  }

  /** The end of a `-?\d+` match at `i`, if there is one. */
  function SignedIntEnd(s: string, i: nat): (r: Option<nat>)
    ensures r.Some? ==> i < r.value <= |s|
    ensures r.Some? ==> r.value < |s| ==> !IsDigit(s[r.value])
    ensures r.Some? ==> IsIntText(s[i..r.value])
  {
    if i >= |s| then None
    else
      var b := if s[i] == '-' then i + 1 else i;
      var e := DigitRunEnd(s, b);
      if e > b then Some(e) else None
  }

  /** `parseInt(t, 10)` on a string: leading white space, an optional sign, then the
      longest run of digits; `None` stands for `NaN` (no digit). */
  function ParseInt(t: string): (r: Option<int>)
  {
    var a := SpaceRunEnd(t, 0);
    var neg := a < |t| && t[a] == '-';
    var b := if a < |t| && (t[a] == '-' || t[a] == '+') then a + 1 else a;
    var e := DigitRunEnd(t, b);
    if e == b then None
    else
      var v := DigitsValue(t[b..e]);
      Some(if neg then -(v as int) else v as int)
  }

  lemma {:induction false} ParseIntOfDigits(ds: string)
    requires |ds| > 0 && forall k | 0 <= k < |ds| :: IsDigit(ds[k])
    ensures ParseInt(ds) == Some(DigitsValue(ds) as int)
  {
    assert !IsSpace(ds[0]);
    assert SpaceRunEnd(ds, 0) == 0;
    DigitRunToEnd(ds, 0);
    assert ds[0..|ds|] == ds;
  }

  lemma {:induction false} DigitRunToEnd(s: string, i: nat)
    requires i <= |s| && forall k | i <= k < |s| :: IsDigit(s[k])
    ensures DigitRunEnd(s, i) == |s|
    decreases |s| - i
  {
    if i < |s| {
      DigitRunToEnd(s, i + 1);
    }
  }

  /** `parseInt(t, 10)` of a captured `-?\d+` group (always a number; see `IntOfCapture`). */
  function IntOf(t: string): int {
    match ParseInt(t)
    case Some(v) => v
    case None => 0
  }

  lemma IntOfCapture(t: string)
    requires IsIntText(t)
    ensures IntOf(t) == SignedValue(t)
  {
    ParseIntOfIntText(t);
  }

  /** The decimal text of an integer, as `${n}` prints it. */
  function IntToString(n: int): (r: string)
    ensures |r| > 0
    decreases if n < 0 then 1 - n else n
  {
    if n < 0 then "-" + IntToString(-n)
    else if n < 10 then [(('0' as int) + n) as char]
    else IntToString(n / 10) + [(('0' as int) + n % 10) as char]
  }

  /** The length of a string in UTF-16 code units, which is what JavaScript's
      `.length` counts: code points beyond the Basic Multilingual Plane take two. */
  function Utf16Length(s: string): (n: nat)
    ensures |s| <= n <= 2 * |s|
  {
    if s == [] then 0
    else (if s[|s| - 1] as int >= 0x10000 then 2 else 1) + Utf16Length(s[..|s| - 1])
  }

  lemma {:induction false} Utf16LengthPrefix(s: string, p: string)
    requires StartsWith(s, p)
    ensures Utf16Length(p) <= Utf16Length(s)
    ensures |p| < |s| ==> Utf16Length(p) < Utf16Length(s)
    decreases |s|
  {
    if |p| < |s| {
      assert StartsWith(s[..|s| - 1], p) by {
        assert s[..|s| - 1][..|p|] == s[..|p|];
      }
      Utf16LengthPrefix(s[..|s| - 1], p);
    } else {
      assert s == p;
    }
  }

  /** `s.split(sep)` for a one-character separator: always at least one piece. */
  function Split(s: string, sep: char): (r: seq<string>)
    ensures |r| > 0
    ensures forall k | 0 <= k < |r| :: sep !in r[k]
  {
    match FindChar(s, 0, sep)
    case None => [s]
    case Some(p) => [s[..p]] + Split(s[p + 1..], sep)
  }

  /** The number of occurrences of `c` in `s`. */
  function Count(s: string, c: char): nat {
    if s == [] then 0 else (if s[0] == c then 1 else 0) + Count(s[1..], c)
  }

  /** Splitting yields one more piece than there are separators, and joining the pieces
      with the separator gives back the string. */
  lemma {:induction false} SplitCount(s: string, sep: char)
    ensures |Split(s, sep)| == Count(s, sep) + 1
    ensures Join(Split(s, sep), sep) == s
    decreases |s|
  {
    match FindChar(s, 0, sep)
    case None =>
      CountAbsent(s, sep);
    case Some(p) =>
      SplitCount(s[p + 1..], sep);
      CountSplit(s, p, sep);
      assert s == s[..p] + [sep] + s[p + 1..];
  }

  function Join(pieces: seq<string>, sep: char): string
    requires |pieces| > 0
  {
    if |pieces| == 1 then pieces[0] else pieces[0] + [sep] + Join(pieces[1..], sep)
  }

  lemma CountAbsent(s: string, c: char)
    requires forall p | 0 <= p < |s| :: s[p] != c
    ensures Count(s, c) == 0
  {
    if s != [] {
      CountAbsent(s[1..], c);
    }
  }

  lemma {:induction false} CountSplit(s: string, p: nat, c: char)
    requires p < |s| && s[p] == c && forall q | 0 <= q < p :: s[q] != c
    ensures Count(s, c) == 1 + Count(s[p + 1..], c)
    decreases p
  {
    if p > 0 {
      CountSplit(s[1..], p - 1, c);
      assert s[1..][p..] == s[p + 1..];
    }
  }

  /** `s.replace(/lit/g, rep)` for a literal pattern: left to right, non-overlapping. */
  function ReplaceAll(s: string, lit: string, rep: string): (r: string)
    requires |lit| > 0
    decreases |s|
  {
    if |s| < |lit| then s
    else if s[..|lit|] == lit then rep + ReplaceAll(s[|lit|..], lit, rep)
    else [s[0]] + ReplaceAll(s[1..], lit, rep)
  }

  /** Replacing a literal that does not occur changes nothing. */
  lemma {:induction false} ReplaceAllAbsent(s: string, lit: string, rep: string)
    requires |lit| > 0
    requires forall p | 0 <= p <= |s| - |lit| :: !HasExactAt(s, p, lit)
    ensures ReplaceAll(s, lit, rep) == s
    decreases |s|
  {
    if |s| >= |lit| {
      assert !HasExactAt(s, 0, lit);
      assert s[0..|lit|] == s[..|lit|];
      forall p | 0 <= p <= |s[1..]| - |lit|
        ensures !HasExactAt(s[1..], p, lit)
      {
        assert !HasExactAt(s, p + 1, lit);
        assert s[1..][p..p + |lit|] == s[p + 1..p + 1 + |lit|];
      }
      ReplaceAllAbsent(s[1..], lit, rep);
      assert s == [s[0]] + s[1..];
    }
  }

  /** Appending text never changes where a literal that fits already occurs. */
  lemma HasAtExtend(s: string, t: string, i: nat, lit: string)
    requires i + |lit| <= |s|
    ensures HasAt(s + t, i, lit) == HasAt(s, i, lit)
    ensures HasExactAt(s + t, i, lit) == HasExactAt(s, i, lit)
  {
    assert (s + t)[i..i + |lit|] == s[i..i + |lit|];
  }

  /** A character found in `s` is found at the same place once text is appended. */
  lemma {:induction false} FindCharExtend(s: string, t: string, i: nat, c: char)
    requires FindChar(s, i, c).Some?
    ensures FindChar(s + t, i, c) == FindChar(s, i, c)
    decreases |s| - i
  {
    if s[i] != c {
      FindCharExtend(s, t, i + 1, c);
    }
  }

  /** A literal found in `s` is found at the same place once text is appended. */
  lemma {:induction false} FindExtend(s: string, t: string, i: nat, lit: string)
    requires |lit| > 0 && Find(s, i, lit).Some?
    ensures Find(s + t, i, lit) == Find(s, i, lit)
    decreases |s| - i
  {
    HasAtExtend(s, t, i, lit);
    if !HasAt(s, i, lit) {
      FindExtend(s, t, i + 1, lit);
    }
  }

  /** A run of digits that stops inside `s` stops at the same place once text is appended. */
  lemma {:induction false} DigitRunExtend(s: string, t: string, i: nat)
    requires i <= |s| && DigitRunEnd(s, i) < |s|
    ensures DigitRunEnd(s + t, i) == DigitRunEnd(s, i)
    decreases |s| - i
  {
    if IsDigit(s[i]) {
      DigitRunExtend(s, t, i + 1);
    }
  }

  /** The same for runs of word characters. */
  lemma {:induction false} WordRunExtend(s: string, t: string, i: nat)
    requires i <= |s| && WordRunEnd(s, i) < |s|
    ensures WordRunEnd(s + t, i) == WordRunEnd(s, i)
    decreases |s| - i
  {
    if IsWordChar(s[i]) {
      WordRunExtend(s, t, i + 1);
    }
  }

  /** A signed integer that stops inside `s` stops at the same place once text is appended. */
  lemma SignedIntExtend(s: string, t: string, i: nat)
    requires SignedIntEnd(s, i).Some? && SignedIntEnd(s, i).value < |s|
    ensures SignedIntEnd(s + t, i) == SignedIntEnd(s, i)
  {
    var b := if s[i] == '-' then i + 1 else i;
    DigitRunExtend(s, t, b);
  }

  /** `parseInt` reads `-?\d+` text as the integer it denotes. */
  lemma ParseIntOfIntText(t: string)
    requires IsIntText(t)
    ensures ParseInt(t) == Some(SignedValue(t))
  {
    assert !IsSpace(t[0]);
    assert SpaceRunEnd(t, 0) == 0;
    var b := if t[0] == '-' then 1 else 0;
    DigitRunToEnd(t, b);
    assert t[b..|t|] == t[b..];
    if b == 0 {
      assert t[0..] == t;
    }
  }
}
