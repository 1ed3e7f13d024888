/**
 * The pieces of Python string semantics scripts/fetch-naver-news.py relies
 * on: `str.strip()`, `re.sub('<[^<]+?>', '', s)` and `int(s)` on a string.
 */
module PyText {
  import opened Wrappers

  /** The characters `str.strip()` removes: those `str.isspace()` accepts. */
  predicate IsPySpace(c: char) {
    ('\t' <= c <= '\r') || ('\U{001C}' <= c <= '\U{001F}') || c == ' ' || c == '\U{0085}' || c == '\U{00A0}' ||
    c == '\U{1680}' || ('\U{2000}' <= c <= '\U{200A}') || c == '\U{2028}' || c == '\U{2029}' ||
    c == '\U{202F}' || c == '\U{205F}' || c == '\U{3000}'
  }

  predicate AllPySpace(s: string) {
    forall i :: 0 <= i < |s| ==> IsPySpace(s[i])
  }

  /** `str.lstrip()`. */
  function LStrip(s: string): (r: string)
    ensures |r| <= |s| && r == s[|s| - |r|..]
    ensures r == [] || !IsPySpace(r[0])
  {
    if |s| > 0 && IsPySpace(s[0]) then LStrip(s[1..]) else s
  }

  /** `str.rstrip()`. */
  function RStrip(s: string): (r: string)
    ensures |r| <= |s| && r == s[..|r|]
    ensures r == [] || !IsPySpace(r[|r| - 1])
  {
    if |s| > 0 && IsPySpace(s[|s| - 1]) then RStrip(s[..|s| - 1]) else s
  }

  /** `str.strip()`. */
  function PyStrip(s: string): string {
    LStrip(RStrip(s))
  }

  /** Only whitespace goes from the front. */
  lemma {:induction false} LStripRemovesSpace(s: string)
    ensures AllPySpace(s[..|s| - |LStrip(s)|])
    decreases |s|
  {
    if |s| > 0 && IsPySpace(s[0]) {
      LStripRemovesSpace(s[1..]);
      assert s[..|s| - |LStrip(s)|] == [s[0]] + s[1..][..|s| - 1 - |LStrip(s)|];
    }
  }

  /** Only whitespace goes from the back. */
  lemma {:induction false} RStripRemovesSpace(s: string)
    ensures AllPySpace(s[|RStrip(s)|..])
    decreases |s|
  {
    if |s| > 0 && IsPySpace(s[|s| - 1]) {
      RStripRemovesSpace(s[..|s| - 1]);
      assert s[|RStrip(s)|..] == s[..|s| - 1][|RStrip(s)|..] + [s[|s| - 1]];
    }
  }

  /** A string already without whitespace at its ends is kept: stripping twice is stripping once. */
  lemma {:induction false} RStripOfClean(s: string)
    requires s == [] || !IsPySpace(s[|s| - 1])
    ensures RStrip(s) == s
  {
  }

  lemma {:induction false} LStripKeepsEnd(s: string)
    requires s == [] || !IsPySpace(s[|s| - 1])
    ensures LStrip(s) == [] || !IsPySpace(LStrip(s)[|LStrip(s)| - 1])
  {
    var r := LStrip(s);
    if r != [] {
      assert r[|r| - 1] == s[|s| - 1];
    }
  }

  /** The result of `strip()` has no whitespace at either end. */
  lemma PyStripClean(s: string)
    ensures var r := PyStrip(s); r == [] || (!IsPySpace(r[0]) && !IsPySpace(r[|r| - 1]))
  {
    LStripKeepsEnd(RStrip(s));
  }

  lemma PyStripIdempotent(s: string)
    ensures PyStrip(PyStrip(s)) == PyStrip(s)
  {
    var r := PyStrip(s);
    PyStripClean(s);
    RStripOfClean(r);
    if r != [] {
      assert !IsPySpace(r[0]);
    }
  }

  /** A string with a visible first and last character is its own `strip()`. */
  lemma PyStripOfClean(s: string)
    requires s != [] && !IsPySpace(s[0]) && !IsPySpace(s[|s| - 1])
    ensures PyStrip(s) == s
  {
    RStripOfClean(s);
  }

  // ----- re.sub('<[^<]+?>', '', s) -----

  /**
   * A span the pattern matches: `<`, a non-empty run without `<`, and the
   * first `>` after the run's first character (the lazy quantifier stops there).
   */
  predicate IsTag(t: string) {
    |t| >= 3 && t[0] == '<' && t[|t| - 1] == '>' &&
    (forall k :: 1 <= k < |t| - 1 ==> t[k] != '<') &&
    (forall k :: 2 <= k < |t| - 1 ==> t[k] != '>')
  }

  /** The scan of `[^<]+?>` past position j; no `<` before j, no `>` from 2 up to j. */
  function TagEnd(s: string, j: nat): (r: Option<nat>)
    requires 2 <= j <= |s| && s[0] == '<'
    requires forall k :: 1 <= k < j ==> s[k] != '<'
    requires forall k :: 2 <= k < j ==> s[k] != '>'
    ensures r.Some? ==> j < r.value <= |s| && IsTag(s[..r.value])
    ensures r.None? ==> forall n :: j < n <= |s| ==> !IsTag(s[..n])
    decreases |s| - j
  {
    if j == |s| then None
    else if s[j] == '>' then Some(j + 1)
    else if s[j] == '<' then
      assert forall n :: j < n <= |s| ==> s[..n][j] == '<';
      None
    else TagEnd(s, j + 1)
  }

  /** The length of the match at the start of s, if the pattern matches there. */
  function TagMatch(s: string): (r: Option<nat>)
    ensures r.Some? ==> r.value <= |s| && IsTag(s[..r.value])
    ensures r.None? ==> forall n :: 0 <= n <= |s| ==> !IsTag(s[..n])
  {
    if |s| >= 2 && s[0] == '<' && s[1] != '<' then TagEnd(s, 2)
    else
      assert forall n :: 2 <= n <= |s| ==> s[..n][1] == s[1] && s[..n][0] == s[0];
      None
  }

  /** A match has one length only: no tag is a proper prefix of another. */
  lemma TagUnique(s: string, m: nat, n: nat)
    requires m <= n <= |s| && IsTag(s[..m]) && IsTag(s[..n])
    ensures m == n
  {
    assert s[..n][m - 1] == s[..m][m - 1];
  }

  /** Which span the scan removes at the start of s: exactly the tag there, when there is one. */
  lemma TagMatchFindsTag(s: string, n: nat)
    requires n <= |s| && IsTag(s[..n])
    ensures TagMatch(s) == Some(n)
  {
    var r := TagMatch(s);
    if r.value <= n {
      TagUnique(s, r.value, n);
    } else {
      TagUnique(s, n, r.value);
    }
  }

  /** Matches are taken leftmost first and do not overlap; what is not matched is copied. */
  function StripTags(s: string): (r: string)
    decreases |s|
  {
    if s == [] then []
    else match TagMatch(s)
      case Some(n) => StripTags(s[n..])
      case None => [s[0]] + StripTags(s[1..])
  }

  /** A description without `<` is left unchanged. */
  lemma {:induction false} StripTagsWithoutAngle(s: string)
    requires '<' !in s
    ensures StripTags(s) == s
    decreases |s|
  {
    if s != [] {
      assert '<' !in s[1..] by {
        assert forall k :: 0 <= k < |s[1..]| ==> s[1..][k] == s[k + 1];
      }
      StripTagsWithoutAngle(s[1..]);
      CopiedWithoutAngle(s);
    }
  }

  /** A text that does not open with `<` keeps its first character. */
  lemma CopiedWithoutAngle(s: string)
    requires s != [] && s[0] != '<'
    ensures StripTags(s) == [s[0]] + StripTags(s[1..])
  {
    assert TagMatch(s) == None;
  }

  /** Removing tags never lengthens the text. */
  lemma {:induction false} StripTagsShorter(s: string)
    ensures |StripTags(s)| <= |s|
    decreases |s|
  {
    if s != [] {
      match TagMatch(s)
      case Some(n) =>
        StripTagsShorter(s[n..]);
      case None =>
        StripTagsShorter(s[1..]);
    }
  }

  /** Tags nested in text come out as a new tag: removal is not idempotent. */
  lemma StripTagsNotIdempotent()
    ensures StripTags("<a<b>c>") == "<ac>"
    ensures StripTags("<ac>") == ""
    ensures StripTags(StripTags("<a<b>c>")) != StripTags("<a<b>c>")
  {
    NestedTagExample();
    InnerTagExample();
  }

  lemma NestedTagExample()
    ensures StripTags("<a<b>c>") == "<ac>"
  {
    var s := "<a<b>c>";
    assert TagMatch(s) == None by {
      assert s[2] == '<';
    }
    assert s[1..] == "a<b>c>";
    assert TagMatch("a<b>c>") == None;
    assert "a<b>c>"[1..] == "<b>c>";
    assert TagMatch("<b>c>") == Some(3) by {
      assert IsTag("<b>c>"[..3]);
      TagMatchFindsTag("<b>c>", 3);
    }
    assert "<b>c>"[3..] == "c>";
    assert TagMatch("c>") == None;
    assert "c>"[1..] == ">";
    assert TagMatch(">") == None;
    assert ">"[1..] == "";
  }

  lemma InnerTagExample()
    ensures StripTags("<ac>") == ""
  {
    assert IsTag("<ac>"[..4]);
    TagMatchFindsTag("<ac>", 4);
    assert "<ac>"[4..] == "";
  }

  // ----- int(s) -----

  predicate IsDigit(c: char) {
    '0' <= c <= '9'
  }

  /** Decimal digits with single underscores between them, as `int()` accepts. */
  predicate ValidDigits(d: string) {
    |d| > 0 && IsDigit(d[0]) && IsDigit(d[|d| - 1]) &&
    (forall i :: 0 <= i < |d| ==> IsDigit(d[i]) || d[i] == '_') &&
    (forall i :: 0 <= i < |d| - 1 ==> !(d[i] == '_' && d[i + 1] == '_'))
  }

  /** The number the digits spell, underscores skipped. */
  function DigitsValue(d: string): nat
    decreases |d|
  {
    if d == [] then 0
    else if IsDigit(d[|d| - 1]) then DigitsValue(d[..|d| - 1]) * 10 + (d[|d| - 1] as int - '0' as int)
    else DigitsValue(d[..|d| - 1])
  }

  /** The digits in d, underscores not counted. */
  function DigitCount(d: string): nat
    decreases |d|
  {
    if d == [] then 0
    else DigitCount(d[..|d| - 1]) + (if IsDigit(d[|d| - 1]) then 1 else 0)
  }

  /**
   * The default of `sys.get_int_max_str_digits()` (CPython 3.11 and later):
   * `int()` of a decimal string with more digits, and `str()` of a number
   * with more digits, raise ValueError.
   */
  const MaxStrDigits := 4300

  /** `int(s)` for base 10 (ASCII digits); None where Python raises ValueError. */
  function ParseInt(s: string): (r: Option<int>)
    ensures r.Some? ==> PyStrip(s) != []
  {
    ParseStripped(PyStrip(s))
  }

  /** `int()` after the surrounding whitespace is gone: an optional sign, then at most 4300 digits. */
  function ParseStripped(t: string): (r: Option<int>)
    ensures r.Some? ==> t != []
  {
    if t == [] then None
    else if t[0] == '+' || t[0] == '-' then
      if ValidDigits(t[1..]) && DigitCount(t[1..]) <= MaxStrDigits then
        var v: int := if t[0] == '-' then -(DigitsValue(t[1..]) as int) else DigitsValue(t[1..]);
        Some(v)
      else None
    else if ValidDigits(t) && DigitCount(t) <= MaxStrDigits then Some(DigitsValue(t))
    else None
  }

  /** `int()` refuses a number of more than 4300 digits, sign and surrounding whitespace aside. */
  lemma ParseRejectsLong(s: string)
    requires DigitCount(PyStrip(s)) > MaxStrDigits
    ensures ParseInt(s).None?
  {
    var t := PyStrip(s);
    if t != [] && (t[0] == '+' || t[0] == '-') {
      assert t == [t[0]] + t[1..];
      DigitCountSplit([t[0]], t[1..]);
    }
  }

  lemma {:induction false} DigitCountSplit(a: string, b: string)
    ensures DigitCount(a + b) == DigitCount(a) + DigitCount(b)
    decreases |b|
  {
    if b == [] {
      assert a + b == a;
    } else {
      assert (a + b)[..|a + b| - 1] == a + b[..|b| - 1];
      DigitCountSplit(a, b[..|b| - 1]);
    }
  }

  lemma DigitIsPlain(c: char)
    requires IsDigit(c)
    ensures !IsPySpace(c) && c != '+' && c != '-'
  {
  }

  function DigitChar(n: nat): char
    requires n < 10
  {
    ('0' as int + n) as char
  }

  /** `str(n)` for a natural number. */
  function NatToString(n: nat): (s: string)
    ensures s != [] && IsDigit(s[0]) && IsDigit(s[|s| - 1])
    decreases n
  {
    if n < 10 then [DigitChar(n)] else NatToString(n / 10) + [DigitChar(n % 10)]
  }

  /** `str(n)`. */
  function IntToString(n: int): string {
    if n < 0 then "-" + NatToString(-n) else NatToString(n)
  }

  lemma {:induction false} NatToStringDigits(n: nat)
    ensures ValidDigits(NatToString(n)) && DigitsValue(NatToString(n)) == n
    ensures DigitCount(NatToString(n)) == |NatToString(n)|
    decreases n
  {
    var s := NatToString(n);
    if n >= 10 {
      var p := NatToString(n / 10);
      NatToStringDigits(n / 10);
      assert s[..|s| - 1] == p;
      assert forall i :: 0 <= i < |s| - 1 ==> s[i] == p[i];
    }
  }

  /** `str(n)` does not raise: the number has at most 4300 decimal digits. */
  predicate StrDefined(n: int) {
    |NatToString(if n < 0 then -n else n)| <= MaxStrDigits
  }

  /** `int(str(n)) == n`: every integer `str()` can write is read back. */
  lemma ParseIntOfString(n: int)
    requires StrDefined(n)
    ensures ParseInt(IntToString(n)) == Some(n)
  {
    var sign, d := DecimalForm(n);
    ParseDecimal(IntToString(n), sign, d, n);
  }

  /** `str(n)` is an optional minus sign followed by valid digits that spell |n|. */
  lemma DecimalForm(n: int) returns (sign: string, d: string)
    ensures IntToString(n) == sign + d && ValidDigits(d) && DigitCount(d) == |NatToString(if n < 0 then -n else n)|
    ensures (n < 0 && sign == "-" && DigitsValue(d) as int == -n) || (n >= 0 && sign == "" && DigitsValue(d) == n)
  {
    if n < 0 {
      sign, d := "-", NatToString(-n);
      NatToStringDigits(-n);
    } else {
      sign, d := "", NatToString(n);
      NatToStringDigits(n);
      assert sign + d == d;
    }
  }

  lemma ParseDecimal(s: string, sign: string, d: string, n: int)
    requires s == sign + d && ValidDigits(d) && DigitCount(d) <= MaxStrDigits
    requires (n < 0 && sign == "-" && DigitsValue(d) as int == -n) || (n >= 0 && sign == "" && DigitsValue(d) == n)
    ensures ParseInt(s) == Some(n)
  {
    if n < 0 {
      ParseNegative(d);
    } else {
      assert s == d;
      ParseUnsigned(d);
    }
  }

  lemma ParseUnsigned(d: string)
    requires ValidDigits(d) && DigitCount(d) <= MaxStrDigits
    ensures ParseInt(d) == Some(DigitsValue(d))
  {
    DigitIsPlain(d[0]);
    DigitIsPlain(d[|d| - 1]);
    PyStripOfClean(d);
  }

  lemma ParseNegative(d: string)
    requires ValidDigits(d) && DigitCount(d) <= MaxStrDigits
    ensures ParseInt("-" + d) == Some(-(DigitsValue(d) as int))
  {
    var s := "-" + d;
    assert s[|s| - 1] == d[|d| - 1];
    DigitIsPlain(d[|d| - 1]);
    PyStripOfClean(s);
    assert s[1..] == d;
  }

  /** Surrounding whitespace is ignored. */
  lemma ParseIntIgnoresSpace(s: string)
    ensures ParseInt(PyStrip(s)) == ParseInt(s)
  {
    PyStripIdempotent(s);
  }
}
