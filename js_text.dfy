/**
 * The pieces of ECMAScript string semantics the scripts rely on: the
 * characters `.` refuses to match (LineTerminator), and
 * String.prototype.trim, which removes WhiteSpace and LineTerminator
 * characters from both ends (ECMAScript sections 12.2, 12.3 and 22.1.3.32).
 */
module JsText {

  /** LineTerminator: LF, CR, LINE SEPARATOR, PARAGRAPH SEPARATOR. */
  predicate IsLineTerminator(c: char) {
    c == '\n' || c == '\r' || c == '\U{2028}' || c == '\U{2029}'
  }

  /** WhiteSpace (TAB, VT, FF, ZWNBSP and the Zs category) or LineTerminator. */
  predicate IsWhitespace(c: char) {
    IsLineTerminator(c) ||
    c == '\t' || c == '\U{000B}' || c == '\U{000C}' || c == ' ' || c == '\U{00A0}' ||
    c == '\U{FEFF}' || c == '\U{1680}' || ('\U{2000}' <= c <= '\U{200A}') ||
    c == '\U{202F}' || c == '\U{205F}' || c == '\U{3000}'
  }

  predicate AllWhitespace(s: string) {
    forall i :: 0 <= i < |s| ==> IsWhitespace(s[i])
  }

  /** s with its leading whitespace removed. */
  function TrimStart(s: string): (r: string)
    ensures |r| <= |s| && r == s[|s| - |r|..]
    ensures r == [] || !IsWhitespace(r[0])
  {
    if |s| > 0 && IsWhitespace(s[0]) then TrimStart(s[1..]) else s
  }

  /** s with its trailing whitespace removed. */
  function TrimEnd(s: string): (r: string)
    ensures |r| <= |s| && r == s[..|r|]
    ensures r == [] || !IsWhitespace(r[|r| - 1])
  {
    if |s| > 0 && IsWhitespace(s[|s| - 1]) then TrimEnd(s[..|s| - 1]) else s
  }

  /** Only whitespace is removed from the front. */
  lemma {:induction false} TrimStartRemovesWhitespace(s: string)
    ensures AllWhitespace(s[..|s| - |TrimStart(s)|])
    decreases |s|
  {
    if |s| > 0 && IsWhitespace(s[0]) {
      TrimStartRemovesWhitespace(s[1..]);
      assert s[..|s| - |TrimStart(s)|] == [s[0]] + s[1..][..|s| - 1 - |TrimStart(s)|];
    }
  }

  /** Only whitespace is removed from the back. */
  lemma {:induction false} TrimEndRemovesWhitespace(s: string)
    ensures AllWhitespace(s[|TrimEnd(s)|..])
    decreases |s|
  {
    if |s| > 0 && IsWhitespace(s[|s| - 1]) {
      TrimEndRemovesWhitespace(s[..|s| - 1]);
      assert s[|TrimEnd(s)|..] == s[..|s| - 1][|TrimEnd(s)|..] + [s[|s| - 1]];
    }
  }

  /** String.prototype.trim. */
  function Trim(s: string): string {
    TrimStart(TrimEnd(s))
  }

  /** Leading whitespace never reaches past a non-whitespace character of u. */
  lemma {:induction false} TrimStartAppend(u: string, v: string, i: nat)
    requires i < |u| && !IsWhitespace(u[i])
    ensures TrimStart(u + v) == TrimStart(u) + v
    decreases |u|
  {
    if IsWhitespace(u[0]) {
      assert (u + v)[1..] == u[1..] + v;
      TrimStartAppend(u[1..], v, i - 1);
    }
  }

  /** Trimming the front stops at the first non-whitespace character. */
  lemma {:induction false} TrimStartStopsAt(s: string, i: nat)
    requires i < |s| && !IsWhitespace(s[i])
    ensures |TrimStart(s)| >= |s| - i
    decreases i
  {
    if IsWhitespace(s[0]) {
      TrimStartStopsAt(s[1..], i - 1);
    }
  }

  /** Trailing whitespace of v is all that goes when u ends in non-whitespace. */
  lemma {:induction false} TrimEndAppend(u: string, v: string)
    requires |u| > 0 && !IsWhitespace(u[|u| - 1])
    ensures TrimEnd(u + v) == u + TrimEnd(v)
    decreases |v|
  {
    var w := u + v;
    if |v| == 0 {
      assert w == u;
    } else if IsWhitespace(v[|v| - 1]) {
      assert w[..|w| - 1] == u + v[..|v| - 1];
      TrimEndAppend(u, v[..|v| - 1]);
    } else {
      assert w[|w| - 1] == v[|v| - 1];
    }
  }
}
