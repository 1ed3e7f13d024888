/**
 * The `.env` rewrite performed by the `/callback` handler of
 * scripts/get-kakao-token.js once a token pair has been issued: both token
 * entries are deleted, runs of blank lines are collapsed, a comment line and
 * the two new entries are appended, and the text is trimmed and terminated
 * by one line feed.
 *
 * The two `replace` calls with `/KEY=.*\/g` are modelled by RemoveEntries,
 * the blank-run collapse `/\n\n+/g` by CollapseBlankRuns; both scan from
 * left to right exactly as the regular-expression engine does, taking the
 * leftmost match, consuming it greedily and resuming after it.
 */
module TokenStore {
  import opened Wrappers
  import opened Substrings
  import opened JsText

  const AccessKey := "KAKAO_ACCESS_TOKEN="
  const RefreshKey := "KAKAO_REFRESH_TOKEN="
  /** The fixed text that opens every generated comment line. */
  const CommentMarker := "# Kakao Tokens (Generated:"

  predicate NoLineTerminator(s: string) {
    forall i :: 0 <= i < |s| ==> !IsLineTerminator(s[i])
  }

  predicate NoLineFeed(s: string) {
    '\n' !in s
  }

  /** What `.*` consumes: the longest prefix free of line terminators. */
  function SkipToLineEnd(t: string): (r: string)
    ensures |r| <= |t| && r == t[|t| - |r|..]
    ensures NoLineTerminator(t[..|t| - |r|])
    ensures r == [] || IsLineTerminator(r[0])
  {
    if t == [] || IsLineTerminator(t[0]) then t else SkipToLineEnd(t[1..])
  }

  /** `s.replace(/<key>.*\/g, '')`: every occurrence of key up to the next line terminator deleted. */
  function RemoveEntries(s: string, key: string): string
    requires |key| > 0
    decreases |s|
  {
    if s == [] then []
    else if key <= s then RemoveEntries(SkipToLineEnd(s[|key|..]), key)
    else [s[0]] + RemoveEntries(s[1..], key)
  }

  /** Line feeds at the start of t dropped. */
  function DropLineFeeds(t: string): (r: string)
    ensures |r| <= |t| && r == t[|t| - |r|..]
    ensures r == [] || r[0] != '\n'
  {
    if t != [] && t[0] == '\n' then DropLineFeeds(t[1..]) else t
  }

  /** `s.replace(/\n\n+/g, '\n\n')`: every run of two or more line feeds becomes exactly two. */
  function CollapseBlankRuns(s: string): string
    decreases |s|
  {
    if |s| >= 2 && s[0] == '\n' && s[1] == '\n' then "\n\n" + CollapseBlankRuns(DropLineFeeds(s[2..]))
    else if s == [] then []
    else [s[0]] + CollapseBlankRuns(s[1..])
  }

  /** s contains three consecutive line feeds somewhere. */
  predicate HasTripleNewline(s: string)
    decreases |s|
  {
    |s| >= 3 && ((s[0] == '\n' && s[1] == '\n' && s[2] == '\n') || HasTripleNewline(s[1..]))
  }

  /** The characters of s other than line feeds, in order. */
  function NonLineFeeds(s: string): string
    decreases |s|
  {
    if s == [] then [] else (if s[0] == '\n' then [] else [s[0]]) + NonLineFeeds(s[1..])
  }

  /** Lines 114-116: the old entries removed and blank runs collapsed. */
  function StripTokenEntries(content: string): string {
    CollapseBlankRuns(RemoveEntries(RemoveEntries(content, AccessKey), RefreshKey))
  }

  /** The comment line of line 119, with the line feed that precedes it. */
  function CommentLine(generatedAt: string): string {
    "\n" + CommentMarker + " " + generatedAt + ")"
  }

  /** Lines 119-121: the text appended after the old entries are gone. */
  function TokenBlock(generatedAt: string, accessToken: string, refreshToken: string): string {
    CommentLine(generatedAt) + "\n" + AccessKey + accessToken + "\n" + RefreshKey + refreshToken + "\n"
  }

  /** Lines 114-123: the text written back to the store, given its previous content. */
  function Rewrite(content: string, generatedAt: string, accessToken: string, refreshToken: string): string {
    Trim(StripTokenEntries(content) + TokenBlock(generatedAt, accessToken, refreshToken)) + "\n"
  }

  /**
   * The handler's update of `envContent`, one reassignment per source line
   * (107-123); a missing file reads as the empty string.
   */
  method UpdateEnvContent(existing: Option<string>, generatedAt: string, accessToken: string, refreshToken: string)
    returns (written: string)
    ensures written == Rewrite(existing.GetOr(""), generatedAt, accessToken, refreshToken)
  {
    var envContent := "";
    if existing.Some? {
      envContent := existing.value;
    }
    envContent := RemoveEntries(envContent, AccessKey);
    envContent := RemoveEntries(envContent, RefreshKey);
    envContent := CollapseBlankRuns(envContent);
    ghost var stripped := envContent;
    envContent := envContent + "\n" + CommentMarker + " " + generatedAt + ")\n";
    envContent := envContent + AccessKey + accessToken + "\n";
    envContent := envContent + RefreshKey + refreshToken + "\n";
    AppendedBlock(stripped, CommentMarker, generatedAt, AccessKey, accessToken, RefreshKey, refreshToken);
    written := Trim(envContent) + "\n";
  }

  /** The three appends of lines 119-121 add the block `TokenBlock` describes. */
  lemma AppendedBlock(s: string, marker: string, generatedAt: string, k1: string, a: string, k2: string, r: string)
    ensures s + "\n" + marker + " " + generatedAt + ")\n" + k1 + a + "\n" + k2 + r + "\n"
         == s + ("\n" + marker + " " + generatedAt + ")" + "\n" + k1 + a + "\n" + k2 + r + "\n")
  {
    assert ")\n" == ")" + "\n";
  }

  predicate TokenFree(s: string) {
    Count(s, AccessKey) == 0 && Count(s, RefreshKey) == 0
  }

  // ----- RemoveEntries -----

  /** A line-terminator-free prefix of the output is a prefix of the input. */
  lemma {:induction false} RemoveEntriesPrefix(p: string, t: string, key: string)
    requires |key| > 0 && NoLineTerminator(key) && NoLineTerminator(p)
    requires p <= RemoveEntries(t, key)
    ensures p <= t
    decreases |t|
  {
    if t != [] && p != [] {
      if key <= t {
        TerminatorKept(SkipToLineEnd(t[|key|..]), key);
      } else {
        RemoveEntriesPrefix(p[1..], t[1..], key);
      }
    }
  }

  /** What is left after an entry starts at the line terminator that ended it. */
  lemma TerminatorKept(u: string, key: string)
    requires |key| > 0 && NoLineTerminator(key) && (u == [] || IsLineTerminator(u[0]))
    ensures RemoveEntries(u, key) == [] || IsLineTerminator(RemoveEntries(u, key)[0])
  {
    if u != [] {
      assert key[0] != u[0];
    }
  }

  /** After the replace, the key occurs nowhere. */
  lemma {:induction false} RemoveEntriesClears(s: string, key: string)
    requires |key| > 0 && NoLineTerminator(key)
    ensures Count(RemoveEntries(s, key), key) == 0
    decreases |s|
  {
    if s != [] {
      if key <= s {
        RemoveEntriesClears(SkipToLineEnd(s[|key|..]), key);
      } else {
        var r := RemoveEntries(s[1..], key);
        RemoveEntriesClears(s[1..], key);
        var w := [s[0]] + r;
        if key[1..] <= r {
          RemoveEntriesPrefix(key[1..], s[1..], key);
        }
        assert w[1..] == r;
      }
    }
  }

  /** Deleting entries of one key never creates an occurrence of another. */
  lemma {:induction false} RemoveEntriesNoNew(s: string, key: string, other: string)
    requires |key| > 0 && NoLineTerminator(key)
    requires |other| > 0 && NoLineTerminator(other)
    ensures Count(RemoveEntries(s, key), other) <= Count(s, other)
    decreases |s|
  {
    if s != [] {
      if key <= s {
        var u := SkipToLineEnd(s[|key|..]);
        RemoveEntriesNoNew(u, key, other);
        CountSkipped(s, |key|, u, other);
      } else {
        var r := RemoveEntries(s[1..], key);
        RemoveEntriesNoNew(s[1..], key, other);
        if other[1..] <= r {
          RemoveEntriesPrefix(other[1..], s[1..], key);
        }
        CountConsBound(s[0], r, s[1..], other);
        assert [s[0]] + s[1..] == s;
      }
    }
  }

  /** A suffix of a suffix of s has no more occurrences than s. */
  lemma CountSkipped(s: string, k: nat, u: string, other: string)
    requires k <= |s| && |u| <= |s| - k && u == s[k..][|s| - k - |u|..]
    ensures Count(u, other) <= Count(s, other)
  {
    assert u == s[|s| - |u|..];
    CountSuffix(s, |s| - |u|, other);
  }

  /** Putting the same character in front keeps a bound between counts when r's match implies t's. */
  lemma CountConsBound(c: char, r: string, t: string, other: string)
    requires |other| > 0 && Count(r, other) <= Count(t, other)
    requires other[1..] <= r ==> other[1..] <= t
    ensures Count([c] + r, other) <= Count([c] + t, other)
  {
    assert ([c] + r)[1..] == r;
    assert ([c] + t)[1..] == t;
  }

  /**
   * The pattern is not anchored to the start of a line: on a line whose key
   * merely ends with the pattern, everything from the pattern on is deleted.
   */
  lemma {:induction false} EmbeddedKeyCut(p: string, key: string, value: string)
    requires |key| > 0 && NoLineTerminator(value) && key[0] !in p
    ensures RemoveEntries(p + key + value, key) == p
    decreases |p|
  {
    var s := p + key + value;
    if p == [] {
      assert key <= s && s[|key|..] == value;
      assert SkipToLineEnd(value) == [];
    } else {
      assert s[0] == p[0] && s[1..] == p[1..] + key + value;
      assert key[0] !in p[1..];
      EmbeddedKeyCut(p[1..], key, value);
    }
  }

  /** A concrete case: the line `OLD_KAKAO_ACCESS_TOKEN=x` is cut down to `OLD_`. */
  lemma UnrelatedKeyCut()
    ensures RemoveEntries("OLD_" + AccessKey + "x", AccessKey) == "OLD_"
  {
    assert AccessKey[0] == 'K';
    EmbeddedKeyCut("OLD_", AccessKey, "x");
  }

  /** A text without the key is left as it is. */
  lemma {:induction false} RemoveEntriesIdentity(s: string, key: string)
    requires |key| > 0 && Count(s, key) == 0
    ensures RemoveEntries(s, key) == s
    decreases |s|
  {
    if s != [] {
      RemoveEntriesIdentity(s[1..], key);
    }
  }

  lemma {:induction false} SkipToLineEndSplit(w: string, v: string)
    ensures SkipToLineEnd(w + "\n" + v) == SkipToLineEnd(w) + "\n" + v
    decreases |w|
  {
    if w != [] && !IsLineTerminator(w[0]) {
      assert (w + "\n" + v)[1..] == w[1..] + "\n" + v;
      SkipToLineEndSplit(w[1..], v);
    }
  }

  /**
   * The replace works line by line: what stands before a line feed and what
   * stands after it are processed independently, and the line feed stays.
   */
  lemma {:induction false} RemoveEntriesSplit(u: string, v: string, key: string)
    requires |key| > 0 && NoLineTerminator(key)
    ensures RemoveEntries(u + "\n" + v, key) == RemoveEntries(u, key) + "\n" + RemoveEntries(v, key)
    decreases |u|
  {
    var w := u + "\n" + v;
    if u == [] {
      assert w == "\n" + v;
      assert key[0] != w[0];
      assert w[1..] == v;
    } else if key <= u {
      var u' := SkipToLineEnd(u[|key|..]);
      SplitMatchStep(u, v, key);
      RemoveEntriesSplit(u', v, key);
    } else {
      SplitNoMatchStep(u, v, key);
      RemoveEntriesSplit(u[1..], v, key);
    }
  }

  lemma SplitMatchStep(u: string, v: string, key: string)
    requires |key| > 0 && key <= u
    ensures RemoveEntries(u + "\n" + v, key) == RemoveEntries(SkipToLineEnd(u[|key|..]) + "\n" + v, key)
    ensures RemoveEntries(u, key) == RemoveEntries(SkipToLineEnd(u[|key|..]), key)
  {
    var w := u + "\n" + v;
    assert key <= w;
    assert w[|key|..] == u[|key|..] + "\n" + v;
    SkipToLineEndSplit(u[|key|..], v);
  }

  lemma SplitNoMatchStep(u: string, v: string, key: string)
    requires |key| > 0 && NoLineTerminator(key) && u != [] && !(key <= u)
    ensures RemoveEntries(u + "\n" + v, key) == [u[0]] + RemoveEntries(u[1..] + "\n" + v, key)
    ensures RemoveEntries(u, key) == [u[0]] + RemoveEntries(u[1..], key)
  {
    var w := u + "\n" + v;
    if |key| > |u| {
      assert key[|u|] != w[|u|];
    }
    assert w[1..] == u[1..] + "\n" + v;
  }

  lemma {:induction false} SkipValue(value: string, rest: string)
    requires NoLineTerminator(value) && rest != [] && IsLineTerminator(rest[0])
    ensures SkipToLineEnd(value + rest) == rest
    decreases |value|
  {
    if value != [] {
      assert (value + rest)[1..] == value[1..] + rest;
      SkipValue(value[1..], rest);
    } else {
      assert value + rest == rest;
    }
  }

  /**
   * An entry ends at the first line terminator of any kind: on a CRLF file
   * the carriage return of a deleted entry stays behind.
   */
  lemma RemoveEntryStopsAtTerminator(key: string, value: string, t: char, rest: string)
    requires |key| > 0 && NoLineTerminator(key) && NoLineTerminator(value) && IsLineTerminator(t)
    ensures RemoveEntries(key + value + [t] + rest, key) == [t] + RemoveEntries(rest, key)
  {
    var s := key + value + [t] + rest;
    assert key <= s;
    assert s[|key|..] == value + ([t] + rest);
    SkipValue(value, [t] + rest);
    RemoveEntriesAtTerminator([t] + rest, key);
    assert ([t] + rest)[1..] == rest;
  }

  lemma RemoveEntriesAtTerminator(x: string, key: string)
    requires |key| > 0 && NoLineTerminator(key) && x != [] && IsLineTerminator(x[0])
    ensures RemoveEntries(x, key) == [x[0]] + RemoveEntries(x[1..], key)
  {
    assert key[0] != x[0];
  }

  // ----- CollapseBlankRuns -----

  lemma CollapseHead(t: string)
    requires t != []
    ensures CollapseBlankRuns(t) != [] && CollapseBlankRuns(t)[0] == t[0]
  {
  }

  /** For a pattern without line feeds, being a prefix survives the collapse both ways. */
  lemma {:induction false} CollapsePrefix(p: string, t: string)
    requires NoLineFeed(p)
    ensures p <= CollapseBlankRuns(t) <==> p <= t
    decreases |t|
  {
    if t != [] && p != [] {
      CollapseHead(t);
      if !(|t| >= 2 && t[0] == '\n' && t[1] == '\n') {
        CollapsePrefix(p[1..], t[1..]);
        assert CollapseBlankRuns(t)[1..] == CollapseBlankRuns(t[1..]);
      } else {
        assert p[0] in p;
      }
    }
  }

  lemma {:induction false} CountDropLineFeeds(t: string, key: string)
    requires |key| > 0 && NoLineFeed(key)
    ensures Count(DropLineFeeds(t), key) == Count(t, key)
    decreases |t|
  {
    if t != [] && t[0] == '\n' {
      assert key[0] in key;
      CountDropLineFeeds(t[1..], key);
    }
  }

  /** Collapsing blank runs neither creates nor destroys an occurrence of a line-feed-free pattern. */
  lemma {:induction false} CollapseCount(s: string, key: string)
    requires |key| > 0 && NoLineFeed(key)
    ensures Count(CollapseBlankRuns(s), key) == Count(s, key)
    decreases |s|
  {
    if |s| >= 2 && s[0] == '\n' && s[1] == '\n' {
      CollapseCount(DropLineFeeds(s[2..]), key);
      CollapseCountRun(s, key);
    } else if s != [] {
      CollapseCount(s[1..], key);
      CollapsePrefix(key, s);
      assert CollapseBlankRuns(s)[1..] == CollapseBlankRuns(s[1..]);
    }
  }

  /** The step of CollapseCount for a text that opens with a blank run. */
  lemma CollapseCountRun(s: string, key: string)
    requires |key| > 0 && NoLineFeed(key)
    requires |s| >= 2 && s[0] == '\n' && s[1] == '\n'
    requires Count(CollapseBlankRuns(DropLineFeeds(s[2..])), key) == Count(DropLineFeeds(s[2..]), key)
    ensures Count(CollapseBlankRuns(s), key) == Count(s, key)
  {
    var c := CollapseBlankRuns(DropLineFeeds(s[2..]));
    assert CollapseBlankRuns(s) == "\n\n" + c;
    CountDropLineFeeds(s[2..], key);
    CountLeadingLineFeed("\n\n" + c, key);
    CountLeadingLineFeed("\n" + c, key);
    CountLeadingLineFeed(s, key);
    CountLeadingLineFeed(s[1..], key);
    assert ("\n\n" + c)[1..] == "\n" + c;
    assert ("\n" + c)[1..] == c;
    assert s[1..][1..] == s[2..];
  }

  lemma CountLeadingLineFeed(t: string, key: string)
    requires |key| > 0 && NoLineFeed(key) && t != [] && t[0] == '\n'
    ensures Count(t, key) == Count(t[1..], key)
  {
    assert key[0] in key;
  }

  /** After line 116 no three line feeds follow one another. */
  lemma {:induction false} CollapseNoTriple(s: string)
    ensures !HasTripleNewline(CollapseBlankRuns(s))
    decreases |s|
  {
    if |s| >= 2 && s[0] == '\n' && s[1] == '\n' {
      var d := DropLineFeeds(s[2..]);
      var c := CollapseBlankRuns(d);
      CollapseNoTriple(d);
      if d != [] { CollapseHead(d); }
      assert ("\n\n" + c)[1..] == "\n" + c;
      assert ("\n" + c)[1..] == c;
    } else if s != [] {
      var c := CollapseBlankRuns(s[1..]);
      CollapseNoTriple(s[1..]);
      if |s| >= 2 { CollapseHead(s[1..]); }
      assert ([s[0]] + c)[1..] == c;
    }
  }

  /** Collapsing is the identity on texts without a run of three line feeds; in particular it is idempotent. */
  lemma {:induction false} CollapseIdentity(s: string)
    requires !HasTripleNewline(s)
    ensures CollapseBlankRuns(s) == s
    decreases |s|
  {
    if |s| >= 2 && s[0] == '\n' && s[1] == '\n' {
      assert DropLineFeeds(s[2..]) == s[2..];
      assert s[1..][1..] == s[2..];
      CollapseIdentity(s[2..]);
    } else if s != [] {
      CollapseIdentity(s[1..]);
    }
  }

  lemma {:induction false} NonLineFeedsDrop(t: string)
    ensures NonLineFeeds(DropLineFeeds(t)) == NonLineFeeds(t)
    decreases |t|
  {
    if t != [] && t[0] == '\n' {
      NonLineFeedsDrop(t[1..]);
    }
  }

  /** The collapse deletes line feeds and nothing else: every other character stays, in order. */
  lemma {:induction false} CollapseKeepsOtherCharacters(s: string)
    ensures NonLineFeeds(CollapseBlankRuns(s)) == NonLineFeeds(s)
    decreases |s|
  {
    if |s| >= 2 && s[0] == '\n' && s[1] == '\n' {
      var d := DropLineFeeds(s[2..]);
      CollapseKeepsOtherCharacters(d);
      NonLineFeedsDrop(s[2..]);
      NonLineFeedsAfterRun(s[2..]);
      NonLineFeedsAfterRun(CollapseBlankRuns(d));
    } else if s != [] {
      CollapseKeepsOtherCharacters(s[1..]);
      NonLineFeedsCons(s[0], CollapseBlankRuns(s[1..]));
    }
  }

  lemma NonLineFeedsCons(c: char, t: string)
    ensures NonLineFeeds([c] + t) == (if c == '\n' then [] else [c]) + NonLineFeeds(t)
  {
    assert ([c] + t)[1..] == t;
  }

  lemma NonLineFeedsAfterRun(t: string)
    ensures NonLineFeeds("\n\n" + t) == NonLineFeeds(t)
  {
    NonLineFeedsCons('\n', t);
    NonLineFeedsCons('\n', "\n" + t);
    assert "\n\n" + t == ['\n'] + ("\n" + t);
  }

  // ----- the written file -----

  /** The comment line, the two entries and the line feed that close the file. */
  function StoreTail(generatedAt: string, accessToken: string, refreshToken: string): string {
    CommentMarker + " " + generatedAt + ")" + "\n" + AccessKey + accessToken + "\n" + RefreshKey + refreshToken + "\n"
  }

  /**
   * The file written at line 123: the trimmed remainder of the old content
   * with the comment line, then the two entries; trimming can reach into
   * the appended block only at the refresh token's trailing whitespace.
   */
  lemma RewriteLayout(content: string, generatedAt: string, accessToken: string, refreshToken: string)
    ensures Rewrite(content, generatedAt, accessToken, refreshToken)
         == TrimStart(StripTokenEntries(content) + CommentLine(generatedAt)) + "\n"
            + AccessKey + accessToken + "\n" + RefreshKey + TrimEnd(refreshToken) + "\n"
  {
    AppendedLayout(StripTokenEntries(content), generatedAt, accessToken, refreshToken);
  }

  /** RewriteLayout for any remainder x of the old content. */
  lemma AppendedLayout(x: string, generatedAt: string, accessToken: string, refreshToken: string)
    ensures Trim(x + TokenBlock(generatedAt, accessToken, refreshToken)) + "\n"
         == TrimStart(x + CommentLine(generatedAt)) + "\n"
            + AccessKey + accessToken + "\n" + RefreshKey + TrimEnd(refreshToken) + "\n"
  {
    var cl := CommentLine(generatedAt);
    assert cl[1] == '#';
    assert RefreshKey[|RefreshKey| - 1] == '=';
    TrimBlock(x, cl, AccessKey, accessToken, RefreshKey, refreshToken, 1);
  }

  /** Trimming x + cl + "\n" + k1 + a + "\n" + k2 + r + "\n" when cl[i] and the last of k2 are not whitespace. */
  lemma TrimBlock(x: string, cl: string, k1: string, a: string, k2: string, r: string, i: nat)
    requires i < |cl| && !IsWhitespace(cl[i])
    requires |k2| > 0 && !IsWhitespace(k2[|k2| - 1])
    ensures Trim(x + (cl + "\n" + k1 + a + "\n" + k2 + r + "\n")) + "\n"
         == TrimStart(x + cl) + "\n" + k1 + a + "\n" + k2 + TrimEnd(r) + "\n"
  {
    RegroupBlock(x, cl, k1, a, k2, r);
    assert (x + cl)[|x| + i] == cl[i];
    TrimAroundBlock(x + cl, k1 + a, k2, r, |x| + i);
    RegroupTail(TrimStart(x + cl), k1, a, k2, TrimEnd(r));
  }

  lemma RegroupBlock(x: string, cl: string, k1: string, a: string, k2: string, r: string)
    ensures x + (cl + "\n" + k1 + a + "\n" + k2 + r + "\n") == (x + cl) + "\n" + (k1 + a) + "\n" + k2 + r + "\n"
  {
  }

  lemma RegroupTail(t: string, k1: string, a: string, k2: string, r: string)
    ensures t + ("\n" + (k1 + a) + "\n" + k2 + r) + "\n" == t + "\n" + k1 + a + "\n" + k2 + r + "\n"
  {
  }

  /** Trimming h + "\n" + e + "\n" + k + r + "\n" when h[i] and the last of k are not whitespace. */
  lemma TrimAroundBlock(h: string, e: string, k: string, r: string, i: nat)
    requires i < |h| && !IsWhitespace(h[i])
    requires |k| > 0 && !IsWhitespace(k[|k| - 1])
    ensures Trim(h + "\n" + e + "\n" + k + r + "\n") == TrimStart(h) + ("\n" + e + "\n" + k + TrimEnd(r))
  {
    TrimEndOfBlock(h, e, k, r);
    TrimStartAppend(h, "\n" + e + "\n" + k + TrimEnd(r), i);
  }

  lemma TrimEndOfBlock(h: string, e: string, k: string, r: string)
    requires |k| > 0 && !IsWhitespace(k[|k| - 1])
    ensures TrimEnd(h + "\n" + e + "\n" + k + r + "\n") == h + ("\n" + e + "\n" + k + TrimEnd(r))
  {
    var head := h + "\n" + e + "\n" + k;
    RegroupBlockHead(h, e, k, r);
    RegroupBlockHead(h, e, k, TrimEnd(r));
    TrimEndRemovesLineFeed(head, r);
  }

  lemma RegroupBlockHead(h: string, e: string, k: string, r: string)
    requires |k| > 0
    ensures var head := h + "\n" + e + "\n" + k;
      |head| > 0 && head[|head| - 1] == k[|k| - 1] &&
      h + "\n" + e + "\n" + k + r + "\n" == head + (r + "\n") &&
      head + r == h + ("\n" + e + "\n" + k + r)
  {
  }

  lemma TrimEndRemovesLineFeed(head: string, r: string)
    requires |head| > 0 && !IsWhitespace(head[|head| - 1])
    ensures TrimEnd(head + (r + "\n")) == head + TrimEnd(r)
  {
    TrimEndAppend(head, r + "\n");
    assert (r + "\n")[..|r|] == r;
  }

  /**
   * What the file looks like whatever its previous content: no leading
   * whitespace, exactly one final line feed, and the comment line with both
   * entries at the end (the refresh token without its trailing whitespace).
   */
  lemma RewriteShape(content: string, generatedAt: string, accessToken: string, refreshToken: string)
    ensures var w := Rewrite(content, generatedAt, accessToken, refreshToken);
      var t := StoreTail(generatedAt, accessToken, TrimEnd(refreshToken));
      |w| >= 2 && !IsWhitespace(w[0]) && w[|w| - 1] == '\n' && !IsWhitespace(w[|w| - 2]) &&
      |t| <= |w| && w[|w| - |t|..] == t
  {
    RewriteLayout(content, generatedAt, accessToken, refreshToken);
    AppendedShape(StripTokenEntries(content), generatedAt, accessToken, TrimEnd(refreshToken));
  }

  /** For a refresh token without trailing whitespace the file ends with exactly the appended block. */
  lemma RewriteEndsWithTokens(content: string, generatedAt: string, accessToken: string, refreshToken: string)
    requires refreshToken == [] || !IsWhitespace(refreshToken[|refreshToken| - 1])
    ensures var w := Rewrite(content, generatedAt, accessToken, refreshToken);
      var t := StoreTail(generatedAt, accessToken, refreshToken);
      |t| <= |w| && w[|w| - |t|..] == t
  {
    RewriteShape(content, generatedAt, accessToken, refreshToken);
    assert TrimEnd(refreshToken) == refreshToken;
  }

  lemma AppendedShape(x: string, generatedAt: string, accessToken: string, r: string)
    requires r == [] || !IsWhitespace(r[|r| - 1])
    ensures var w := TrimStart(x + CommentLine(generatedAt)) + "\n" + AccessKey + accessToken + "\n" + RefreshKey + r + "\n";
      var t := StoreTail(generatedAt, accessToken, r);
      |w| >= 2 && !IsWhitespace(w[0]) && w[|w| - 1] == '\n' && !IsWhitespace(w[|w| - 2]) &&
      |t| <= |w| && w[|w| - |t|..] == t
  {
    var cl := CommentLine(generatedAt);
    CommentLineBody(generatedAt);
    TrimmedEndsWith(x, cl);
    assert RefreshKey[|RefreshKey| - 1] == '=';
    FileShape(TrimStart(x + cl), CommentMarker + " " + generatedAt + ")", AccessKey, accessToken, RefreshKey, r);
  }

  lemma CommentLineBody(generatedAt: string)
    ensures CommentLine(generatedAt) == "\n" + (CommentMarker + " " + generatedAt + ")")
    ensures CommentLine(generatedAt)[1] == '#'
    ensures CommentLine(generatedAt)[1..] == CommentMarker + " " + generatedAt + ")"
  {
  }

  /** TrimStart(x + cl) keeps all of cl but its first character when cl[1] is not whitespace. */
  lemma TrimmedEndsWith(x: string, cl: string)
    requires |cl| >= 2 && !IsWhitespace(cl[1])
    ensures var y := TrimStart(x + cl);
      y != [] && !IsWhitespace(y[0]) && |cl| - 1 <= |y| && y[|y| - (|cl| - 1)..] == cl[1..]
  {
    var h := x + cl;
    assert h[|x| + 1] == cl[1];
    TrimStartStopsAt(h, |x| + 1);
    var y := TrimStart(h);
    assert y == h[|h| - |y|..];
    assert h[|h| - (|cl| - 1)..] == cl[1..];
  }

  /** The shape facts for y + "\n" + k1 + a + "\n" + k2 + r + "\n" once y ends in c. */
  lemma FileShape(y: string, c: string, k1: string, a: string, k2: string, r: string)
    requires y != [] && !IsWhitespace(y[0]) && |c| <= |y| && y[|y| - |c|..] == c
    requires |k2| > 0 && !IsWhitespace(k2[|k2| - 1]) && (r == [] || !IsWhitespace(r[|r| - 1]))
    ensures var w := y + "\n" + k1 + a + "\n" + k2 + r + "\n";
      var t := c + "\n" + k1 + a + "\n" + k2 + r + "\n";
      |w| >= 2 && !IsWhitespace(w[0]) && w[|w| - 1] == '\n' && !IsWhitespace(w[|w| - 2]) &&
      |t| <= |w| && w[|w| - |t|..] == t
  {
    var w := y + "\n" + k1 + a + "\n" + k2 + r + "\n";
    var rest := "\n" + k1 + a + "\n" + k2 + r + "\n";
    assert w == y + rest;
    assert c + "\n" + k1 + a + "\n" + k2 + r + "\n" == c + rest;
    assert w[0] == y[0];
    if r == [] {
      assert w[|w| - 2] == k2[|k2| - 1];
    } else {
      assert w[|w| - 2] == r[|r| - 1];
    }
  }

  // ----- each key is written once -----

  /**
   * When the generated timestamp and both tokens are free of the two keys,
   * the written file holds exactly one access-token entry and exactly one
   * refresh-token entry, whatever the previous content held.
   */
  lemma RewriteKeysOnce(content: string, generatedAt: string, accessToken: string, refreshToken: string)
    requires TokenFree(generatedAt) && TokenFree(accessToken) && TokenFree(refreshToken)
    ensures Count(Rewrite(content, generatedAt, accessToken, refreshToken), AccessKey) == 1
    ensures Count(Rewrite(content, generatedAt, accessToken, refreshToken), RefreshKey) == 1
  {
    RewriteLayout(content, generatedAt, accessToken, refreshToken);
    StrippedHasNoKeys(content);
    AccessKeyOnce(StripTokenEntries(content), generatedAt, accessToken, refreshToken);
    RefreshKeyOnce(StripTokenEntries(content), generatedAt, accessToken, refreshToken);
  }

  lemma AccessKeyOnce(stripped: string, generatedAt: string, accessToken: string, refreshToken: string)
    requires Count(stripped, AccessKey) == 0 && Count(generatedAt, AccessKey) == 0
    requires Count(accessToken, AccessKey) == 0 && Count(refreshToken, AccessKey) == 0
    ensures Count(TrimStart(stripped + CommentLine(generatedAt)) + "\n" + AccessKey + accessToken + "\n"
                  + RefreshKey + TrimEnd(refreshToken) + "\n", AccessKey) == 1
  {
    AccessKeyInFile(stripped, generatedAt, accessToken, refreshToken);
    CountSelf(AccessKey);
    RefreshKeyHasNoAccessKey();
  }

  lemma AccessKeyInFile(stripped: string, generatedAt: string, accessToken: string, refreshToken: string)
    requires Count(stripped, AccessKey) == 0 && Count(generatedAt, AccessKey) == 0
    requires Count(accessToken, AccessKey) == 0 && Count(refreshToken, AccessKey) == 0
    ensures Count(TrimStart(stripped + CommentLine(generatedAt)) + "\n" + AccessKey + accessToken + "\n"
                  + RefreshKey + TrimEnd(refreshToken) + "\n", AccessKey)
         == Count(AccessKey, AccessKey) + Count(RefreshKey, AccessKey)
  {
    AccessKeyChars();
    MarkerHasNoAccessKey();
    CountInFile(stripped, CommentMarker, generatedAt, CommentLine(generatedAt), accessToken, refreshToken,
                AccessKey, RefreshKey, AccessKey);
  }

  lemma AccessKeyChars()
    ensures '\n' !in AccessKey && ' ' !in AccessKey && ')' !in AccessKey
    ensures AccessKey[|AccessKey| - 1] !in AccessKey[..|AccessKey| - 1]
    ensures RefreshKey[|RefreshKey| - 1] !in AccessKey[..|AccessKey| - 1]
  {
  }

  lemma MarkerHasNoAccessKey()
    ensures Count(CommentMarker, AccessKey) == 0
  {
    CountMissingChar(CommentMarker, AccessKey, 5);
  }

  lemma RefreshKeyOnce(stripped: string, generatedAt: string, accessToken: string, refreshToken: string)
    requires Count(stripped, RefreshKey) == 0 && Count(generatedAt, RefreshKey) == 0
    requires Count(accessToken, RefreshKey) == 0 && Count(refreshToken, RefreshKey) == 0
    ensures Count(TrimStart(stripped + CommentLine(generatedAt)) + "\n" + AccessKey + accessToken + "\n"
                  + RefreshKey + TrimEnd(refreshToken) + "\n", RefreshKey) == 1
  {
    RefreshKeyInFile(stripped, generatedAt, accessToken, refreshToken);
    CountSelf(RefreshKey);
    CountShort(AccessKey, RefreshKey);
  }

  lemma RefreshKeyInFile(stripped: string, generatedAt: string, accessToken: string, refreshToken: string)
    requires Count(stripped, RefreshKey) == 0 && Count(generatedAt, RefreshKey) == 0
    requires Count(accessToken, RefreshKey) == 0 && Count(refreshToken, RefreshKey) == 0
    ensures Count(TrimStart(stripped + CommentLine(generatedAt)) + "\n" + AccessKey + accessToken + "\n"
                  + RefreshKey + TrimEnd(refreshToken) + "\n", RefreshKey)
         == Count(AccessKey, RefreshKey) + Count(RefreshKey, RefreshKey)
  {
    RefreshKeyChars();
    MarkerHasNoRefreshKey();
    CountInFile(stripped, CommentMarker, generatedAt, CommentLine(generatedAt), accessToken, refreshToken,
                AccessKey, RefreshKey, RefreshKey);
  }

  lemma RefreshKeyChars()
    ensures '\n' !in RefreshKey && ' ' !in RefreshKey && ')' !in RefreshKey
    ensures AccessKey[|AccessKey| - 1] !in RefreshKey[..|RefreshKey| - 1]
    ensures RefreshKey[|RefreshKey| - 1] !in RefreshKey[..|RefreshKey| - 1]
  {
  }

  lemma MarkerHasNoRefreshKey()
    ensures Count(CommentMarker, RefreshKey) == 0
  {
    CountMissingChar(CommentMarker, RefreshKey, 5);
  }

  /** The old content, once stripped, mentions neither key. */
  lemma StrippedHasNoKeys(content: string)
    ensures TokenFree(StripTokenEntries(content))
  {
    KeyLiterals();
    assert NoLineFeed(AccessKey) && NoLineFeed(RefreshKey);
    RemovalClearsBoth(content, AccessKey, RefreshKey);
  }

  /** Removing the entries of k1, then of k2, and collapsing leaves neither key. */
  lemma RemovalClearsBoth(content: string, k1: string, k2: string)
    requires |k1| > 0 && NoLineTerminator(k1) && NoLineFeed(k1)
    requires |k2| > 0 && NoLineTerminator(k2) && NoLineFeed(k2)
    ensures var twice := RemoveEntries(RemoveEntries(content, k1), k2);
      Count(CollapseBlankRuns(twice), k1) == 0 && Count(CollapseBlankRuns(twice), k2) == 0
  {
    var once := RemoveEntries(content, k1);
    var twice := RemoveEntries(once, k2);
    RemoveEntriesClears(content, k1);
    RemoveEntriesNoNew(once, k2, k1);
    RemoveEntriesClears(once, k2);
    CollapseCount(twice, k1);
    CollapseCount(twice, k2);
  }

  lemma RefreshKeyHasNoAccessKey()
    ensures Count(RefreshKey, AccessKey) == 0
  {
    assert AccessKey[7] == 'C' && 'C' !in RefreshKey;
    CountMissingChar(RefreshKey, AccessKey, 7);
  }

  /** Counting a key in the file's layout: only the two key literals can contribute. */
  lemma CountInFile(stripped: string, marker: string, generatedAt: string, cl: string, accessToken: string,
                    refreshToken: string, k1: string, k2: string, key: string)
    requires cl == "\n" + marker + " " + generatedAt + ")"
    requires |key| > 0 && '\n' !in key && ' ' !in key && ')' !in key
    requires |k1| > 0 && k1[|k1| - 1] !in key[..|key| - 1] && |k2| > 0 && k2[|k2| - 1] !in key[..|key| - 1]
    requires Count(marker, key) == 0 && Count(stripped, key) == 0
    requires Count(generatedAt, key) == 0 && Count(accessToken, key) == 0 && Count(refreshToken, key) == 0
    ensures Count(TrimStart(stripped + cl) + "\n" + k1 + accessToken + "\n" + k2 + TrimEnd(refreshToken) + "\n", key)
         == Count(k1, key) + Count(k2, key)
  {
    CountTrimmedComment(stripped, marker, generatedAt, cl, key);
    CountEntries(TrimStart(stripped + cl), k1, accessToken, k2, refreshToken, key);
  }

  lemma CountTrimmedComment(x: string, marker: string, generatedAt: string, cl: string, key: string)
    requires cl == "\n" + marker + " " + generatedAt + ")"
    requires |key| > 0 && '\n' !in key && ' ' !in key && ')' !in key
    requires Count(marker, key) == 0 && Count(x, key) == 0 && Count(generatedAt, key) == 0
    ensures Count(TrimStart(x + cl), key) == 0
  {
    CountAroundComment(x, marker, generatedAt, key);
    TrimStartNoNew(x + cl, key);
  }

  lemma TrimStartNoNew(w: string, key: string)
    ensures Count(TrimStart(w), key) <= Count(w, key)
  {
    CountSuffix(w, |w| - |TrimStart(w)|, key);
  }

  lemma CountEntries(y: string, k1: string, a: string, k2: string, r: string, key: string)
    requires |key| > 0 && '\n' !in key
    requires |k1| > 0 && k1[|k1| - 1] !in key[..|key| - 1] && |k2| > 0 && k2[|k2| - 1] !in key[..|key| - 1]
    requires Count(a, key) == 0 && Count(r, key) == 0
    ensures Count(y + "\n" + k1 + a + "\n" + k2 + TrimEnd(r) + "\n", key) == Count(y, key) + Count(k1, key) + Count(k2, key)
  {
    var t := TrimEnd(r);
    CountPrefix(r, |t|, key);
    RegroupFile(y, k1, a, k2, t);
    CountLines(y, k1 + a, k2 + t, key);
    CountAfterGuard(k1, a, key);
    CountAfterGuard(k2, t, key);
  }

  lemma RegroupFile(y: string, k1: string, a: string, k2: string, r: string)
    ensures y + "\n" + k1 + a + "\n" + k2 + r + "\n" == y + "\n" + (k1 + a) + "\n" + (k2 + r) + "\n"
  {
  }

  /** Line feeds never take part in an occurrence of a key without one. */
  lemma CountLines(y: string, p: string, q: string, key: string)
    requires |key| > 0 && '\n' !in key
    ensures Count(y + "\n" + p + "\n" + q + "\n", key) == Count(y, key) + Count(p, key) + Count(q, key)
  {
    CountSplit(y, '\n', p, key);
    CountSplit(y + "\n" + p, '\n', q, key);
    CountSplit(y + "\n" + p + "\n" + q, '\n', [], key);
    assert y + "\n" + p + "\n" + q + "\n" == y + "\n" + p + "\n" + q + ['\n'] + [];
  }

  /** The comment line adds only what the timestamp holds. */
  lemma CountAroundComment(x: string, marker: string, generatedAt: string, key: string)
    requires |key| > 0 && '\n' !in key && ' ' !in key && ')' !in key
    ensures Count(x + ("\n" + marker + " " + generatedAt + ")"), key)
         == Count(x, key) + Count(marker, key) + Count(generatedAt, key)
  {
    var t := generatedAt + ")";
    assert x + ("\n" + marker + " " + generatedAt + ")") == x + ['\n'] + (marker + [' '] + t);
    CountSplit(x, '\n', marker + [' '] + t, key);
    CountSplit(marker, ' ', t, key);
    assert t == generatedAt + [')'] + [];
    CountSplit(generatedAt, ')', [], key);
  }

  // ----- the comment lines -----

  /**
   * Each rewrite adds exactly one comment line to what survives of the old
   * content; earlier comment lines are not removed by the rewrite itself.
   */
  lemma RewriteAddsOneComment(content: string, generatedAt: string, accessToken: string, refreshToken: string)
    requires Count(generatedAt, CommentMarker) == 0 && Count(accessToken, CommentMarker) == 0
    requires Count(refreshToken, CommentMarker) == 0
    ensures Count(Rewrite(content, generatedAt, accessToken, refreshToken), CommentMarker)
         == Count(StripTokenEntries(content), CommentMarker) + 1
  {
    RewriteLayout(content, generatedAt, accessToken, refreshToken);
    MarkerInFile(StripTokenEntries(content), generatedAt, accessToken, refreshToken);
  }

  lemma MarkerInFile(stripped: string, generatedAt: string, accessToken: string, refreshToken: string)
    requires Count(generatedAt, CommentMarker) == 0 && Count(accessToken, CommentMarker) == 0
    requires Count(refreshToken, CommentMarker) == 0
    ensures Count(TrimStart(stripped + CommentLine(generatedAt)) + "\n" + AccessKey + accessToken + "\n"
                  + RefreshKey + TrimEnd(refreshToken) + "\n", CommentMarker)
         == Count(stripped, CommentMarker) + 1
  {
    MarkerChars();
    CountShort(AccessKey, CommentMarker);
    CountShort(RefreshKey, CommentMarker);
    MarkerInTrimmedComment(stripped, CommentMarker, generatedAt, CommentLine(generatedAt));
    CountEntries(TrimStart(stripped + CommentLine(generatedAt)), AccessKey, accessToken, RefreshKey, refreshToken,
                 CommentMarker);
  }

  lemma MarkerChars()
    ensures |CommentMarker| > 1 && !IsWhitespace(CommentMarker[0]) && CommentMarker[0] != ' '
    ensures '\n' !in CommentMarker && ')' !in CommentMarker
    ensures CommentMarker[|CommentMarker| - 1] !in CommentMarker[..|CommentMarker| - 1]
    ensures AccessKey[|AccessKey| - 1] !in CommentMarker[..|CommentMarker| - 1]
    ensures RefreshKey[|RefreshKey| - 1] !in CommentMarker[..|CommentMarker| - 1]
  {
  }

  /** Trimming the front never touches an occurrence of a key that starts with a visible character. */
  lemma {:induction false} CountTrimStart(s: string, key: string)
    requires |key| > 0 && !IsWhitespace(key[0])
    ensures Count(TrimStart(s), key) == Count(s, key)
    decreases |s|
  {
    if |s| > 0 && IsWhitespace(s[0]) {
      assert key[0] != s[0];
      CountTrimStart(s[1..], key);
    }
  }

  lemma MarkerInTrimmedComment(x: string, marker: string, generatedAt: string, cl: string)
    requires cl == "\n" + marker + " " + generatedAt + ")"
    requires |marker| > 1 && !IsWhitespace(marker[0]) && marker[0] != ' '
    requires '\n' !in marker && ')' !in marker && marker[|marker| - 1] !in marker[..|marker| - 1]
    requires Count(generatedAt, marker) == 0
    ensures Count(TrimStart(x + cl), marker) == Count(x, marker) + 1
  {
    CountTrimStart(x + cl, marker);
    CountOwnMarker(x, marker, generatedAt);
  }

  /** The comment line holds its marker once, plus whatever the timestamp holds. */
  lemma CountOwnMarker(x: string, marker: string, generatedAt: string)
    requires |marker| > 1 && marker[0] != ' ' && '\n' !in marker && ')' !in marker
    requires marker[|marker| - 1] !in marker[..|marker| - 1]
    ensures Count(x + ("\n" + marker + " " + generatedAt + ")"), marker)
         == Count(x, marker) + 1 + Count(generatedAt, marker)
  {
    var t := " " + generatedAt + ")";
    assert x + ("\n" + marker + " " + generatedAt + ")") == x + ['\n'] + (marker + t);
    CountSplit(x, '\n', marker + t, marker);
    CountAfterGuard(marker, t, marker);
    CountSelf(marker);
    assert marker[0] != t[0];
    assert t[1..] == generatedAt + [')'] + [];
    CountSplit(generatedAt, ')', [], marker);
  }

  // ----- unrelated content -----

  /** Content without either key loses nothing but blank-run line feeds. */
  lemma StripTokenFree(content: string)
    requires TokenFree(content)
    ensures StripTokenEntries(content) == CollapseBlankRuns(content)
  {
    RemoveEntriesIdentity(content, AccessKey);
    RemoveEntriesIdentity(content, RefreshKey);
  }

  /** A line holding neither key survives the removals unchanged, in its place. */
  lemma KeyFreeLineKept(line: string, rest: string)
    requires TokenFree(line)
    ensures RemoveEntries(RemoveEntries(line + "\n" + rest, AccessKey), RefreshKey)
         == line + "\n" + RemoveEntries(RemoveEntries(rest, AccessKey), RefreshKey)
  {
    KeyLiterals();
    LineKeptByBoth(line, rest, AccessKey, RefreshKey);
  }

  lemma LineKeptByBoth(line: string, rest: string, k1: string, k2: string)
    requires |k1| > 0 && NoLineTerminator(k1) && |k2| > 0 && NoLineTerminator(k2)
    requires Count(line, k1) == 0 && Count(line, k2) == 0
    ensures RemoveEntries(RemoveEntries(line + "\n" + rest, k1), k2)
         == line + "\n" + RemoveEntries(RemoveEntries(rest, k1), k2)
  {
    LineKept(line, rest, k1);
    LineKept(line, RemoveEntries(rest, k1), k2);
  }

  lemma LineKept(line: string, rest: string, key: string)
    requires |key| > 0 && NoLineTerminator(key) && Count(line, key) == 0
    ensures RemoveEntries(line + "\n" + rest, key) == line + "\n" + RemoveEntries(rest, key)
  {
    RemoveEntriesSplit(line, rest, key);
    RemoveEntriesIdentity(line, key);
  }

  /**
   * Previous content without either key, without blank runs of three line
   * feeds and without leading whitespace is kept verbatim, and the block is
   * appended after it.
   */
  lemma UnrelatedContentKept(content: string, generatedAt: string, accessToken: string, refreshToken: string)
    requires TokenFree(content) && !HasTripleNewline(content)
    requires content != [] && !IsWhitespace(content[0])
    ensures Rewrite(content, generatedAt, accessToken, refreshToken)
         == content + "\n" + StoreTail(generatedAt, accessToken, TrimEnd(refreshToken))
  {
    StripTokenFree(content);
    CollapseIdentity(content);
    RewriteLayout(content, generatedAt, accessToken, refreshToken);
    TrimStartAppend(content, CommentLine(generatedAt), 0);
    RegroupStore(content, CommentMarker, generatedAt, AccessKey, accessToken, RefreshKey, TrimEnd(refreshToken));
  }

  lemma RegroupStore(c: string, m: string, t: string, k1: string, a: string, k2: string, r: string)
    ensures c + ("\n" + m + " " + t + ")") + "\n" + k1 + a + "\n" + k2 + r + "\n"
         == c + "\n" + (m + " " + t + ")" + "\n" + k1 + a + "\n" + k2 + r + "\n")
  {
  }

  // ----- blank runs -----

  /** After the collapse of line 116 no three line feeds are adjacent. */
  lemma StrippedHasNoTriple(content: string)
    ensures !HasTripleNewline(StripTokenEntries(content))
  {
    CollapseNoTriple(RemoveEntries(RemoveEntries(content, AccessKey), RefreshKey));
  }

  lemma {:induction false} HasTripleAt(s: string, i: nat)
    requires i + 3 <= |s| && s[i] == '\n' && s[i + 1] == '\n' && s[i + 2] == '\n'
    ensures HasTripleNewline(s)
    decreases i
  {
    if i > 0 {
      HasTripleAt(s[1..], i - 1);
    }
  }

  /**
   * The written file itself can hold three adjacent line feeds: a file
   * ending in a blank line keeps it, and the comment line brings its own.
   */
  lemma RewriteCanLeaveTriple(generatedAt: string, accessToken: string, refreshToken: string)
    ensures HasTripleNewline(Rewrite("FOO=bar\n\n", generatedAt, accessToken, refreshToken))
  {
    BlankLineExample();
    assert !IsWhitespace("FOO=bar\n\n"[0]) by { assert "FOO=bar\n\n"[0] == 'F'; }
    TripleAfterBlankLine("FOO=bar\n\n", generatedAt, accessToken, refreshToken);
  }

  lemma BlankLineExample()
    ensures TokenFree("FOO=bar\n\n") && !HasTripleNewline("FOO=bar\n\n")
    ensures "FOO=bar\n\n"[0] == 'F' && "FOO=bar\n\n"[7] == '\n' && "FOO=bar\n\n"[8] == '\n'
  {
    CountShort("FOO=bar\n\n", AccessKey);
    CountShort("FOO=bar\n\n", RefreshKey);
  }

  lemma TripleAfterBlankLine(content: string, generatedAt: string, accessToken: string, refreshToken: string)
    requires TokenFree(content) && !HasTripleNewline(content)
    requires |content| >= 2 && !IsWhitespace(content[0])
    requires content[|content| - 2] == '\n' && content[|content| - 1] == '\n'
    ensures HasTripleNewline(Rewrite(content, generatedAt, accessToken, refreshToken))
  {
    UnrelatedContentKept(content, generatedAt, accessToken, refreshToken);
    TripleAtJoin(content, StoreTail(generatedAt, accessToken, TrimEnd(refreshToken)));
  }

  lemma TripleAtJoin(c: string, t: string)
    requires |c| >= 2 && c[|c| - 2] == '\n' && c[|c| - 1] == '\n'
    ensures HasTripleNewline(c + "\n" + t)
  {
    var w := c + "\n" + t;
    assert w[|c| - 2] == '\n' && w[|c| - 1] == '\n' && w[|c|] == '\n';
    HasTripleAt(w, |c| - 2);
  }

  // ----- rewriting a rewritten file -----

  /**
   * Rewriting a file this handler wrote removes exactly its two entry lines
   * and nothing else: what remains is the earlier file up to its comment
   * line, followed by the three line feeds that ended the removed lines.
   */
  lemma StripOfRewrite(content: string, generatedAt: string, accessToken: string, refreshToken: string)
    requires TokenFree(generatedAt) && TokenFree(accessToken) && TokenFree(refreshToken)
    requires NoLineTerminator(accessToken) && NoLineTerminator(refreshToken)
    ensures StripTokenEntries(Rewrite(content, generatedAt, accessToken, refreshToken))
         == CollapseBlankRuns(TrimStart(StripTokenEntries(content) + CommentLine(generatedAt)) + "\n\n\n")
  {
    RewriteLayout(content, generatedAt, accessToken, refreshToken);
    StrippedHasNoKeys(content);
    TokenLinesRemoved(StripTokenEntries(content), generatedAt, accessToken, refreshToken);
  }

  lemma TokenLinesRemoved(stripped: string, generatedAt: string, accessToken: string, refreshToken: string)
    requires TokenFree(stripped) && TokenFree(generatedAt) && TokenFree(refreshToken)
    requires NoLineTerminator(accessToken) && NoLineTerminator(refreshToken)
    ensures RemoveEntries(RemoveEntries(
              TrimStart(stripped + CommentLine(generatedAt)) + "\n" + AccessKey + accessToken + "\n"
              + RefreshKey + TrimEnd(refreshToken) + "\n", AccessKey), RefreshKey)
         == TrimStart(stripped + CommentLine(generatedAt)) + "\n\n\n"
  {
    var r := TrimEnd(refreshToken);
    assert NoLineTerminator(r) by {
      assert forall i :: 0 <= i < |r| ==> r[i] == refreshToken[i];
    }
    HeadHasNoKeys(stripped, generatedAt);
    RefreshLineHasNoAccessKey(refreshToken);
    KeyLiterals();
    RemoveTokenLines(TrimStart(stripped + CommentLine(generatedAt)), AccessKey, accessToken, RefreshKey, r);
  }

  lemma KeyLiterals()
    ensures |AccessKey| > 0 && NoLineTerminator(AccessKey) && |RefreshKey| > 0 && NoLineTerminator(RefreshKey)
  {
  }

  /** What precedes the entries in a written file mentions neither key. */
  lemma HeadHasNoKeys(stripped: string, generatedAt: string)
    requires TokenFree(stripped) && TokenFree(generatedAt)
    ensures TokenFree(TrimStart(stripped + CommentLine(generatedAt)))
  {
    AccessKeyChars();
    MarkerHasNoAccessKey();
    CountTrimmedComment(stripped, CommentMarker, generatedAt, CommentLine(generatedAt), AccessKey);
    RefreshKeyChars();
    MarkerHasNoRefreshKey();
    CountTrimmedComment(stripped, CommentMarker, generatedAt, CommentLine(generatedAt), RefreshKey);
  }

  lemma RefreshLineHasNoAccessKey(refreshToken: string)
    requires Count(refreshToken, AccessKey) == 0
    ensures Count(RefreshKey + TrimEnd(refreshToken) + "\n", AccessKey) == 0
  {
    AccessKeyChars();
    RefreshKeyHasNoAccessKey();
    CountEntryLine(RefreshKey, refreshToken, AccessKey);
  }

  lemma CountEntryLine(k: string, v: string, key: string)
    requires |k| > 0 && |key| > 0 && '\n' !in key && k[|k| - 1] !in key[..|key| - 1]
    ensures Count(k + TrimEnd(v) + "\n", key) == Count(k, key) + Count(TrimEnd(v), key)
    ensures Count(TrimEnd(v), key) <= Count(v, key)
  {
    var t := TrimEnd(v);
    CountPrefix(v, |t|, key);
    RegroupEntryLine(k, t);
    CountAfterGuard(k, t + ['\n'] + [], key);
    CountSplit(t, '\n', [], key);
  }

  lemma RegroupEntryLine(k: string, t: string)
    ensures k + t + "\n" == k + (t + ['\n'] + [])
  {
  }

  /** The two entry lines go, their line feeds stay. */
  lemma RemoveTokenLines(y: string, k1: string, a: string, k2: string, r: string)
    requires |k1| > 0 && NoLineTerminator(k1) && |k2| > 0 && NoLineTerminator(k2)
    requires NoLineTerminator(a) && NoLineTerminator(r)
    requires Count(y, k1) == 0 && Count(y, k2) == 0 && Count(k2 + r + "\n", k1) == 0
    ensures RemoveEntries(RemoveEntries(y + "\n" + k1 + a + "\n" + k2 + r + "\n", k1), k2) == y + "\n\n\n"
  {
    var rest := k2 + r + "\n";
    RegroupEntries(y, k1, a, k2, r);
    RemoveFirstEntry(y, k1, a, rest);
    RemoveLastEntry(y, k2, r);
  }

  lemma RegroupEntries(y: string, k1: string, a: string, k2: string, r: string)
    ensures y + "\n" + k1 + a + "\n" + k2 + r + "\n" == y + "\n" + k1 + a + "\n" + (k2 + r + "\n")
    ensures y + "\n\n" + (k2 + r + "\n") == y + "\n\n" + k2 + r + "\n"
  {
  }

  lemma RemoveFirstEntry(y: string, k: string, a: string, rest: string)
    requires |k| > 0 && NoLineTerminator(k) && NoLineTerminator(a)
    requires Count(y, k) == 0 && Count(rest, k) == 0
    ensures RemoveEntries(y + "\n" + k + a + "\n" + rest, k) == y + "\n\n" + rest
  {
    var line := k + a + ['\n'] + rest;
    RegroupFirstEntry(y, k, a, rest);
    RemoveEntriesSplit(y, line, k);
    RemoveEntriesIdentity(y, k);
    RemoveEntryStopsAtTerminator(k, a, '\n', rest);
    RemoveEntriesIdentity(rest, k);
    RegroupLineFeeds(y, rest);
  }

  lemma RegroupFirstEntry(y: string, k: string, a: string, rest: string)
    ensures y + "\n" + k + a + "\n" + rest == y + "\n" + (k + a + ['\n'] + rest)
  {
  }

  lemma RegroupLineFeeds(y: string, rest: string)
    ensures y + "\n" + (['\n'] + rest) == y + "\n\n" + rest
  {
  }

  lemma RemoveLastEntry(y: string, k: string, r: string)
    requires |k| > 0 && NoLineTerminator(k) && NoLineTerminator(r)
    requires Count(y, k) == 0
    ensures RemoveEntries(y + "\n\n" + k + r + "\n", k) == y + "\n\n\n"
  {
    var line := k + r + ['\n'] + [];
    RegroupLastEntry(y, k, r);
    RemoveEntriesSplit(y, "\n" + line, k);
    RemoveEntriesIdentity(y, k);
    RemoveLeadingLineFeed(line, k);
    LastEntryLine(k, r);
    ThreeLineFeeds(y);
  }

  lemma LastEntryLine(k: string, r: string)
    requires |k| > 0 && NoLineTerminator(k) && NoLineTerminator(r)
    ensures RemoveEntries(k + r + ['\n'] + [], k) == "\n"
  {
    RemoveEntryStopsAtTerminator(k, r, '\n', []);
  }

  lemma ThreeLineFeeds(y: string)
    ensures y + "\n" + ("\n" + "\n") == y + "\n\n\n"
  {
  }

  lemma RegroupLastEntry(y: string, k: string, r: string)
    ensures y + "\n\n" + k + r + "\n" == y + "\n" + ("\n" + (k + r + ['\n'] + []))
  {
  }

  lemma RemoveLeadingLineFeed(line: string, k: string)
    requires |k| > 0 && NoLineTerminator(k)
    ensures RemoveEntries("\n" + line, k) == "\n" + RemoveEntries(line, k)
  {
    RemoveEntriesAtTerminator("\n" + line, k);
    assert ("\n" + line)[1..] == line;
  }

  /** Rewriting a file this handler wrote keeps every comment it holds. */
  lemma CommentsSurviveRewrite(content: string, generatedAt: string, accessToken: string, refreshToken: string)
    requires TokenFree(generatedAt) && TokenFree(accessToken) && TokenFree(refreshToken)
    requires NoLineTerminator(accessToken) && NoLineTerminator(refreshToken)
    requires Count(accessToken, CommentMarker) == 0 && Count(refreshToken, CommentMarker) == 0
    ensures var w := Rewrite(content, generatedAt, accessToken, refreshToken);
      Count(StripTokenEntries(w), CommentMarker) == Count(w, CommentMarker)
  {
    var y := TrimStart(StripTokenEntries(content) + CommentLine(generatedAt));
    StripOfRewrite(content, generatedAt, accessToken, refreshToken);
    RewriteLayout(content, generatedAt, accessToken, refreshToken);
    MarkerAroundEntries(y, accessToken, refreshToken);
  }

  lemma MarkerAroundEntries(y: string, accessToken: string, refreshToken: string)
    requires Count(accessToken, CommentMarker) == 0 && Count(refreshToken, CommentMarker) == 0
    ensures Count(CollapseBlankRuns(y + "\n\n\n"), CommentMarker)
         == Count(y + "\n" + AccessKey + accessToken + "\n" + RefreshKey + TrimEnd(refreshToken) + "\n", CommentMarker)
  {
    MarkerChars();
    CountShort(AccessKey, CommentMarker);
    CountShort(RefreshKey, CommentMarker);
    CountEntries(y, AccessKey, accessToken, RefreshKey, refreshToken, CommentMarker);
    MarkerBeforeLineFeeds(y);
  }

  lemma MarkerBeforeLineFeeds(y: string)
    ensures Count(CollapseBlankRuns(y + "\n\n\n"), CommentMarker) == Count(y, CommentMarker)
  {
    MarkerChars();
    CollapseCount(y + "\n\n\n", CommentMarker);
    CountTrailingLineFeeds(y, CommentMarker);
  }

  lemma CountTrailingLineFeeds(y: string, key: string)
    requires |key| > 0 && '\n' !in key
    ensures Count(y + "\n\n\n", key) == Count(y, key)
  {
    CountLines(y, [], [], key);
    assert y + "\n" + [] + "\n" + [] + "\n" == y + "\n\n\n";
  }

  /**
   * Repeating the rewrite adds one comment line per run: none of the
   * earlier ones is ever removed.
   */
  lemma CommentLinesAccumulate(content: string, t1: string, a1: string, r1: string, t2: string, a2: string, r2: string)
    requires TokenFree(t1) && TokenFree(a1) && TokenFree(r1) && NoLineTerminator(a1) && NoLineTerminator(r1)
    requires Count(a1, CommentMarker) == 0 && Count(r1, CommentMarker) == 0
    requires Count(t2, CommentMarker) == 0 && Count(a2, CommentMarker) == 0 && Count(r2, CommentMarker) == 0
    ensures Count(Rewrite(Rewrite(content, t1, a1, r1), t2, a2, r2), CommentMarker)
         == Count(Rewrite(content, t1, a1, r1), CommentMarker) + 1
  {
    CommentsSurviveRewrite(content, t1, a1, r1);
    RewriteAddsOneComment(Rewrite(content, t1, a1, r1), t2, a2, r2);
  }
}
