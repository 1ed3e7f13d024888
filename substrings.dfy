/**
 * Occurrences of a pattern inside a string, counted position by position,
 * and the facts about how counts combine across concatenations.  These are
 * the tools the token-store rewrite and the comment-line bookkeeping are
 * proved with.
 */
module Substrings {

  /** Number of positions i < |s| at which `key` is a prefix of s[i..]. */
  function Count(s: string, key: string): nat
    decreases |s|
  {
    if |s| == 0 then 0 else (if key <= s then 1 else 0) + Count(s[1..], key)
  }

  lemma {:induction false} CountShort(s: string, key: string)
    requires |s| < |key|
    ensures Count(s, key) == 0
  {
    if |s| > 0 {
      CountShort(s[1..], key);
    }
  }

  /** A string that misses one of the key's characters cannot contain the key. */
  lemma {:induction false} CountMissingChar(s: string, key: string, j: nat)
    requires j < |key| && key[j] !in s
    ensures Count(s, key) == 0
  {
    if |s| > 0 {
      assert forall c :: c in s[1..] ==> c in s;
      CountMissingChar(s[1..], key, j);
    }
  }

  lemma {:induction false} CountSelf(key: string)
    requires |key| > 0
    ensures Count(key, key) == 1
  {
    CountShort(key[1..], key);
  }

  /** Dropping a prefix never adds occurrences. */
  lemma {:induction false} CountSuffix(s: string, k: nat, key: string)
    requires k <= |s|
    ensures Count(s[k..], key) <= Count(s, key)
    decreases k
  {
    if k > 0 {
      CountSuffix(s[1..], k - 1, key);
      assert s[1..][k - 1..] == s[k..];
    }
  }

  /** Dropping a suffix never adds occurrences. */
  lemma {:induction false} CountPrefix(s: string, k: nat, key: string)
    requires k <= |s|
    ensures Count(s[..k], key) <= Count(s, key)
    decreases |s|
  {
    if k > 0 {
      assert s[..k][1..] == s[1..][..k - 1];
      CountPrefix(s[1..], k - 1, key);
    } else {
      assert s[..k] == [];
    }
  }

  /**
   * A separator character the key does not contain splits the count:
   * no occurrence can straddle it.
   */
  lemma {:induction false} CountSplit(u: string, c: char, v: string, key: string)
    requires |key| > 0 && c !in key
    ensures Count(u + [c] + v, key) == Count(u, key) + Count(v, key)
    decreases |u|
  {
    var w := u + [c] + v;
    if |u| == 0 {
      assert w == [c] + v;
      assert key[0] != w[0];
      assert w[1..] == v;
    } else {
      assert w[1..] == u[1..] + [c] + v;
      CountSplit(u[1..], c, v, key);
      if |key| > |u| {
        assert key[|u|] != w[|u|];
      }
    }
  }

  /**
   * When the last character of p appears in the key only as its final
   * character, an occurrence cannot start inside p and end beyond it.
   */
  lemma {:induction false} CountAfterGuard(p: string, v: string, key: string)
    requires |p| > 0 && |key| > 0 && p[|p| - 1] !in key[..|key| - 1]
    ensures Count(p + v, key) == Count(p, key) + Count(v, key)
    decreases |p|
  {
    var w := p + v;
    if |key| > |p| {
      assert key[..|key| - 1][|p| - 1] == key[|p| - 1];
      assert key[|p| - 1] != w[|p| - 1];
    }
    if |p| == 1 {
      assert w[1..] == v;
      assert p[1..] == [];
    } else {
      assert w[1..] == p[1..] + v;
      CountAfterGuard(p[1..], v, key);
    }
  }
}
