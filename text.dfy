/**
 * The two string primitives the menu parser relies on: trimming a line the
 * way JavaScript's String.prototype.trim does, and testing a prefix the way
 * String.prototype.startsWith does.
 */
module Text {

  /**
   * The code points String.prototype.trim strips from both ends: the
   * ECMAScript WhiteSpace set (tab, vertical tab, form feed, ZERO WIDTH
   * NO-BREAK SPACE and every Unicode "Zs" space separator) and the
   * ECMAScript LineTerminator set (LF, CR, LINE SEPARATOR, PARAGRAPH SEPARATOR).
   * Every one of them lies in the Basic Multilingual Plane, so each is a
   * single UTF-16 code unit as well as a single Unicode scalar value.
   */
  predicate IsWhitespace(c: char)
    ensures IsWhitespace(c) ==> c as int < 0x1_0000
  {
    c == '\t' || c == '\n' || c == '\U{000B}' || c == '\U{000C}' || c == '\r'
    || c == ' ' || c == '\U{00A0}' || c == '\U{1680}'
    || ('\U{2000}' <= c <= '\U{200A}')
    || c == '\U{2028}' || c == '\U{2029}' || c == '\U{202F}' || c == '\U{205F}'
    || c == '\U{3000}' || c == '\U{FEFF}'
  }

  predicate AllWhitespace(s: string) {
    forall i :: 0 <= i < |s| ==> IsWhitespace(s[i])
  }

  /** The index of the first character at or after i that is not whitespace, or |s| if there is none. */
  function SkipLeading(s: string, i: nat): (j: nat)
    requires i <= |s|
    ensures i <= j <= |s|
    ensures forall k :: i <= k < j ==> IsWhitespace(s[k])
    ensures j == |s| || !IsWhitespace(s[j])
    decreases |s| - i
  {
    if i < |s| && IsWhitespace(s[i]) then SkipLeading(s, i + 1) else i
  }

  /** The index just past the last character before j, and not before lo, that is not whitespace, or lo if there is none. */
  function SkipTrailing(s: string, lo: nat, j: nat): (k: nat)
    requires lo <= j <= |s|
    ensures lo <= k <= j
    ensures forall m :: k <= m < j ==> IsWhitespace(s[m])
    ensures k == lo || !IsWhitespace(s[k - 1])
    decreases j
  {
    if lo < j && IsWhitespace(s[j - 1]) then SkipTrailing(s, lo, j - 1) else j
  }

  /**
   * String.prototype.trim: the result is the slice of the input left between
   * a leading and a trailing run of whitespace, and it neither starts nor ends
   * with whitespace, so neither run could have been longer.
   */
  function Trim(s: string): (r: string)
    ensures var a := SkipLeading(s, 0);
      && a + |r| <= |s| && r == s[a..a + |r|]
      && (forall k :: 0 <= k < a ==> IsWhitespace(s[k]))
      && (forall k :: a + |r| <= k < |s| ==> IsWhitespace(s[k]))
    ensures r == [] || (!IsWhitespace(r[0]) && !IsWhitespace(r[|r| - 1]))
  {
    var a := SkipLeading(s, 0);
    s[a..SkipTrailing(s, a, |s|)]
  }

  /** String.prototype.startsWith without a position argument: prefix is an initial segment of s. */
  predicate StartsWith(s: string, prefix: string)
    ensures StartsWith(s, prefix) <==> prefix <= s
  {
    |prefix| <= |s| && s[..|prefix|] == prefix
  }

  /**
   * Trim is determined by where the content lies: if everything outside
   * s[a..b] is whitespace and s[a..b] neither starts nor ends with it, then
   * trim returns exactly s[a..b].
   */
  lemma TrimIsContent(s: string, a: nat, b: nat)
    requires a <= b <= |s|
    requires forall k :: 0 <= k < a ==> IsWhitespace(s[k])
    requires forall k :: b <= k < |s| ==> IsWhitespace(s[k])
    requires a < b ==> !IsWhitespace(s[a]) && !IsWhitespace(s[b - 1])
    ensures Trim(s) == s[a..b]
  {
    var i := SkipLeading(s, 0);
    if a < b {
      assert i == a;
      assert SkipTrailing(s, a, |s|) == b;
    } else {
      assert i == |s|;
    }
  }

  /** Whitespace added in front of or behind a line does not change what trim returns. */
  lemma TrimIgnoresPadding(before: string, s: string, after: string)
    requires AllWhitespace(before) && AllWhitespace(after)
    ensures Trim(before + s + after) == Trim(s)
  {
    var x := before + s + after;
    var r := Trim(s);
    var a := SkipLeading(s, 0);
    var lo, hi := |before| + a, |before| + a + |r|;
    forall k | 0 <= k < lo ensures IsWhitespace(x[k]) {
      if k >= |before| { assert x[k] == s[k - |before|]; }
    }
    forall k | hi <= k < |x| ensures IsWhitespace(x[k]) {
      if k < |before| + |s| { assert x[k] == s[k - |before|]; }
    }
    assert x[lo..hi] == r;
    TrimIsContent(x, lo, hi);
  }

  /** Trimming an already trimmed line changes nothing. */
  lemma TrimIdempotent(s: string)
    ensures Trim(Trim(s)) == Trim(s)
  {
    var r := Trim(s);
    TrimIsContent(r, 0, |r|);
  }

  /** A line that is all whitespace trims to the empty string. */
  lemma TrimOfWhitespace(s: string)
    requires AllWhitespace(s)
    ensures Trim(s) == []
  {
    TrimIsContent(s, 0, 0);
  }
}
