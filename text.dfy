/**
 * The JavaScript string primitives the pages rely on: `trim`, `toLowerCase`
 * and `includes`. Strings are sequences of characters.
 */
module Text {

  /** ECMAScript WhiteSpace and LineTerminator code points, which `trim` removes. */
  predicate IsWhitespace(c: char) {
    var n := c as int;
    n == 0x09 || n == 0x0A || n == 0x0B || n == 0x0C || n == 0x0D || n == 0x20
    || n == 0xA0 || n == 0x1680 || (0x2000 <= n <= 0x200A) || n == 0x2028
    || n == 0x2029 || n == 0x202F || n == 0x205F || n == 0x3000 || n == 0xFEFF
  }

  /** Every character is whitespace (the empty string included). */
  predicate IsBlank(s: string) {
    forall i :: 0 <= i < |s| ==> IsWhitespace(s[i])
  }

  lemma BlankConcat(a: string, b: string)
    requires IsBlank(a) && IsBlank(b)
    ensures IsBlank(a + b)
  {
    forall i | 0 <= i < |a + b| ensures IsWhitespace((a + b)[i]) {
      if i < |a| { assert (a + b)[i] == a[i]; } else { assert (a + b)[i] == b[i - |a|]; }
    }
  }

  /** The first index at or after i that is not whitespace. */
  function SkipForward(s: string, i: nat): (n: nat)
    requires i <= |s|
    ensures i <= n <= |s| && (n == |s| || !IsWhitespace(s[n]))
    ensures forall k :: i <= k < n ==> IsWhitespace(s[k])
    decreases |s| - i
  {
    if i < |s| && IsWhitespace(s[i]) then SkipForward(s, i + 1) else i
  }

  /** The last index at or before j whose preceding character is not whitespace. */
  function SkipBackward(s: string, j: nat): (n: nat)
    requires j <= |s|
    ensures n <= j && (n == 0 || !IsWhitespace(s[n - 1]))
    ensures forall k :: n <= k < j ==> IsWhitespace(s[k])
  {
    if j > 0 && IsWhitespace(s[j - 1]) then SkipBackward(s, j - 1) else j
  }

  /** `trimStart`: drops the leading whitespace and nothing else. */
  function TrimStart(s: string): (r: string)
    ensures |r| <= |s| && r == s[|s| - |r|..]
    ensures IsBlank(s[..|s| - |r|])
    ensures r == [] || !IsWhitespace(r[0])
  {
    var n := SkipForward(s, 0);
    assert forall k :: 0 <= k < n ==> s[..n][k] == s[k];
    s[n..]
  }

  /** `trimEnd`: drops the trailing whitespace and nothing else. */
  function TrimEnd(s: string): (r: string)
    ensures |r| <= |s| && r == s[..|r|]
    ensures IsBlank(s[|r|..])
    ensures r == [] || !IsWhitespace(r[|r| - 1])
  {
    var n := SkipBackward(s, |s|);
    assert forall k :: 0 <= k < |s| - n ==> s[n..][k] == s[n + k];
    s[..n]
  }

  /**
   * `String.prototype.trim`: the result is the slice s[i..j] with only
   * whitespace outside it, and it is empty exactly when s is blank.
   */
  function Trim(s: string): (r: string)
    ensures exists i, j :: 0 <= i <= j <= |s| && r == s[i..j] && IsBlank(s[..i]) && IsBlank(s[j..])
    ensures r == [] || (!IsWhitespace(r[0]) && !IsWhitespace(r[|r| - 1]))
    ensures r == [] <==> IsBlank(s)
  {
    var t := TrimStart(s);
    var r := TrimEnd(t);
    TrimSlice(s, t, r);
    r
  }

  lemma TrimSlice(s: string, t: string, r: string)
    requires |t| <= |s| && t == s[|s| - |t|..] && IsBlank(s[..|s| - |t|])
    requires t == [] || !IsWhitespace(t[0])
    requires |r| <= |t| && r == t[..|r|] && IsBlank(t[|r|..])
    requires r == [] || !IsWhitespace(r[|r| - 1])
    ensures var i, j := |s| - |t|, |s| - |t| + |r|;
      0 <= i <= j <= |s| && r == s[i..j] && IsBlank(s[..i]) && IsBlank(s[j..])
    ensures r == [] || (!IsWhitespace(r[0]) && !IsWhitespace(r[|r| - 1]))
    ensures r == [] <==> IsBlank(s)
  {
    var i, j := |s| - |t|, |s| - |t| + |r|;
    assert t == s[i..];
    assert r == t[..|r|];
    assert s[i..j] == s[i..][..|r|];
    assert s[j..] == t[|r|..];
    if r == [] {
      assert t == s[i..];
      assert t == t[0..];
      assert IsBlank(t);
      assert s == s[..i] + t;
      BlankConcat(s[..i], t);
    } else {
      assert !IsWhitespace(t[0]);
      assert t[0] == r[0];
      assert !IsBlank(s) by { assert s[i] == t[0]; }
    }
  }

  /** A string without whitespace at either end is its own trim; in particular trimming is idempotent. */
  lemma TrimOfTrimmed(s: string)
    requires s == [] || (!IsWhitespace(s[0]) && !IsWhitespace(s[|s| - 1]))
    ensures Trim(s) == s
  {
    var i, j :| 0 <= i <= j <= |s| && Trim(s) == s[i..j] && IsBlank(s[..i]) && IsBlank(s[j..]);
    if i > 0 { assert s[..i][0] == s[0]; }
    if j < |s| { assert s[j..][|s| - 1 - j] == s[|s| - 1]; }
    assert s[0..|s|] == s;
  }

  /** `toLowerCase` on one character: ASCII and the basic Cyrillic capitals. */
  function LowerChar(c: char): (r: char)
  {
    if 'A' <= c <= 'Z' then (c as int + 32) as char
    else if 0x410 <= c as int <= 0x42F then (c as int + 32) as char
    else if 0x400 <= c as int <= 0x40F then (c as int + 80) as char
    else c
  }

  /** `toLowerCase`, character by character. */
  function Lower(s: string): (r: string)
    ensures |r| == |s|
  {
    seq(|s|, i requires 0 <= i < |s| => LowerChar(s[i]))
  }

  /** Lower-casing a lower-cased character changes nothing. */
  lemma LowerCharIdempotent(c: char)
    ensures LowerChar(LowerChar(c)) == LowerChar(c)
  {
  }

  /** Lower-casing a lower-cased string changes nothing. */
  lemma LowerIdempotent(s: string)
    ensures Lower(Lower(s)) == Lower(s)
  {
    forall i | 0 <= i < |s| ensures Lower(Lower(s))[i] == Lower(s)[i] {
      LowerCharIdempotent(s[i]);
    }
  }

  /** needle occurs in haystack starting at offset i. */
  predicate OccursAt(haystack: string, needle: string, i: int) {
    0 <= i && i + |needle| <= |haystack| && haystack[i..i + |needle|] == needle
  }

  /** `String.prototype.includes`: needle occurs at some offset of haystack. */
  predicate Contains(haystack: string, needle: string) {
    exists i | 0 <= i <= |haystack| - |needle| :: OccursAt(haystack, needle, i)
  }

  /** Every string includes the empty string. */
  lemma ContainsEmpty(haystack: string)
    ensures Contains(haystack, "")
  {
    assert OccursAt(haystack, "", 0);
  }
}
