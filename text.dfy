/** The string primitives the core relies on: Python's `str.strip`, the ASCII
    character classes of the slug and scheme patterns, `str.lower` on ASCII,
    `str.startswith` and the substring test `t in s`. */
module Text {

  /** `str.isspace` of CPython: the characters `str.strip()` removes. */
  predicate IsSpace(c: char) {
    var n := c as int;
    (9 <= n <= 13) || (28 <= n <= 32) || n == 0x85 || n == 0xA0 || n == 0x1680
    || (0x2000 <= n <= 0x200A) || n == 0x2028 || n == 0x2029 || n == 0x202F
    || n == 0x205F || n == 0x3000
  }

  predicate IsAsciiUpper(c: char) { 'A' <= c <= 'Z' }
  predicate IsAsciiLower(c: char) { 'a' <= c <= 'z' }
  predicate IsAsciiLetter(c: char) { IsAsciiUpper(c) || IsAsciiLower(c) }
  predicate IsAsciiDigit(c: char) { '0' <= c <= '9' }

  /** The regular-expression class `[A-Za-z0-9]`. */
  predicate IsAsciiAlnum(c: char) { IsAsciiLetter(c) || IsAsciiDigit(c) }

  predicate AllAlnum(s: string) {
    forall i :: 0 <= i < |s| ==> IsAsciiAlnum(s[i])
  }

  /** No whitespace at either end. */
  predicate IsTrimmed(s: string) {
    s == [] || (!IsSpace(s[0]) && !IsSpace(s[|s| - 1]))
  }

  /** The number of whitespace characters `str.lstrip()` removes. */
  function LeadingSpaces(s: string): (n: nat)
    ensures n <= |s|
    ensures forall k :: 0 <= k < n ==> IsSpace(s[k])
    ensures n < |s| ==> !IsSpace(s[n])
  {
    if s == [] || !IsSpace(s[0]) then 0 else 1 + LeadingSpaces(s[1..])
  }

  /** The number of whitespace characters `str.rstrip()` removes. */
  function TrailingSpaces(s: string): (n: nat)
    ensures n <= |s|
    ensures forall k :: |s| - n <= k < |s| ==> IsSpace(s[k])
    ensures n < |s| ==> !IsSpace(s[|s| - n - 1])
  {
    if s == [] || !IsSpace(s[|s| - 1]) then 0 else 1 + TrailingSpaces(s[..|s| - 1])
  }

  /** `str.strip()`: the infix of `s` left after removing the whitespace at
      both ends (starting at index `LeadingSpaces(s)`); it is empty exactly
      when `s` is all whitespace. */
  function Strip(s: string): (r: string)
    ensures IsTrimmed(r)
    ensures var i := LeadingSpaces(s);
              i + |r| <= |s| && r == s[i..i + |r|]
              && (forall k :: 0 <= k < i ==> IsSpace(s[k]))
              && (forall k :: i + |r| <= k < |s| ==> IsSpace(s[k]))
    ensures r == [] <==> forall k :: 0 <= k < |s| ==> IsSpace(s[k])
  {
    var i := LeadingSpaces(s);
    var t := s[i..];
    var j := TrailingSpaces(t);
    assert forall k :: i + |t| - j <= k < |s| ==> IsSpace(s[k]) by {
      forall k | i + |t| - j <= k < |s| ensures IsSpace(s[k]) {
        assert s[k] == t[k - i];
      }
    }
    t[..|t| - j]
  }

  /** Stripping a string that has no whitespace at its ends changes nothing. */
  lemma StripTrimmed(s: string)
    requires IsTrimmed(s)
    ensures Strip(s) == s
  {
  }

  /** One space on each side of a trimmed, non-empty string is stripped
      away. */
  lemma StripSurrounding(t: string)
    requires t != [] && IsTrimmed(t)
    ensures Strip(" " + t + " ") == t
  {
    var s := " " + t + " ";
    assert s[1..] == t + " ";
    assert LeadingSpaces(s[1..]) == 0 by {
      assert s[1..][0] == t[0];
    }
    assert (t + " ")[..|t|] == t;
    assert TrailingSpaces(t) == 0;
    assert TrailingSpaces(t + " ") == 1;
  }

  /** ASCII lowercasing of one character; other characters are unchanged. */
  function LowerChar(c: char): char {
    if IsAsciiUpper(c) then (c as int - 'A' as int + 'a' as int) as char else c
  }

  /** `str.lower()` restricted to ASCII: the same length, character by character. */
  function Lower(s: string): (r: string)
    ensures |r| == |s|
    ensures forall i :: 0 <= i < |s| ==> r[i] == LowerChar(s[i])
  {
    seq(|s|, i requires 0 <= i < |s| => LowerChar(s[i]))
  }

  /** `s.startswith(p)`. */
  predicate StartsWith(s: string, p: string) {
    |p| <= |s| && s[..|p|] == p
  }

  /** A string does not start with a prefix whose first character differs
      from its own. */
  lemma FirstCharBlocksPrefix(s: string, p: string)
    requires s != [] && p != [] && s[0] != p[0]
    ensures !StartsWith(s, p)
  {
    if |p| <= |s| {
      assert s[..|p|][0] == s[0];
    }
  }

  /** The substring test `t in s`. */
  predicate Contains(s: string, t: string)
    decreases |s|
  {
    StartsWith(s, t) || (s != [] && Contains(s[1..], t))
  }

  /** `t` occurs in `s` at index `i`, so `t in s` holds. */
  lemma {:induction false} ContainsAt(s: string, t: string, i: nat)
    requires i + |t| <= |s| && s[i..i + |t|] == t
    ensures Contains(s, t)
    decreases i
  {
    if i == 0 {
      assert s[..|t|] == t;
    } else {
      assert s[1..][i - 1..i - 1 + |t|] == s[i..i + |t|];
      ContainsAt(s[1..], t, i - 1);
    }
  }

  /** An occurrence of `t` is an index where `t` starts. */
  lemma {:induction false} ContainsWitness(s: string, t: string) returns (i: nat)
    requires Contains(s, t)
    ensures i + |t| <= |s| && s[i..i + |t|] == t
    decreases |s|
  {
    if StartsWith(s, t) {
      i := 0;
    } else {
      var j := ContainsWitness(s[1..], t);
      assert s[1..][j..j + |t|] == s[j + 1..j + 1 + |t|];
      i := j + 1;
    }
  }
}
