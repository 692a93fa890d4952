/** Byte strings and the UTF-8 syntax of RFC 3629 section 4, as Go's utf8.ValidString decides it. */
module Utf8 {

  newtype byte = x: int | 0 <= x < 256

  type Bytes = seq<byte>

  predicate InRange(s: Bytes, i: nat, low: byte, high: byte) {
    i < |s| && low <= s[i] <= high
  }

  /** Length of the well-formed character at the head of s, or 0 when there is none. */
  function CharLength(s: Bytes): (n: nat)
    ensures n <= 4 && n <= |s|
  {
    if InRange(s, 0, 0x00, 0x7F) then 1
    else if InRange(s, 0, 0xC2, 0xDF) && InRange(s, 1, 0x80, 0xBF) then 2
    else if (|| (InRange(s, 0, 0xE0, 0xE0) && InRange(s, 1, 0xA0, 0xBF))
             || (InRange(s, 0, 0xE1, 0xEC) && InRange(s, 1, 0x80, 0xBF))
             || (InRange(s, 0, 0xED, 0xED) && InRange(s, 1, 0x80, 0x9F))
             || (InRange(s, 0, 0xEE, 0xEF) && InRange(s, 1, 0x80, 0xBF)))
            && InRange(s, 2, 0x80, 0xBF) then 3
    else if (|| (InRange(s, 0, 0xF0, 0xF0) && InRange(s, 1, 0x90, 0xBF))
             || (InRange(s, 0, 0xF1, 0xF3) && InRange(s, 1, 0x80, 0xBF))
             || (InRange(s, 0, 0xF4, 0xF4) && InRange(s, 1, 0x80, 0x8F)))
            && InRange(s, 2, 0x80, 0xBF) && InRange(s, 3, 0x80, 0xBF) then 4
    else 0
  }

  predicate Valid(s: Bytes) {
    s == [] || (CharLength(s) > 0 && Valid(s[CharLength(s)..]))
  }

  /** A decoded JSON string: Go's decoder only ever yields well-formed UTF-8. */
  type Text = s: Bytes | Valid(s) witness []

  lemma {:induction false} ValidConcat(a: Bytes, b: Bytes)
    requires Valid(a) && Valid(b)
    ensures Valid(a + b)
  {
    if a == [] {
      assert a + b == b;
    } else {
      var n := CharLength(a);
      assert CharLength(a + b) == n by {
        assert forall i | 0 <= i < |a| :: (a + b)[i] == a[i];
      }
      assert (a + b)[n..] == a[n..] + b;
      ValidConcat(a[n..], b);
    }
  }

  /** Whether p is the longest well-formed prefix of value that fits in limit bytes. */
  ghost predicate LongestValidPrefix(p: Bytes, value: Bytes, limit: nat) {
    && p <= value && |p| <= limit && Valid(p)
    && forall n | |p| < n <= |value| && n <= limit :: !Valid(value[..n])
  }

  /** The well-formed prefix that truncation keeps: shorten from `n` bytes until what is left is well-formed. */
  function ShortenToValid(value: Bytes, n: nat): (p: Bytes)
    requires n <= |value|
    ensures p <= value && |p| <= n && Valid(p)
    ensures forall m | |p| < m <= n :: !Valid(value[..m])
  {
    if Valid(value[..n]) then value[..n] else ShortenToValid(value, n - 1)
  }

  /** Truncation to at most `limit` bytes without splitting a character. */
  function Bounded(value: Bytes, limit: nat): (p: Bytes)
    requires Valid(value)
    ensures LongestValidPrefix(p, value, limit)
    ensures |p| == |value| <==> |value| <= limit
    ensures |p| == |value| ==> p == value
  {
    if |value| <= limit then assert value[..|value|] == value; value
    else ShortenToValid(value, limit)
  }

  /** The truncation loop: one byte is dropped at a time. */
  method Truncate(value: Bytes, limit: nat) returns (p: Bytes)
    requires Valid(value)
    ensures LongestValidPrefix(p, value, limit)
    ensures p == Bounded(value, limit)
  {
    if |value| <= limit {
      return value;
    }
    p := value[..limit];
    while !Valid(p)
      invariant |p| <= limit && p == value[..|p|]
      invariant ShortenToValid(value, limit) == ShortenToValid(value, |p|)
      decreases |p|
    {
      p := p[..|p| - 1];
    }
  }

  /** Length of the white-space character at the head of s (unicode.IsSpace), or 0. */
  function SpaceLength(s: Bytes): (n: nat)
    ensures n <= |s|
  {
    if InRange(s, 0, 0x09, 0x0D) || InRange(s, 0, 0x20, 0x20) then 1
    else if InRange(s, 0, 0xC2, 0xC2) && (InRange(s, 1, 0x85, 0x85) || InRange(s, 1, 0xA0, 0xA0)) then 2
    else if InRange(s, 0, 0xE1, 0xE1) && InRange(s, 1, 0x9A, 0x9A) && InRange(s, 2, 0x80, 0x80) then 3
    else if InRange(s, 0, 0xE2, 0xE2) && InRange(s, 1, 0x80, 0x80) &&
            (InRange(s, 2, 0x80, 0x8A) || InRange(s, 2, 0xA8, 0xA9) || InRange(s, 2, 0xAF, 0xAF)) then 3
    else if InRange(s, 0, 0xE2, 0xE2) && InRange(s, 1, 0x81, 0x81) && InRange(s, 2, 0x9F, 0x9F) then 3
    else if InRange(s, 0, 0xE3, 0xE3) && InRange(s, 1, 0x80, 0x80) && InRange(s, 2, 0x80, 0x80) then 3
    else 0
  }

  /** Whether trimming white space leaves nothing. */
  predicate Blank(s: Bytes) {
    s == [] || (SpaceLength(s) > 0 && Blank(s[SpaceLength(s)..]))
  }
}
