/** Go strings as sequences of Unicode scalar values: their order and the identity-text checks. */
module Strings {

  /** strings.Compare(a, b) < 0; on UTF-8 the byte order is the code point order. */
  predicate Less(a: string, b: string)
    decreases |a|
  {
    b != [] && (a == [] || a[0] < b[0] || (a[0] == b[0] && Less(a[1..], b[1..])))
  }

  lemma {:induction false} LessTrichotomy(a: string, b: string)
    ensures a == b || Less(a, b) || Less(b, a)
    ensures !(Less(a, b) && Less(b, a)) && (a == b ==> !Less(a, b))
  {
    if a != [] && b != [] && a[0] == b[0] {
      LessTrichotomy(a[1..], b[1..]);
      assert a == [a[0]] + a[1..] && b == [b[0]] + b[1..];
    }
  }

  lemma {:induction false} LessTransitive(a: string, b: string, c: string)
    requires Less(a, b) && Less(b, c)
    ensures Less(a, c)
  {
    if a != [] && a[0] == b[0] && b[0] == c[0] {
      LessTransitive(a[1..], b[1..], c[1..]);
    }
  }

  function Utf8Length(s: string): nat {
    if s == [] then 0
    else
      (if s[0] < '\U{80}' then 1 else if s[0] < '\U{800}' then 2 else if s[0] < '\U{10000}' then 3 else 4) +
      Utf8Length(s[1..])
  }

  predicate IsControl(c: char) {
    c < '\U{20}' || '\U{7F}' <= c <= '\U{9F}'
  }

  predicate IsSpace(c: char) {
    || '\U{09}' <= c <= '\U{0D}' || c == ' ' || c == '\U{85}' || c == '\U{A0}' || c == '\U{1680}'
    || '\U{2000}' <= c <= '\U{200A}' || c == '\U{2028}' || c == '\U{2029}' || c == '\U{202F}'
    || c == '\U{205F}' || c == '\U{3000}'
  }

  const MAX_IDENTITY_BYTES := 512

  /** Whether a value is acceptable identity text. */
  predicate ValidText(value: string, allowEmpty: bool) {
    if value == "" then allowEmpty
    else
      && Utf8Length(value) <= MAX_IDENTITY_BYTES
      && !IsSpace(value[0]) && !IsSpace(value[|value| - 1])
      && forall i | 0 <= i < |value| :: value[i] != '\U{FEFF}' && !IsControl(value[i])
  }

  predicate IsNameChar(c: char) {
    'a' <= c <= 'z' || '0' <= c <= '9' || c == '.' || c == '_' || c == '-'
  }

  /** Whether a namespaced evidence name is acceptable; such names are ASCII. */
  predicate ValidName(name: string) {
    name != "" && |name| <= 128 && forall i | 0 <= i < |name| :: IsNameChar(name[i])
  }
}
