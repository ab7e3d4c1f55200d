/** The few string operations the sources rely on, with what they promise. */
module Text {

  /** The characters `trim` removes and `\s` matches. */
  predicate IsSpace(c: char) {
    IsSpaceCode(c as int)
  }

  predicate IsSpaceCode(n: int) {
    || 0x9 <= n <= 0xD || n == 0x20 || n == 0xA0 || n == 0x1680 || 0x2000 <= n <= 0x200A
    || n == 0x2028 || n == 0x2029 || n == 0x202F || n == 0x205F || n == 0x3000 || n == 0xFEFF
  }

  predicate IsDigit(c: char) {
    '0' <= c <= '9'
  }

  predicate AllDigits(s: string) {
    forall i | 0 <= i < |s| :: IsDigit(s[i])
  }

  /** The characters that `.` does not match in a pattern. */
  predicate IsLineTerminator(c: char) {
    c == '\n' || c == '\r' || c == '\U{2028}' || c == '\U{2029}'
  }

  predicate OneLine(s: string) {
    forall i | 0 <= i < |s| :: !IsLineTerminator(s[i])
  }

  function TrimStart(s: string): string {
    if s != "" && IsSpace(s[0]) then TrimStart(s[1..]) else s
  }

  function TrimEnd(s: string): string {
    if s != "" && IsSpace(s[|s| - 1]) then TrimEnd(s[..|s| - 1]) else s
  }

  /** What is left is a suffix that starts with no space. */
  lemma {:induction false} TrimStartIsSuffix(s: string)
    ensures var t := TrimStart(s);
            |t| <= |s| && s[|s| - |t|..] == t && (t == "" || !IsSpace(t[0]))
  {
    if s != "" && IsSpace(s[0]) { TrimStartIsSuffix(s[1..]); }
  }

  /** What is left is a prefix that ends with no space, and only spaces are gone. */
  lemma {:induction false} TrimEndIsPrefix(s: string)
    ensures var t := TrimEnd(s);
            t <= s && (t == "" || !IsSpace(t[|t| - 1])) && forall i | |t| <= i < |s| :: IsSpace(s[i])
  {
    if s != "" && IsSpace(s[|s| - 1]) { TrimEndIsPrefix(s[..|s| - 1]); }
  }

  function Trim(s: string): string {
    TrimEnd(TrimStart(s))
  }

  /** `pattern` stands in `s` at position `i`. */
  predicate At(s: string, pattern: string, i: nat) {
    i + |pattern| <= |s| && s[i..i + |pattern|] == pattern
  }

  /** The first occurrence at or after `from`, or -1. */
  function IndexFrom(s: string, pattern: string, from: nat): (k: int)
    ensures -1 <= k
    ensures k >= 0 ==> from <= k && At(s, pattern, k)
    ensures k >= 0 ==> forall i | from <= i < k :: !At(s, pattern, i)
    ensures k < 0 ==> forall i | from <= i :: !At(s, pattern, i)
    decreases |s| - from
  {
    if from + |pattern| > |s| then -1
    else if At(s, pattern, from) then from
    else IndexFrom(s, pattern, from + 1)
  }

  function IndexOf(s: string, pattern: string): (k: int)
    ensures -1 <= k
    ensures k >= 0 ==> At(s, pattern, k) && forall i | 0 <= i < k :: !At(s, pattern, i)
    ensures k < 0 ==> forall i: nat :: !At(s, pattern, i)
  {
    IndexFrom(s, pattern, 0)
  }

  /** The last occurrence at or before `upTo`, or -1. */
  function LastIndexOf(s: string, pattern: string, upTo: nat): (k: int)
    ensures -1 <= k <= upTo
    ensures k >= 0 ==> At(s, pattern, k) && forall i | k < i <= upTo :: !At(s, pattern, i)
    ensures k < 0 ==> forall i | 0 <= i <= upTo :: !At(s, pattern, i)
  {
    if At(s, pattern, upTo) then upTo
    else if upTo == 0 then -1
    else LastIndexOf(s, pattern, upTo - 1)
  }

  predicate Contains(s: string, pattern: string) {
    IndexOf(s, pattern) >= 0
  }

  predicate ContainsAny(s: string, patterns: seq<string>) {
    patterns != [] && (Contains(s, patterns[0]) || ContainsAny(s, patterns[1..]))
  }

  lemma {:induction false} ContainsAnyMeans(s: string, patterns: seq<string>)
    ensures ContainsAny(s, patterns) <==> exists k :: 0 <= k < |patterns| && Contains(s, patterns[k])
  {
    if patterns != [] {
      ContainsAnyMeans(s, patterns[1..]);
      if k :| 0 <= k < |patterns| && Contains(s, patterns[k]) && k > 0 {
        assert patterns[1..][k - 1] == patterns[k];
      }
      if k :| 0 <= k < |patterns[1..]| && Contains(s, patterns[1..][k]) {
        assert patterns[1..][k] == patterns[k + 1];
      }
    }
  }

  /** Lower case over ASCII and Latin-1. */
  function LowerChar(c: char): char {
    if 'A' <= c <= 'Z' || ('\U{00C0}' <= c <= '\U{00DE}' && c != '\U{00D7}') then (c as int + 32) as char else c
  }

  function Lower(s: string): (t: string)
    ensures |t| == |s|
  {
    seq(|s|, i requires 0 <= i < |s| => LowerChar(s[i]))
  }

  function Join(parts: seq<string>, separator: string): string {
    if parts == [] then ""
    else if |parts| == 1 then parts[0]
    else parts[0] + separator + Join(parts[1..], separator)
  }
}
