/** String helpers of the discovery crate: lengths in UTF-8 bytes, trimming, containment. */
module Text {

  function Utf8Width(c: char): nat {
    if c < '\U{80}' then 1 else if c < '\U{800}' then 2 else if c < '\U{10000}' then 3 else 4
  }

  function ByteLength(s: string): nat {
    if s == "" then 0 else Utf8Width(s[0]) + ByteLength(s[1..])
  }

  /** The Unicode White_Space property. */
  predicate IsWhitespace(c: char) {
    || '\U{9}' <= c <= '\U{d}' || c == ' ' || c == '\U{85}' || c == '\U{a0}' || c == '\U{1680}'
    || '\U{2000}' <= c <= '\U{200a}' || c == '\U{2028}' || c == '\U{2029}' || c == '\U{202f}'
    || c == '\U{205f}' || c == '\U{3000}'
  }

  predicate IsBlank(s: string) {
    forall i | 0 <= i < |s| :: IsWhitespace(s[i])
  }

  predicate NonEmptyBounded(s: string, maximumBytes: nat) {
    !IsBlank(s) && ByteLength(s) <= maximumBytes
  }

  predicate OccursAt(s: string, pattern: string, at: nat) {
    at + |pattern| <= |s| && s[at..at + |pattern|] == pattern
  }

  predicate Contains(s: string, pattern: string) {
    exists at | 0 <= at <= |s| :: OccursAt(s, pattern, at)
  }

  function AsciiLower(c: char): char {
    if 'A' <= c <= 'Z' then c - 'A' + 'a' else c
  }

  function ToAsciiLower(s: string): string {
    seq(|s|, i requires 0 <= i < |s| => AsciiLower(s[i]))
  }

  predicate IsAsciiDigit(c: char) { '0' <= c <= '9' }

  predicate IsAsciiAlphabetic(c: char) { 'a' <= c <= 'z' || 'A' <= c <= 'Z' }

  predicate IsSeparator(c: char) { c == '/' || c == '\\' }

  function TrimEndSeparators(s: string): string {
    if s != "" && IsSeparator(s[|s| - 1]) then TrimEndSeparators(s[..|s| - 1]) else s
  }

  /** The last non-empty component of a path. */
  function FileName(path: string): (r: string)
    ensures forall i | 0 <= i < |r| :: !IsSeparator(r[i])
  {
    AfterLastSeparator(TrimEndSeparators(path))
  }

  function AfterLastSeparator(s: string): (r: string)
    ensures forall i | 0 <= i < |r| :: !IsSeparator(r[i])
  {
    if s == "" || IsSeparator(s[|s| - 1]) then ""
    else AfterLastSeparator(s[..|s| - 1]) + [s[|s| - 1]]
  }
}
