/** ASCII text helpers. A `char` stands for one byte, so a `string` is the byte content of a file. */
module Text {
  const LF: char := '\n'
  const CR: char := '\r'

  predicate IsDigit(c: char) { '0' <= c <= '9' }

  predicate IsUpperLetter(c: char) { 'A' <= c <= 'Z' }

  predicate IsLowerLetter(c: char) { 'a' <= c <= 'z' }

  /** The ASCII members of the regex class `\s` and of `char::is_whitespace`. */
  predicate IsSpace(c: char) { c == ' ' || '\t' <= c <= '\r' }

  function UpperChar(c: char): char {
    if IsLowerLetter(c) then (c as int - 32) as char else c
  }

  function LowerChar(c: char): char {
    if IsUpperLetter(c) then (c as int + 32) as char else c
  }

  /** `to_ascii_uppercase`. */
  function Upper(s: string): (r: string) {
    seq(|s|, i requires 0 <= i < |s| => UpperChar(s[i]))
  }

  /** `to_ascii_lowercase`. */
  function Lower(s: string): (r: string) {
    seq(|s|, i requires 0 <= i < |s| => LowerChar(s[i]))
  }

  /** `eq_ignore_ascii_case`. */
  predicate SameIgnoringCase(a: string, b: string) { Lower(a) == Lower(b) }

  function TrimStart(s: string): (r: string)
    ensures |r| <= |s|
  {
    if s != [] && IsSpace(s[0]) then TrimStart(s[1..]) else s
  }

  function TrimEnd(s: string): (r: string)
    ensures r <= s
  {
    if s != [] && IsSpace(s[|s| - 1]) then TrimEnd(s[..|s| - 1]) else s
  }

  function Trim(s: string): string { TrimEnd(TrimStart(s)) }

  /** `trim_end_matches(['\n', '\r'])`. */
  function TrimLineEnd(s: string): (r: string)
    ensures r <= s
  {
    if s != [] && (s[|s| - 1] == LF || s[|s| - 1] == CR) then TrimLineEnd(s[..|s| - 1]) else s
  }

  predicate StartsAt(s: string, literal: string, i: nat) {
    i + |literal| <= |s| && s[i..i + |literal|] == literal
  }

  /** `str::contains`. */
  predicate Contains(s: string, literal: string) {
    exists i | 0 <= i <= |s| :: StartsAt(s, literal, i)
  }

  /** The text without the listed characters. */
  function Without(s: string, dropped: set<char>): string {
    if s == [] then []
    else if s[0] in dropped then Without(s[1..], dropped)
    else [s[0]] + Without(s[1..], dropped)
  }

  /** The length of the first line, its newline excluded. */
  function LineLength(source: string): (r: nat)
    ensures r <= |source| && LF !in source[..r] && (r < |source| ==> source[r] == LF)
  {
    if source == [] || source[0] == LF then 0
    else
      var r := 1 + LineLength(source[1..]);
      assert source[..r] == [source[0]] + source[1..][..r - 1];
      r
  }

  lemma {:induction false} LineLengthOf(line: string, rest: string)
    requires LF !in line
    ensures LineLength(line + [LF] + rest) == |line|
  {
    if line != [] {
      assert (line + [LF] + rest)[1..] == line[1..] + [LF] + rest;
      LineLengthOf(line[1..], rest);
    }
  }

  /** `strip_suffix('\r')`. */
  function StripCr(line: string): string {
    if line != [] && line[|line| - 1] == CR then line[..|line| - 1] else line
  }
}
