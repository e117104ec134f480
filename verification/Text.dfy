// The string primitives the services lean on. Case folding covers ASCII only.

module Text {
  import opened Wrappers

  // White space and line terminators as String.prototype.trim sees them.
  predicate IsWhitespace(c: char) {
    || '\t' <= c <= '\r'
    || c == ' '
    || c == '\U{A0}'
    || c == '\U{1680}'
    || '\U{2000}' <= c <= '\U{200A}'
    || c == '\U{2028}' || c == '\U{2029}' || c == '\U{202F}' || c == '\U{205F}'
    || c == '\U{3000}' || c == '\U{FEFF}'
  }

  function TrimStart(s: string): string {
    if s != "" && IsWhitespace(s[0]) then TrimStart(s[1..]) else s
  }

  function TrimEnd(s: string): string {
    if s != "" && IsWhitespace(s[|s| - 1]) then TrimEnd(s[..|s| - 1]) else s
  }

  function Trim(s: string): string {
    TrimEnd(TrimStart(s))
  }

  predicate IsBlank(s: string) {
    Trim(s) == ""
  }

  // A text that says something once it is trimmed.
  predicate Shows(given: Option<string>) {
    given.Some? && Trim(given.value) != ""
  }

  // What is kept of a text that is trimmed, with nothing left counting as none.
  predicate Keeps(given: Option<string>, kept: Option<string>) {
    if Shows(given) then kept == Some(Trim(given.value)) else kept.None?
  }

  // A text that shows at both ends.
  lemma Visible(s: string)
    requires s != "" && !IsWhitespace(s[0]) && !IsWhitespace(s[|s| - 1])
    ensures Trim(s) == s && !IsBlank(s)
  {
  }

  predicate IsDigit(c: char) {
    '0' <= c <= '9'
  }

  function LowerChar(c: char): char {
    if 'A' <= c <= 'Z' then c - 'A' + 'a' else c
  }

  function UpperChar(c: char): char {
    if 'a' <= c <= 'z' then c - 'a' + 'A' else c
  }

  function Lower(s: string): (t: string)
    ensures |t| == |s|
    ensures forall i :: 0 <= i < |s| ==> t[i] == LowerChar(s[i])
  {
    if s == "" then "" else [LowerChar(s[0])] + Lower(s[1..])
  }

  function Upper(s: string): (t: string)
    ensures |t| == |s|
    ensures forall i :: 0 <= i < |s| ==> t[i] == UpperChar(s[i])
  {
    if s == "" then "" else [UpperChar(s[0])] + Upper(s[1..])
  }

  predicate StartsWith(s: string, prefix: string) {
    prefix <= s
  }

  predicate OccursAt(s: string, fragment: string, i: int) {
    0 <= i <= |s| - |fragment| && s[i..i + |fragment|] == fragment
  }

  predicate Contains(s: string, fragment: string) {
    exists i :: 0 <= i <= |s| && OccursAt(s, fragment, i)
  }

  lemma LowerIsIdempotent(s: string)
    ensures Lower(Lower(s)) == Lower(s)
  {
    var once, twice := Lower(s), Lower(Lower(s));
    assert forall i :: 0 <= i < |s| ==> twice[i] == LowerChar(once[i]) == once[i];
  }
}
