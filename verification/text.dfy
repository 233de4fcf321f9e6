/** Character classes, maximal runs and the few .NET string helpers the
    plugin relies on (`string.IsNullOrEmpty`, `string.IsNullOrWhiteSpace`,
    `string.ToUpperInvariant`). */
module Text {
  import opened Wrappers

  /** The bracketed character classes of the two URL patterns, plus the
      "anything but an ampersand" class used to read query parameters. */
  datatype CharClass = Digits | Letters | LettersOrHyphen | NotAmpersand

  predicate IsAsciiDigit(c: char) { '0' <= c <= '9' }

  predicate IsAsciiLetter(c: char) { 'a' <= c <= 'z' || 'A' <= c <= 'Z' }

  /** `[0-9]`, `[a-zA-Z]`, `[a-zA-Z-]` and `[^&]`. */
  predicate InClass(c: char, cls: CharClass) {
    match cls
    case Digits => IsAsciiDigit(c)
    case Letters => IsAsciiLetter(c)
    case LettersOrHyphen => IsAsciiLetter(c) || c == '-'
    case NotAmpersand => c != '&'
  }

  predicate AllIn(s: string, cls: CharClass) {
    forall k :: 0 <= k < |s| ==> InClass(s[k], cls)
  }

  /** A non-empty string of ASCII digits: the shape of a 64-bit Steam id in decimal. */
  predicate IsNumericId(s: string) {
    |s| > 0 && AllIn(s, Digits)
  }

  /** Length of the maximal run of `cls` characters at the start of `s`:
      what a greedy `[...]*` consumes there. */
  function RunLength(s: string, cls: CharClass): (n: nat)
    ensures n <= |s|
    ensures forall k :: 0 <= k < n ==> InClass(s[k], cls)
    ensures n < |s| ==> !InClass(s[n], cls)
    decreases |s|
  {
    if |s| > 0 && InClass(s[0], cls) then 1 + RunLength(s[1..], cls) else 0
  }

  /** A run of class characters that stops at the end or at a character
      outside the class is the maximal run. */
  lemma RunLengthIsUnique(s: string, cls: CharClass, k: nat)
    requires k <= |s|
    requires forall j :: 0 <= j < k ==> InClass(s[j], cls)
    requires k < |s| ==> !InClass(s[k], cls)
    ensures RunLength(s, cls) == k
  {
  }

  /** `s` holds the word `w` at position `i`. */
  predicate HasAt(s: string, i: nat, w: string) {
    i + |w| <= |s| && s[i..i + |w|] == w
  }

  /** Appending text keeps every word already present. */
  lemma HasAtAfterAppend(s: string, t: string, i: nat, w: string)
    requires HasAt(s, i, w)
    ensures HasAt(s + t, i, w)
  {
    assert (s + t)[i..i + |w|] == s[i..i + |w|];
  }

  /** The maximal run of `cls` characters at position `i` of `s`, read
      back as a word of `s`. */
  lemma RunIsWord(s: string, i: nat, cls: CharClass) returns (w: string)
    requires i <= |s|
    ensures |w| == RunLength(s[i..], cls) && w == s[i..i + |w|]
    ensures HasAt(s, i, w) && AllIn(w, cls)
    ensures i + |w| < |s| ==> !InClass(s[i + |w|], cls)
  {
    var rest := s[i..];
    var n := RunLength(rest, cls);
    w := s[i..i + n];
    assert rest[..n] == w;
    if i + n < |s| {
      assert rest[n] == s[i + n];
    }
  }

  /** A run of class characters at position `i` of `s` that stops at the end
      or at a character outside the class is the run that starts there. */
  lemma RunAt(s: string, i: nat, w: string, cls: CharClass)
    requires HasAt(s, i, w) && AllIn(w, cls)
    requires i + |w| < |s| ==> !InClass(s[i + |w|], cls)
    ensures RunLength(s[i..], cls) == |w|
    ensures s[i..][..|w|] == w
  {
    var rest := s[i..];
    assert rest[..|w|] == w;
    assert forall j :: 0 <= j < |w| ==> rest[j] == w[j];
    if |w| < |rest| {
      assert rest[|w|] == s[i + |w|];
    }
    RunLengthIsUnique(rest, cls, |w|);
  }

  /** `char.IsWhiteSpace`: the Unicode space separators, line and paragraph
      separators, and the control characters U+0009..U+000D and U+0085. */
  predicate IsWhiteSpace(c: char) {
    || '\U{9}' <= c <= '\U{D}'
    || c == ' '
    || c == '\U{85}'
    || c == '\U{A0}'
    || c == '\U{1680}'
    || '\U{2000}' <= c <= '\U{200A}'
    || c == '\U{2028}'
    || c == '\U{2029}'
    || c == '\U{202F}'
    || c == '\U{205F}'
    || c == '\U{3000}'
  }

  /** `string.IsNullOrEmpty`. */
  predicate IsNullOrEmpty(s: Option<string>) {
    s.None? || |s.value| == 0
  }

  /** `string.IsNullOrWhiteSpace`. */
  predicate IsNullOrWhiteSpace(s: Option<string>) {
    s.None? || forall k :: 0 <= k < |s.value| ==> IsWhiteSpace(s.value[k])
  }

  predicate IsAsciiLower(c: char) { 'a' <= c <= 'z' }

  /** `char.ToUpperInvariant`, restricted to the ASCII letters: a lower-case
      ASCII letter becomes its upper-case form, and every other character is
      kept as is. .NET keeps the dotless i (U+0131) too; what it does with
      the long s (U+017F) depends on its globalization backend. */
  function UpperInvariant(c: char): (u: char)
    ensures IsAsciiLetter(u) <==> IsAsciiLetter(c)
    ensures !IsAsciiLower(u)
    ensures u != c ==> IsAsciiLower(c) && (u as int) + 32 == c as int
  {
    if IsAsciiLower(c) then (c as int - 32) as char else c
  }

  /** `string.ToUpperInvariant`: character-wise upper casing. */
  function ToUpperInvariant(s: string): (u: string)
    ensures |u| == |s|
    ensures forall k :: 0 <= k < |u| ==> !IsAsciiLower(u[k])
    ensures forall k :: 0 <= k < |s| && !IsAsciiLower(s[k]) ==> u[k] == s[k]
  {
    seq(|s|, k requires 0 <= k < |s| => UpperInvariant(s[k]))
  }

  /** Upper casing twice is upper casing once. */
  lemma ToUpperInvariantIsIdempotent(s: string)
    ensures ToUpperInvariant(ToUpperInvariant(s)) == ToUpperInvariant(s)
  {
    var u := ToUpperInvariant(s);
    assert forall k :: 0 <= k < |u| ==> ToUpperInvariant(u)[k] == u[k];
  }

  /** Blank strings as `string.IsNullOrWhiteSpace` sees them: null, empty
      and all-space strings (the no-break space included) are blank; a
      string holding a letter is not. */
  lemma IsNullOrWhiteSpaceExamples()
    ensures IsNullOrWhiteSpace(None) && IsNullOrWhiteSpace(Some(""))
    ensures IsNullOrWhiteSpace(Some(" \t\r\n\U{A0}"))
    ensures !IsNullOrWhiteSpace(Some(" a "))
    ensures forall s: Option<string> :: IsNullOrEmpty(s) ==> IsNullOrWhiteSpace(s)
  {
    var t := " a ";
    assert !IsWhiteSpace(t[1]);
  }
}
