/** Character-level string helpers: ASCII upper-casing (Java toUpperCase on the
    letters the order statuses use) and trimming, for Java's String.trim (the
    test behind @NotBlank) and for ECMAScript's String.prototype.trim. */
module Text {

  /** Upper-cases an ASCII lower-case letter and leaves every other character alone. */
  function UpperChar(c: char): char {
    if 'a' <= c <= 'z' then (c as int - 32) as char else c
  }

  function ToUpper(s: string): (r: string)
    ensures |r| == |s|
  {
    seq(|s|, i requires 0 <= i < |s| => UpperChar(s[i]))
  }

  /** Equal after ASCII upper-casing, character by character. */
  predicate EqualsIgnoringCase(a: string, b: string) {
    |a| == |b| && forall i :: 0 <= i < |a| ==> UpperChar(a[i]) == UpperChar(b[i])
  }

  /** Upper-casing `s` yields an upper-case `n` exactly when the two agree up to case. */
  lemma ToUpperMatches(s: string, n: string)
    requires forall i :: 0 <= i < |n| ==> !('a' <= n[i] <= 'z')
    ensures ToUpper(s) == n <==> EqualsIgnoringCase(s, n)
  {
    if EqualsIgnoringCase(s, n) {
      assert forall i :: 0 <= i < |n| ==> ToUpper(s)[i] == n[i];
    }
  }

  /** What Java's String.trim removes: every character up to U+0020. */
  predicate JavaSpace(c: char) {
    c <= ' '
  }

  /** What ECMAScript's trim removes: the WhiteSpace and LineTerminator code points. */
  predicate JsSpace(c: char) {
    var n := c as int;
    n == 0x09 || n == 0x0A || n == 0x0B || n == 0x0C || n == 0x0D || n == 0x20 ||
    n == 0xA0 || n == 0x1680 || (0x2000 <= n <= 0x200A) || n == 0x2028 || n == 0x2029 ||
    n == 0x202F || n == 0x205F || n == 0x3000 || n == 0xFEFF
  }

  /** Number of leading characters that `space` removes. */
  function LeadingCount(s: string, space: char -> bool): (k: nat)
    ensures k <= |s|
    ensures forall i :: 0 <= i < k ==> space(s[i])
    ensures k < |s| ==> !space(s[k])
  {
    if |s| > 0 && space(s[0]) then 1 + LeadingCount(s[1..], space) else 0
  }

  /** Number of trailing characters that `space` removes. */
  function TrailingCount(s: string, space: char -> bool): (k: nat)
    ensures k <= |s|
    ensures forall i :: |s| - k <= i < |s| ==> space(s[i])
    ensures k < |s| ==> !space(s[|s| - 1 - k])
  {
    if |s| > 0 && space(s[|s| - 1]) then 1 + TrailingCount(s[..|s| - 1], space) else 0
  }

  /** `s` without its leading and trailing `space` characters. */
  function Trim(s: string, space: char -> bool): (r: string)
    ensures |r| <= |s|
    ensures |r| == 0 <==> forall i :: 0 <= i < |s| ==> space(s[i])
    ensures |r| > 0 ==> !space(r[0]) && !space(r[|r| - 1])
    ensures forall i :: 0 <= i < |r| ==> r[i] in s
  {
    var rest := s[LeadingCount(s, space)..];
    rest[..|rest| - TrailingCount(rest, space)]
  }

  /** Trimming removes a run of `space` characters at each end and keeps the
      interior as it is. */
  lemma TrimIsSlice(s: string, space: char -> bool)
    ensures exists a, b ::
      && 0 <= a <= b <= |s| && Trim(s, space) == s[a..b]
      && (forall i :: 0 <= i < a ==> space(s[i])) && (forall i :: b <= i < |s| ==> space(s[i]))
  {
    var k := LeadingCount(s, space);
    var rest := s[k..];
    var j := TrailingCount(rest, space);
    assert Trim(s, space) == s[k..|s| - j];
    forall i | |s| - j <= i < |s|
      ensures space(s[i])
    {
      assert s[i] == rest[i - k];
    }
  }

  /** A string that neither starts nor ends with a removable character is left as it is. */
  lemma TrimUntouched(s: string, space: char -> bool)
    requires |s| > 0 && !space(s[0]) && !space(s[|s| - 1])
    ensures Trim(s, space) == s
  {
    assert s[0..] == s;
  }

  /** Hibernate's @NotBlank on a present string: something is left after String.trim. */
  predicate NotBlank(s: string) {
    |Trim(s, JavaSpace)| > 0
  }

  lemma NotBlankMeansVisibleChar(s: string)
    ensures NotBlank(s) <==> exists i :: 0 <= i < |s| && s[i] > ' '
  {
  }
}
