/**
 * `String.prototype.trim` as the form and the header use it: whitespace and
 * line terminators are removed from both ends, nothing else changes.
 */
module Text {

  /** The WhiteSpace and LineTerminator code points of ECMAScript, which `trim` strips. */
  predicate IsWhitespace(c: char)
  {
    c == '\t' || c == '\n' || c == '\U{B}' || c == '\U{C}' || c == '\r' || c == ' ' ||
    c == '\U{A0}' || c == '\U{1680}' || ('\U{2000}' <= c <= '\U{200A}') ||
    c == '\U{2028}' || c == '\U{2029}' || c == '\U{202F}' || c == '\U{205F}' ||
    c == '\U{3000}' || c == '\U{FEFF}'
  }

  predicate AllWhitespace(s: string)
  {
    forall i :: 0 <= i < |s| ==> IsWhitespace(s[i])
  }

  /** The first non-blank position at or after `i`, or `|s|` when there is none. */
  function FirstNonBlank(s: string, i: nat): (k: nat)
    requires i <= |s|
    decreases |s| - i
    ensures i <= k <= |s|
    ensures forall j :: i <= j < k ==> IsWhitespace(s[j])
    ensures k < |s| ==> !IsWhitespace(s[k])
  {
    if i == |s| || !IsWhitespace(s[i]) then i else FirstNonBlank(s, i + 1)
  }

  /** Just past the last non-blank position in `s[lo..j]`, or `lo` when there is none. */
  function EndOfNonBlank(s: string, lo: nat, j: nat): (e: nat)
    requires lo <= j <= |s|
    decreases j - lo
    ensures lo <= e <= j
    ensures forall m :: e <= m < j ==> IsWhitespace(s[m])
    ensures e > lo ==> !IsWhitespace(s[e - 1])
  {
    if j == lo || !IsWhitespace(s[j - 1]) then j else EndOfNonBlank(s, lo, j - 1)
  }

  /** How many blanks `trim` cuts from the front of `s`. */
  function LeadingBlanks(s: string): nat
    ensures LeadingBlanks(s) <= |s|
  {
    FirstNonBlank(s, 0)
  }

  /**
   * `s.trim()`: a contiguous slice of `s` with blanks only cut away around it,
   * neither end of which is blank; it is empty exactly when `s` is all blank.
   */
  function Trim(s: string): (r: string)
    ensures LeadingBlanks(s) + |r| <= |s| && r == s[LeadingBlanks(s)..LeadingBlanks(s) + |r|]
    ensures AllWhitespace(s[..LeadingBlanks(s)]) && AllWhitespace(s[LeadingBlanks(s) + |r|..])
    ensures r == [] || (!IsWhitespace(r[0]) && !IsWhitespace(r[|r| - 1]))
    ensures r == [] <==> AllWhitespace(s)
  {
    var k := FirstNonBlank(s, 0);
    var e := EndOfNonBlank(s, k, |s|);
    assert forall j :: 0 <= j < k ==> s[..k][j] == s[j];
    assert forall j :: 0 <= j < |s| - e ==> s[e..][j] == s[e + j];
    assert e > k ==> s[k..e][0] == s[k] && s[k..e][e - k - 1] == s[e - 1];
    s[k..e]
  }

  /** Trimming twice is trimming once. */
  lemma TrimIdempotent(s: string)
    ensures Trim(Trim(s)) == Trim(s)
  {
    var r := Trim(s);
    if r != [] {
      assert FirstNonBlank(r, 0) == 0;
      assert EndOfNonBlank(r, 0, |r|) == |r|;
      assert r[0..|r|] == r;
    }
  }
}
