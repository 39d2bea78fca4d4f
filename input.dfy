/**
  The "is the input blank?" test both check handlers run first:
  `not text_input.strip()`, where `str.strip()` with no argument removes
  leading and trailing characters for which `str.isspace()` holds.
 */
module Input {

  /** `c.isspace()` for one code point: the ASCII controls tab to carriage return and 0x1C-0x1F, and the Unicode space separators. */
  predicate IsSpace(c: char) {
    || c == ' ' || ('\t' <= c <= '\r') || ('\U{1C}' <= c <= '\U{1F}')
    || c == '\U{85}' || c == '\U{A0}' || c == '\U{1680}'
    || ('\U{2000}' <= c <= '\U{200A}') || c == '\U{2028}' || c == '\U{2029}'
    || c == '\U{202F}' || c == '\U{205F}' || c == '\U{3000}'
  }

  /** The first position at or after `i` that is not white space. */
  function SkipForward(s: string, i: nat): (j: nat)
    requires i <= |s|
    ensures i <= j <= |s|
    ensures forall k :: i <= k < j ==> IsSpace(s[k])
    ensures j == |s| || !IsSpace(s[j])
    decreases |s| - i
  {
    if i < |s| && IsSpace(s[i]) then SkipForward(s, i + 1) else i
  }

  /** The position just after the last character before `j` that is not white space. */
  function SkipBackward(s: string, j: nat): (i: nat)
    requires j <= |s|
    ensures i <= j
    ensures forall k :: i <= k < j ==> IsSpace(s[k])
    ensures i == 0 || !IsSpace(s[i - 1])
  {
    if 0 < j && IsSpace(s[j - 1]) then SkipBackward(s, j - 1) else j
  }

  /**
    `s.strip()`: the slice `s[lo..hi]` whose ends are not white space, with
    only white space before `lo` and after `hi`.
   */
  function Strip(s: string): (r: string)
    ensures exists lo, hi ::
              && 0 <= lo <= hi <= |s| && r == s[lo..hi]
              && (forall i :: 0 <= i < lo ==> IsSpace(s[i]))
              && (forall i :: hi <= i < |s| ==> IsSpace(s[i]))
    ensures r == [] || (!IsSpace(r[0]) && !IsSpace(r[|r| - 1]))
  {
    var lo := SkipForward(s, 0);
    var hi := if lo == |s| then lo else SkipBackward(s, |s|);
    assert lo <= hi;
    s[lo..hi]
  }

  /** `not s.strip()`: the check handlers refuse such input. */
  predicate IsBlank(s: string) {
    Strip(s) == []
  }

  /** Input is blank exactly when every character of it is white space (the empty input included). */
  lemma BlankIffAllSpace(s: string)
    ensures IsBlank(s) <==> forall i :: 0 <= i < |s| ==> IsSpace(s[i])
  {
    var r := Strip(s);
    var lo, hi :| 0 <= lo <= hi <= |s| && r == s[lo..hi]
      && (forall i :: 0 <= i < lo ==> IsSpace(s[i]))
      && (forall i :: hi <= i < |s| ==> IsSpace(s[i]));
    if r != [] {
      assert s[lo] == r[0];
    }
  }
}
