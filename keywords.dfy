/**
  The keyword tokenizer shared by both scripts: the text is lower-cased and
  every match of the regular expression `\b\w{4,}\b` is returned, in order.
  With greedy matching that regex finds exactly the maximal runs of word
  characters that are at least four long, which is how it is modelled here.
  Word characters and lower-casing are modelled on ASCII.
 */
module Keywords {

  /** Shortest run of word characters that counts as a keyword. */
  const MIN_LENGTH := 4

  predicate IsWordChar(c: char) {
    ('a' <= c <= 'z') || ('A' <= c <= 'Z') || ('0' <= c <= '9') || c == '_'
  }

  predicate IsUpper(c: char) {
    'A' <= c <= 'Z'
  }

  /**
    Lower-casing of one character: an upper-case letter A-Z becomes the
    lower-case letter at the same place in the alphabet (`'A'` to `'a'`, ...,
    `'Z'` to `'z'`), and every other character is left alone.
   */
  function Lower(c: char): (d: char)
    ensures !IsUpper(d)
    ensures IsWordChar(d) <==> IsWordChar(c)
    ensures !IsUpper(c) ==> d == c
  {
    if IsUpper(c) then (c as int - 'A' as int + 'a' as int) as char else c
  }

  function LowerString(s: string): string {
    seq(|s|, k requires 0 <= k < |s| => Lower(s[k]))
  }

  /** A half-open interval `[lo, hi)` of positions in a string. */
  datatype Span = Span(lo: nat, hi: nat)

  /** `[lo, hi)` is a run of word characters that cannot be extended on either side. */
  predicate IsMaximalRun(s: string, lo: int, hi: int) {
    && 0 <= lo < hi <= |s|
    && (forall k :: lo <= k < hi ==> IsWordChar(s[k]))
    && (lo == 0 || !IsWordChar(s[lo - 1]))
    && (hi == |s| || !IsWordChar(s[hi]))
  }

  /** What one match of `\b\w{4,}\b` covers. */
  predicate IsKeywordSpan(s: string, lo: int, hi: int) {
    IsMaximalRun(s, lo, hi) && hi - lo >= MIN_LENGTH
  }

  /** Position `i` is not strictly inside a run of word characters. */
  predicate AtBoundary(s: string, i: nat)
    requires i <= |s|
  {
    i == 0 || i == |s| || !IsWordChar(s[i - 1]) || !IsWordChar(s[i])
  }

  /** The end of the run of word characters that starts at `i`. */
  function RunEnd(s: string, i: nat): (j: nat)
    requires i <= |s|
    ensures i <= j <= |s|
    ensures forall k :: i <= k < j ==> IsWordChar(s[k])
    ensures j == |s| || !IsWordChar(s[j])
    decreases |s| - i
  {
    if i == |s| || !IsWordChar(s[i]) then i else RunEnd(s, i + 1)
  }

  /** The scan of `findall`: the keyword spans of `s` that start at or after `i`. */
  function SpansFrom(s: string, i: nat): (r: seq<Span>)
    requires i <= |s| && AtBoundary(s, i)
    ensures forall k :: 0 <= k < |r| ==> i <= r[k].lo && IsKeywordSpan(s, r[k].lo, r[k].hi)
    ensures forall a, b :: 0 <= a < b < |r| ==> r[a].hi < r[b].lo
    decreases |s| - i
  {
    if i == |s| then []
    else if !IsWordChar(s[i]) then SpansFrom(s, i + 1)
    else
      var j := RunEnd(s, i);
      var rest := SpansFrom(s, j);
      if j - i >= MIN_LENGTH then [Span(i, j)] + rest else rest
  }

  /** The scan misses no keyword span at or after `i`. */
  lemma {:induction false} SpansFromComplete(s: string, i: nat, lo: nat, hi: nat)
    requires i <= |s| && AtBoundary(s, i)
    requires i <= lo && IsKeywordSpan(s, lo, hi)
    ensures Span(lo, hi) in SpansFrom(s, i)
    decreases |s| - i
  {
    if !IsWordChar(s[i]) {
      SpansFromComplete(s, i + 1, lo, hi);
    } else {
      var j := RunEnd(s, i);
      if lo == i {
        assert hi == |s| || !IsWordChar(s[hi]);
        assert j == |s| || !IsWordChar(s[j]);
        assert hi == j;
      } else {
        assert !IsWordChar(s[lo - 1]);
        assert j <= lo;
        SpansFromComplete(s, j, lo, hi);
      }
    }
  }

  lemma AllSpansFound(s: string)
    ensures forall lo: nat, hi: nat :: IsKeywordSpan(s, lo, hi) ==> Span(lo, hi) in SpansFrom(s, 0)
  {
    forall lo: nat, hi: nat | IsKeywordSpan(s, lo, hi)
      ensures Span(lo, hi) in SpansFrom(s, 0)
    {
      SpansFromComplete(s, 0, lo, hi);
    }
  }

  /** The matches of `\b\w{4,}\b` in `s`: exactly its keyword spans, from left to right. */
  function KeywordSpans(s: string): (r: seq<Span>)
    ensures forall k :: 0 <= k < |r| ==> IsKeywordSpan(s, r[k].lo, r[k].hi)
    ensures forall a, b :: 0 <= a < b < |r| ==> r[a].hi < r[b].lo
    ensures forall lo: nat, hi: nat :: IsKeywordSpan(s, lo, hi) ==> Span(lo, hi) in r
  {
    AllSpansFound(s);
    SpansFrom(s, 0)
  }

  /** The substrings of `s` that the spans cover, in the same order. */
  function Texts(s: string, spans: seq<Span>): (r: seq<string>)
    requires forall k :: 0 <= k < |spans| ==> spans[k].lo <= spans[k].hi <= |s|
    ensures |r| == |spans|
    ensures forall k :: 0 <= k < |r| ==> r[k] == s[spans[k].lo..spans[k].hi]
  {
    if spans == [] then [] else [s[spans[0].lo..spans[0].hi]] + Texts(s, spans[1..])
  }

  /** The scan `re.findall` performs from position `i`: the text of every run of four or more word characters. */
  function FindAllFrom(s: string, i: nat): seq<string>
    requires i <= |s|
    decreases |s| - i
  {
    if i == |s| then []
    else if !IsWordChar(s[i]) then FindAllFrom(s, i + 1)
    else
      var j := RunEnd(s, i);
      var rest := FindAllFrom(s, j);
      if j - i >= MIN_LENGTH then [s[i..j]] + rest else rest
  }

  /** From a boundary, the scan returns the texts of the keyword spans, in order. */
  lemma {:induction false} FindAllIsTexts(s: string, i: nat)
    requires i <= |s| && AtBoundary(s, i)
    ensures FindAllFrom(s, i) == Texts(s, SpansFrom(s, i))
    decreases |s| - i
  {
    if i < |s| {
      if !IsWordChar(s[i]) {
        FindAllIsTexts(s, i + 1);
      } else {
        var j := RunEnd(s, i);
        FindAllIsTexts(s, j);
        if j - i >= MIN_LENGTH {
          TextsCons(s, Span(i, j), SpansFrom(s, j));
        }
      }
    }
  }

  lemma TextsCons(s: string, span: Span, rest: seq<Span>)
    requires span.lo <= span.hi <= |s|
    requires forall k :: 0 <= k < |rest| ==> rest[k].lo <= rest[k].hi <= |s|
    ensures Texts(s, [span] + rest) == [s[span.lo..span.hi]] + Texts(s, rest)
  {
    assert ([span] + rest)[1..] == rest;
  }

  /** A token `findall` can return: four or more lower-case word characters. */
  predicate IsKeyword(w: string) {
    |w| >= MIN_LENGTH && forall c :: c in w ==> IsWordChar(c) && !IsUpper(c)
  }

  /** The texts of the keyword spans of a string without upper-case letters are keywords. */
  lemma SpanTextsAreKeywords(s: string)
    requires forall k :: 0 <= k < |s| ==> !IsUpper(s[k])
    ensures forall k :: 0 <= k < |KeywordSpans(s)| ==> IsKeyword(Texts(s, KeywordSpans(s))[k])
  {
    var spans := KeywordSpans(s);
    var r := Texts(s, spans);
    forall k | 0 <= k < |r|
      ensures IsKeyword(r[k])
    {
      assert IsKeywordSpan(s, spans[k].lo, spans[k].hi);
      forall c | c in r[k]
        ensures IsWordChar(c) && !IsUpper(c)
      {
        var m :| 0 <= m < |r[k]| && r[k][m] == c;
        assert c == s[spans[k].lo + m];
      }
    }
  }

  /** `extract_keywords`: `re.findall(r"\b\w{4,}\b", text.lower())`. */
  function ExtractKeywords(text: string): (r: seq<string>)
    ensures r == Texts(LowerString(text), KeywordSpans(LowerString(text)))
    ensures forall k :: 0 <= k < |r| ==> IsKeyword(r[k])
  {
    FindAllIsTexts(LowerString(text), 0);
    SpanTextsAreKeywords(LowerString(text));
    FindAllFrom(LowerString(text), 0)
  }

  /** Every token is the text of a keyword span of the lower-cased text. */
  lemma KeywordsSound(text: string, k: nat)
    requires k < |ExtractKeywords(text)|
    ensures exists lo: nat, hi: nat ::
              IsKeywordSpan(LowerString(text), lo, hi) && ExtractKeywords(text)[k] == LowerString(text)[lo..hi]
  {
    var s := LowerString(text);
    var spans := KeywordSpans(s);
    assert ExtractKeywords(text)[k] == s[spans[k].lo..spans[k].hi];
  }

  /** The text of every keyword span of the lower-cased text is a token. */
  lemma KeywordsComplete(text: string, lo: nat, hi: nat)
    requires IsKeywordSpan(LowerString(text), lo, hi)
    ensures LowerString(text)[lo..hi] in ExtractKeywords(text)
  {
    var s := LowerString(text);
    var spans := KeywordSpans(s);
    var k :| 0 <= k < |spans| && spans[k] == Span(lo, hi);
    assert ExtractKeywords(text)[k] == s[lo..hi];
  }

  /** Text whose every run of word characters is shorter than four (the empty text, say) has no tokens. */
  lemma NoLongRunNoKeywords(text: string)
    requires forall lo, hi :: IsMaximalRun(LowerString(text), lo, hi) ==> hi - lo < MIN_LENGTH
    ensures ExtractKeywords(text) == []
  {
  }

  /** A word holding an upper-case letter is never a token. */
  lemma UpperNeverKeyword(text: string, w: string, i: nat)
    requires i < |w| && IsUpper(w[i])
    ensures w !in ExtractKeywords(text)
  {
    var r := ExtractKeywords(text);
    forall k | 0 <= k < |r|
      ensures r[k] != w
    {
      assert IsKeyword(r[k]);
      if i < |r[k]| {
        assert r[k][i] in r[k];
      }
    }
  }

  /** `sep.join(parts)`. */
  function Join(parts: seq<string>, sep: string): string {
    if |parts| == 0 then []
    else if |parts| == 1 then parts[0]
    else parts[0] + sep + Join(parts[1..], sep)
  }

  /** The tokens of each part, one part after another. */
  function KeywordsOfEach(parts: seq<string>): seq<string> {
    if parts == [] then [] else ExtractKeywords(parts[0]) + KeywordsOfEach(parts[1..])
  }

  /** `x` is a prefix of `z` that a non-word character follows. */
  predicate SeparatedPrefix(x: string, z: string) {
    |x| < |z| && z[..|x|] == x && !IsWordChar(z[|x|])
  }

  lemma {:induction false} RunEndPrefix(x: string, z: string, i: nat)
    requires SeparatedPrefix(x, z) && i <= |x|
    ensures RunEnd(z, i) == RunEnd(x, i)
    decreases |x| - i
  {
    if i < |x| {
      assert z[i] == z[..|x|][i];
      if IsWordChar(x[i]) {
        RunEndPrefix(x, z, i + 1);
      }
    }
  }

  lemma {:induction false} RunEndShift(z: string, off: nat, k: nat)
    requires off <= |z| && k <= |z| - off
    ensures RunEnd(z, off + k) == off + RunEnd(z[off..], k)
    decreases |z| - off - k
  {
    if off + k < |z| {
      assert z[off..][k] == z[off + k];
      if IsWordChar(z[off + k]) {
        RunEndShift(z, off, k + 1);
      }
    }
  }

  lemma PrefixSlice(x: string, z: string, i: nat, j: nat)
    requires |x| <= |z| && z[..|x|] == x && i <= j <= |x|
    ensures z[i..j] == x[i..j]
  {
    assert z[..|x|][i..j] == z[i..j];
  }

  /** Scanning `z` from inside its separated prefix `x` finds the tokens of `x`, then those after the separator. */
  lemma {:induction false} ScanPrefix(x: string, z: string, i: nat)
    requires SeparatedPrefix(x, z) && i <= |x|
    ensures FindAllFrom(z, i) == FindAllFrom(x, i) + FindAllFrom(z, |x| + 1)
    decreases |x| - i
  {
    if i == |x| {
    } else {
      assert z[i] == z[..|x|][i];
      if !IsWordChar(x[i]) {
        ScanPrefix(x, z, i + 1);
      } else {
        var j := RunEnd(x, i);
        RunEndPrefix(x, z, i);
        ScanPrefix(x, z, j);
        PrefixSlice(x, z, i, j);
        var rz, rx, tail := FindAllFrom(z, j), FindAllFrom(x, j), FindAllFrom(z, |x| + 1);
        if j - i >= MIN_LENGTH {
          assert FindAllFrom(z, i) == [x[i..j]] + rz;
          assert FindAllFrom(x, i) == [x[i..j]] + rx;
          assert rz == rx + tail;
          assert [x[i..j]] + (rx + tail) == ([x[i..j]] + rx) + tail;
        } else {
          assert FindAllFrom(z, i) == rz;
          assert FindAllFrom(x, i) == rx;
        }
      }
    }
  }

  /** Scanning `z` from `off + k` finds what scanning `z[off..]` from `k` finds. */
  lemma {:induction false} ScanShift(z: string, off: nat, k: nat)
    requires off <= |z| && k <= |z| - off
    ensures FindAllFrom(z, off + k) == FindAllFrom(z[off..], k)
    decreases |z| - off - k
  {
    var y := z[off..];
    if k < |y| {
      assert z[off + k] == y[k];
      if !IsWordChar(y[k]) {
        ScanShift(z, off, k + 1);
      } else {
        var j := RunEnd(y, k);
        RunEndShift(z, off, k);
        ScanShift(z, off, j);
        assert z[off + k..off + j] == y[k..j];
      }
    }
  }

  lemma LowerConcat(a: string, b: string)
    ensures LowerString(a + b) == LowerString(a) + LowerString(b)
  {
  }

  /** Scanning two strings joined by one non-word character finds the tokens of each. */
  lemma FindAllSeparated(a: string, sep: char, b: string)
    requires !IsWordChar(sep)
    ensures FindAllFrom(a + [sep] + b, 0) == FindAllFrom(a, 0) + FindAllFrom(b, 0)
  {
    var z := a + [sep] + b;
    assert z[..|a|] == a && z[|a|] == sep;
    assert z[|a| + 1..] == b;
    ScanPrefix(a, z, 0);
    ScanShift(z, |a| + 1, 0);
  }

  /** Joining two texts with a space never fuses or splits their tokens. */
  lemma KeywordsOfSpaced(x: string, y: string)
    ensures ExtractKeywords(x + " " + y) == ExtractKeywords(x) + ExtractKeywords(y)
  {
    LowerConcat(x, " " + y);
    LowerConcat(" ", y);
    assert LowerString(x + " " + y) == LowerString(x) + [' '] + LowerString(y);
    FindAllSeparated(LowerString(x), ' ', LowerString(y));
  }

  /** The tokens of the space-joined texts are the tokens of each text, in order. */
  lemma {:induction false} KeywordsOfJoin(parts: seq<string>)
    ensures ExtractKeywords(Join(parts, " ")) == KeywordsOfEach(parts)
  {
    if |parts| == 0 {
      assert ExtractKeywords([]) == [];
    } else if |parts| == 1 {
      assert KeywordsOfEach(parts[1..]) == [];
    } else {
      KeywordsOfJoin(parts[1..]);
      KeywordsOfSpaced(parts[0], Join(parts[1..], " "));
    }
  }
}
