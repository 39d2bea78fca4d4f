/**
  `Counter(words).most_common(n)`. A `Counter` lists its words in the order
  they were first seen; `most_common(n)` sorts those entries by descending
  count with a stable sort and keeps the first `n`. Sorting stably by count is
  sorting by the key (count descending, position in the counter ascending),
  which is how it is modelled: the counter's positions are sorted by that key.
 */
module Ranking {

  /** One `(word, count)` pair of a counter. */
  datatype Entry = Entry(word: string, count: nat)

  /** The number of occurrences of `w` in `ws`. */
  function Count(ws: seq<string>, w: string): nat {
    multiset(ws)[w]
  }

  predicate NoDuplicates(s: seq<string>) {
    forall a, b :: 0 <= a < b < |s| ==> s[a] != s[b]
  }

  /** `u` is seen before `v` in `ws`: every occurrence of `v` comes after some occurrence of `u`. */
  predicate SeenBefore(ws: seq<string>, u: string, v: string) {
    forall i :: 0 <= i < |ws| && ws[i] == v ==> u in ws[..i]
  }

  /** The keys of `Counter(ws)`: each word once, at the place it is first seen. */
  function Distinct(ws: seq<string>): (d: seq<string>)
    ensures forall w :: w in d <==> w in ws
    ensures NoDuplicates(d)
  {
    if ws == [] then []
    else
      var d := Distinct(ws[..|ws| - 1]);
      var last := ws[|ws| - 1];
      assert ws == ws[..|ws| - 1] + [last];
      if last in d then d else d + [last]
  }

  /** The counter's keys are in the order their words are first seen. */
  lemma {:induction false} DistinctInFirstSeenOrder(ws: seq<string>)
    ensures forall p, q :: 0 <= p < q < |Distinct(ws)| ==> SeenBefore(ws, Distinct(ws)[p], Distinct(ws)[q])
  {
    if ws != [] {
      var init, last := ws[..|ws| - 1], ws[|ws| - 1];
      assert ws == init + [last];
      DistinctInFirstSeenOrder(init);
      var d0, d := Distinct(init), Distinct(ws);
      forall p, q | 0 <= p < q < |d|
        ensures SeenBefore(ws, d[p], d[q])
      {
        forall i | 0 <= i < |ws| && ws[i] == d[q]
          ensures d[p] in ws[..i]
        {
          if q < |d0| {
            assert d[p] == d0[p] && d[q] == d0[q];
            if i < |init| {
              assert ws[..i] == init[..i];
              assert init[i] == d0[q];
            } else {
              var k :| 0 <= k < |init| && init[k] == d0[q];
              assert d0[p] in init[..k];
              assert init[..k] <= ws[..i];
            }
          } else {
            assert d[q] == last && last !in init;
            assert i == |init|;
            assert ws[..i] == init;
          }
        }
      }
    }
  }

  /** `Counter(ws).items()`: each distinct word with its number of occurrences, in counter order. */
  function Tally(ws: seq<string>): seq<Entry> {
    var d := Distinct(ws);
    seq(|d|, k requires 0 <= k < |d| => Entry(d[k], Count(ws, d[k])))
  }

  /** Position `i` of `t` comes before position `j` in `most_common`: larger count, or equal count and earlier. */
  predicate Precedes(t: seq<Entry>, i: nat, j: nat) {
    i < |t| && j < |t| && (t[i].count > t[j].count || (t[i].count == t[j].count && i < j))
  }

  /** `s` lists positions of `t` in `most_common` order. */
  predicate SortedBy(t: seq<Entry>, s: seq<nat>) {
    && (forall a :: 0 <= a < |s| ==> s[a] < |t|)
    && (forall a, b :: 0 <= a < b < |s| ==> Precedes(t, s[a], s[b]))
  }

  /** Insert position `i` into the sorted positions `s`. */
  function Insert(t: seq<Entry>, i: nat, s: seq<nat>): (r: seq<nat>)
    requires i < |t| && SortedBy(t, s) && i !in s
    ensures |r| == |s| + 1
    ensures forall x: nat :: x in r <==> x == i || x in s
    ensures SortedBy(t, r)
  {
    if s == [] || Precedes(t, i, s[0]) then [i] + s
    else
      var rest := Insert(t, i, s[1..]);
      assert forall a :: 0 <= a < |rest| ==> Precedes(t, s[0], rest[a]) by {
        forall a | 0 <= a < |rest| ensures Precedes(t, s[0], rest[a]) {
          if rest[a] != i {
            assert rest[a] in rest;
            assert rest[a] in s[1..];
            var b :| 0 <= b < |s| - 1 && s[1..][b] == rest[a];
            assert Precedes(t, s[0], s[b + 1]);
          }
        }
      }
      [s[0]] + rest
  }

  /** The positions `0 .. n-1` of `t`, sorted into `most_common` order. */
  function SortPositions(t: seq<Entry>, n: nat): (r: seq<nat>)
    requires n <= |t|
    ensures |r| == n
    ensures forall x: nat :: x in r <==> x < n
    ensures SortedBy(t, r)
  {
    if n == 0 then [] else Insert(t, n - 1, SortPositions(t, n - 1))
  }

  function Min(a: nat, b: nat): nat {
    if a < b then a else b
  }

  /** `Counter(ws).most_common(n)`. */
  function MostCommon(ws: seq<string>, n: nat): seq<Entry> {
    var t := Tally(ws);
    var order := SortPositions(t, |t|);
    seq(Min(n, |t|), k requires 0 <= k < Min(n, |t|) => t[order[k]])
  }

  /** `most_common(n)` has `n` entries, or one per distinct word when there are fewer. */
  lemma MostCommonLength(ws: seq<string>, n: nat)
    ensures |MostCommon(ws, n)| == Min(n, |Distinct(ws)|)
  {
  }

  /** Every entry is a word of `ws` with its exact number of occurrences, and no word is listed twice. */
  lemma MostCommonCounts(ws: seq<string>, n: nat)
    ensures var r := MostCommon(ws, n);
      && (forall k :: 0 <= k < |r| ==> r[k].word in ws && r[k].count == Count(ws, r[k].word))
      && (forall a, b :: 0 <= a < b < |r| ==> r[a].word != r[b].word)
  {
    var t := Tally(ws);
    var d := Distinct(ws);
    var order := SortPositions(t, |t|);
    var r := MostCommon(ws, n);
    forall a, b | 0 <= a < b < |r|
      ensures r[a].word != r[b].word
    {
      assert Precedes(t, order[a], order[b]);
      assert r[a].word == d[order[a]] && r[b].word == d[order[b]];
    }
  }

  /** Counts never increase down the list, and equal counts keep the order the words were first seen in. */
  lemma MostCommonOrder(ws: seq<string>, n: nat)
    ensures var r := MostCommon(ws, n);
      forall a, b :: 0 <= a < b < |r| ==>
        r[a].count > r[b].count || (r[a].count == r[b].count && SeenBefore(ws, r[a].word, r[b].word))
  {
    var t := Tally(ws);
    var d := Distinct(ws);
    var order := SortPositions(t, |t|);
    var r := MostCommon(ws, n);
    DistinctInFirstSeenOrder(ws);
    forall a, b | 0 <= a < b < |r|
      ensures r[a].count > r[b].count || (r[a].count == r[b].count && SeenBefore(ws, r[a].word, r[b].word))
    {
      assert Precedes(t, order[a], order[b]);
    }
  }

  /**
    A word of `ws` left out of `most_common(n)` is left out because `n` entries
    beat it: each has a larger count, or the same count and was seen first.
   */
  lemma MostCommonTop(ws: seq<string>, n: nat, w: string)
    requires w in ws
    requires forall k :: 0 <= k < |MostCommon(ws, n)| ==> MostCommon(ws, n)[k].word != w
    ensures var r := MostCommon(ws, n);
      && |r| == n
      && forall k :: 0 <= k < |r| ==>
           r[k].count > Count(ws, w) || (r[k].count == Count(ws, w) && SeenBefore(ws, r[k].word, w))
  {
    var t := Tally(ws);
    var d := Distinct(ws);
    var order := SortPositions(t, |t|);
    var r := MostCommon(ws, n);
    DistinctInFirstSeenOrder(ws);
    var x :| 0 <= x < |d| && d[x] == w;
    assert x in order;
    var p :| 0 <= p < |order| && order[p] == x;
    assert t[order[p]].word == w;
    assert forall k :: 0 <= k < |r| ==> r[k] == t[order[k]];
    assert p >= |r|;
    forall k | 0 <= k < |r|
      ensures r[k].count > Count(ws, w) || (r[k].count == Count(ws, w) && SeenBefore(ws, r[k].word, w))
    {
      assert Precedes(t, order[k], order[p]);
    }
  }

  /** A word occurs once in a list without duplicates, if at all. */
  lemma {:induction false} CountWithoutDuplicates(s: seq<string>, w: string)
    requires NoDuplicates(s)
    ensures Count(s, w) == if w in s then 1 else 0
  {
    if s != [] {
      assert s == [s[0]] + s[1..];
      CountWithoutDuplicates(s[1..], w);
    }
  }

  /** Appending distinct words adds one occurrence of each of them. */
  lemma CountAppendDistinct(ws: seq<string>, extra: seq<string>, w: string)
    requires NoDuplicates(extra)
    ensures Count(ws + extra, w) == Count(ws, w) + if w in extra then 1 else 0
  {
    assert multiset(ws + extra) == multiset(ws) + multiset(extra);
    CountWithoutDuplicates(extra, w);
  }

  /** A word seen before a word of a prefix is itself in that prefix. */
  lemma SeenBeforeInPrefix(ws: seq<string>, extra: seq<string>, u: string, v: string)
    requires SeenBefore(ws + extra, u, v) && v in ws
    ensures u in ws
  {
    var i :| 0 <= i < |ws| && ws[i] == v;
    assert (ws + extra)[i] == v;
    assert (ws + extra)[..i] == ws[..i];
  }

  /** A list of distinct words all found in `d` is no longer than `d`. */
  lemma {:induction false} DistinctSubsetLength(p: seq<string>, d: seq<string>)
    requires NoDuplicates(p) && forall x :: x in p ==> x in d
    ensures |p| <= |d|
  {
    if p != [] {
      assert p[0] in d;
      var i :| 0 <= i < |d| && d[i] == p[0];
      var rest := d[..i] + d[i + 1..];
      forall x | x in p[1..]
        ensures x in rest
      {
        assert x in d;
        var j :| 0 <= j < |d| && d[j] == x;
        assert x != p[0];
        if j < i {
          assert rest[j] == x;
        } else {
          assert rest[j - 1] == x;
        }
      }
      DistinctSubsetLength(p[1..], rest);
    }
  }
}
