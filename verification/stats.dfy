/** The column aggregates the reporters print: mode, value counts, min, max,
    sum and mean, over columns given as sequences. */
module Stats {
  import opened Common

  /** How often x occurs in the column. */
  function Count<T(==)>(s: seq<T>, x: T): (r: nat)
    ensures r > 0 <==> x in s
    ensures r <= |s|
  {
    if s == [] then 0
    else
      assert x in s <==> x == s[0] || x in s[1..];
      (if s[0] == x then 1 else 0) + Count(s[1..], x)
  }

  /** The column with every occurrence of x dropped, the rest in order. */
  function RemoveAll<T(==,!new)>(s: seq<T>, x: T): (r: seq<T>)
    ensures |r| <= |s|
    ensures x in s ==> |r| < |s|
  {
    if s == [] then []
    else
      assert x in s <==> x == s[0] || x in s[1..];
      if s[0] == x then RemoveAll(s[1..], x) else [s[0]] + RemoveAll(s[1..], x)
  }

  /** Dropping x leaves every other value as frequent as it was, and
      shortens the column by the occurrences of x. */
  lemma {:induction false} RemoveAllCount<T(!new)>(s: seq<T>, x: T, y: T)
    ensures Count(RemoveAll(s, x), y) == if y == x then 0 else Count(s, y)
    ensures |RemoveAll(s, x)| == |s| - Count(s, x)
  {
    if s != [] {
      RemoveAllCount(s[1..], x, y);
      assert s == [s[0]] + s[1..];
      if s[0] != x {
        assert RemoveAll(s, x) == [s[0]] + RemoveAll(s[1..], x);
      }
    }
  }

  /** Dropping x keeps exactly the other values of the column. */
  lemma RemoveAllKeys<T(!new)>(s: seq<T>, x: T, y: T)
    ensures y in RemoveAll(s, x) <==> y in s && y != x
  {
    RemoveAllCount(s, x, y);
  }

  /** The candidate occurring most often in s; among equally frequent ones,
      the earliest candidate. */
  function MostFrequentAmong<T(==,!new)>(s: seq<T>, cands: seq<T>): (r: T)
    requires |cands| > 0
    ensures r in cands
  {
    if |cands| == 1 then cands[0]
    else
      var best := MostFrequentAmong(s, cands[1..]);
      if Count(s, cands[0]) >= Count(s, best) then cands[0] else best
  }

  /** No candidate occurs more often than the one chosen. */
  lemma {:induction false} MostFrequentIsMost<T(!new)>(s: seq<T>, cands: seq<T>)
    requires |cands| > 0
    ensures forall c :: c in cands ==> Count(s, c) <= Count(s, MostFrequentAmong(s, cands))
  {
    if |cands| > 1 {
      MostFrequentIsMost(s, cands[1..]);
      assert forall c :: c in cands ==> c == cands[0] || c in cands[1..];
    }
  }

  /** Series.mode() narrowed to one value: a value of the column no other
      value outnumbers; None for an empty column, where mode()[0] raises. */
  function Mode<T(==,!new)>(s: seq<T>): (r: Option<T>)
    ensures r.None? <==> s == []
    ensures r.Some? ==> r.value in s
    ensures r.Some? ==> forall x :: Count(s, x) <= Count(s, r.value)
  {
    if s == [] then None
    else
      MostFrequentIsMost(s, s);
      Some(MostFrequentAmong(s, s))
  }

  /** The distinct values of the column, most frequent first; among equally
      frequent ones, the one first in row order. */
  function Ranking<T(==,!new)>(s: seq<T>): (r: seq<T>)
    decreases |s|
  {
    if s == [] then []
    else
      var m := MostFrequentAmong(s, s);
      [m] + Ranking(RemoveAll(s, m))
  }

  /** The ranking starts with the most frequent value and goes on with the
      ranking of the column without it. */
  lemma RankingHead<T(!new)>(s: seq<T>, j: int)
    requires 0 < j < |Ranking(s)|
    ensures var m := MostFrequentAmong(s, s);
      Ranking(s)[0] == m &&
      |Ranking(s)| == 1 + |Ranking(RemoveAll(s, m))| &&
      Ranking(s)[j] == Ranking(RemoveAll(s, m))[j - 1]
  {
  }

  /** The ranking lists exactly the values of the column. */
  lemma {:induction false} RankingKeys<T(!new)>(s: seq<T>, x: T)
    ensures x in s <==> x in Ranking(s)
    decreases |s|
  {
    if s != [] {
      var m := MostFrequentAmong(s, s);
      var rest := RemoveAll(s, m);
      RankingKeys(rest, x);
      RemoveAllKeys(s, m, x);
      assert Ranking(s) == [m] + Ranking(rest);
    }
  }

  /** A value ranked after the first is a value of the column without the first. */
  lemma RankedLater<T(!new)>(s: seq<T>, j: int)
    requires 0 < j < |Ranking(s)|
    ensures Ranking(s)[j] in RemoveAll(s, MostFrequentAmong(s, s))
  {
    var rest := RemoveAll(s, MostFrequentAmong(s, s));
    RankingHead(s, j);
    RankingKeys(rest, Ranking(rest)[j - 1]);
  }

  /** No value is ranked twice. */
  lemma {:induction false} RankingDistinct<T(!new)>(s: seq<T>, i: int, j: int)
    requires 0 <= i < j < |Ranking(s)|
    ensures Ranking(s)[i] != Ranking(s)[j]
    decreases |s|
  {
    RankingHead(s, j);
    RankedLater(s, j);
    RemoveAllKeys(s, MostFrequentAmong(s, s), Ranking(s)[j]);
    if i > 0 {
      RankingHead(s, i);
      RankingDistinct(RemoveAll(s, MostFrequentAmong(s, s)), i - 1, j - 1);
    }
  }

  /** A value ranked after the first is as frequent in the column as in the
      column without the first. */
  lemma RankedLaterCount<T(!new)>(s: seq<T>, j: int)
    requires 0 < j < |Ranking(s)|
    ensures Count(s, Ranking(s)[j]) == Count(RemoveAll(s, MostFrequentAmong(s, s)), Ranking(s)[j])
  {
    var m := MostFrequentAmong(s, s);
    RankedLater(s, j);
    RemoveAllCount(s, m, Ranking(s)[j]);
  }

  /** No value is ranked above the first. */
  lemma RankedFirstIsMost<T(!new)>(s: seq<T>, j: int)
    requires 0 < j < |Ranking(s)|
    ensures Count(s, Ranking(s)[0]) >= Count(s, Ranking(s)[j])
  {
    RankingHead(s, j);
    RankedLater(s, j);
    MostFrequentIsMost(s, s);
  }

  /** If counts do not increase down the ranking of the column without its
      first value, they do not increase from position i down to j > i > 0. */
  lemma RankedLaterDescending<T(!new)>(s: seq<T>, i: int, j: int)
    requires 0 < i < j < |Ranking(s)|
    requires var rest := RemoveAll(s, MostFrequentAmong(s, s));
      Count(rest, Ranking(rest)[i - 1]) >= Count(rest, Ranking(rest)[j - 1])
    ensures Count(s, Ranking(s)[i]) >= Count(s, Ranking(s)[j])
  {
    RankingHead(s, i);
    RankingHead(s, j);
    RankedLaterCount(s, i);
    RankedLaterCount(s, j);
  }

  /** Counts never increase down the ranking. */
  lemma {:induction false} RankingDescending<T(!new)>(s: seq<T>, i: int, j: int)
    requires 0 <= i < j < |Ranking(s)|
    ensures Count(s, Ranking(s)[i]) >= Count(s, Ranking(s)[j])
    decreases |s|
  {
    if i == 0 {
      RankedFirstIsMost(s, j);
    } else {
      RankingHead(s, j);
      RankingDescending(RemoveAll(s, MostFrequentAmong(s, s)), i - 1, j - 1);
      RankedLaterDescending(s, i, j);
    }
  }

  /** Each value of ks paired with its number of occurrences in s. */
  function Tally<T(==)>(s: seq<T>, ks: seq<T>): (r: seq<(T, nat)>)
    ensures |r| == |ks|
    ensures forall i :: 0 <= i < |ks| ==> r[i] == (ks[i], Count(s, ks[i]))
  {
    if ks == [] then [] else [(ks[0], Count(s, ks[0]))] + Tally(s, ks[1..])
  }

  /** Series.value_counts(): each distinct value of the column once, with the
      number of its occurrences, most frequent first (ties: first in row order). */
  function ValueCounts<T(==,!new)>(s: seq<T>): (r: seq<(T, nat)>)
    ensures forall i :: 0 <= i < |r| ==> r[i].1 == Count(s, r[i].0)
  {
    Tally(s, Ranking(s))
  }

  /** The values of a value-counts table, in its order. */
  function Keys<T>(vc: seq<(T, nat)>): (r: seq<T>)
    ensures |r| == |vc|
    ensures forall i :: 0 <= i < |vc| ==> r[i] == vc[i].0
  {
    seq(|vc|, i requires 0 <= i < |vc| => vc[i].0)
  }

  function SumCounts<T>(vc: seq<(T, nat)>): nat {
    if vc == [] then 0 else vc[0].1 + SumCounts(vc[1..])
  }

  /** Each entry of value_counts carries the number of occurrences of its value. */
  lemma ValueCountsCounts<T(!new)>(s: seq<T>, i: int)
    requires 0 <= i < |ValueCounts(s)|
    ensures ValueCounts(s)[i].1 == Count(s, ValueCounts(s)[i].0) > 0
  {
    RankingKeys(s, Ranking(s)[i]);
  }

  /** The values listed are exactly the values of the column. */
  lemma ValueCountsKeys<T(!new)>(s: seq<T>, x: T)
    ensures x in s <==> x in Keys(ValueCounts(s))
  {
    RankingKeys(s, x);
    assert Keys(ValueCounts(s)) == Ranking(s);
  }

  /** No value is listed twice. */
  lemma ValueCountsDistinct<T(!new)>(s: seq<T>, i: int, j: int)
    requires 0 <= i < j < |ValueCounts(s)|
    ensures ValueCounts(s)[i].0 != ValueCounts(s)[j].0
  {
    RankingDistinct(s, i, j);
  }

  /** Counts never increase down the listing. */
  lemma ValueCountsDescending<T(!new)>(s: seq<T>, i: int, j: int)
    requires 0 <= i < j < |ValueCounts(s)|
    ensures ValueCounts(s)[i].1 >= ValueCounts(s)[j].1
  {
    RankingDescending(s, i, j);
  }

  /** Counting the values of u in s, where each has the count it has in u,
      adds up to the length of u. */
  lemma {:induction false} TallyOfRanking<T(!new)>(s: seq<T>, u: seq<T>)
    requires forall y :: y in u ==> Count(s, y) == Count(u, y)
    ensures SumCounts(Tally(s, Ranking(u))) == |u|
    decreases |u|
  {
    if u != [] {
      var m := MostFrequentAmong(u, u);
      var rest := RemoveAll(u, m);
      RemoveAllCount(u, m, m);
      forall y | y in rest
        ensures Count(s, y) == Count(rest, y)
      {
        RemoveAllCount(u, m, y);
      }
      TallyOfRanking(s, rest);
      assert Ranking(u) == [m] + Ranking(rest);
      assert Tally(s, Ranking(u))[1..] == Tally(s, Ranking(rest));
    }
  }

  /** The counts add up to the length of the column. */
  lemma ValueCountsTotal<T(!new)>(s: seq<T>)
    ensures SumCounts(ValueCounts(s)) == |s|
  {
    TallyOfRanking(s, s);
  }

  /** The values present in a column whose empty cells are None (what
      min, max, mode and value_counts look at). */
  function Present<T(!new)>(s: seq<Option<T>>): (r: seq<T>)
    ensures |r| <= |s|
    ensures forall x :: x in r <==> Some(x) in s
  {
    if s == [] then []
    else
      assert forall o :: o in s <==> o == s[0] || o in s[1..];
      (if s[0].Some? then [s[0].value] else []) + Present(s[1..])
  }

  /** Counting is additive over concatenation. */
  lemma {:induction false} CountAppend<T>(a: seq<T>, b: seq<T>, x: T)
    ensures Count(a + b, x) == Count(a, x) + Count(b, x)
  {
    if a == [] {
      assert a + b == b;
    } else {
      CountAppend(a[1..], b, x);
      var ab := a + b;
      assert ab[0] == a[0] && ab[1..] == a[1..] + b;
      assert Count(ab, x) == (if a[0] == x then 1 else 0) + Count(ab[1..], x);
    }
  }

  /** Skipping the empty cells keeps every present value as often as it occurs. */
  lemma {:induction false} PresentCount<T(!new)>(s: seq<Option<T>>, x: T)
    ensures Count(Present(s), x) == Count(s, Some(x))
  {
    if s != [] {
      PresentCount(s[1..], x);
      var head := if s[0].Some? then [s[0].value] else [];
      assert Present(s) == head + Present(s[1..]);
      if s[0].Some? {
        assert head[1..] == [];
      }
      CountAppend(head, Present(s[1..]), x);
    }
  }

  /** Series.min() of a non-empty column. */
  function Min(s: seq<int>): (r: int)
    requires |s| > 0
    ensures r in s
    ensures forall x :: x in s ==> r <= x
  {
    if |s| == 1 then s[0]
    else
      assert forall x :: x in s ==> x == s[0] || x in s[1..];
      var m := Min(s[1..]);
      if s[0] <= m then s[0] else m
  }

  /** Series.max() of a non-empty column. */
  function Max(s: seq<int>): (r: int)
    requires |s| > 0
    ensures r in s
    ensures forall x :: x in s ==> x <= r
  {
    if |s| == 1 then s[0]
    else
      assert forall x :: x in s ==> x == s[0] || x in s[1..];
      var m := Max(s[1..]);
      if s[0] >= m then s[0] else m
  }

  /** Series.sum(). */
  function Sum(s: seq<int>): int {
    if s == [] then 0 else s[0] + Sum(s[1..])
  }

  /** A sum of values none of which is negative is not negative. */
  lemma {:induction false} SumNonNegative(s: seq<int>)
    requires forall i :: 0 <= i < |s| ==> s[i] >= 0
    ensures Sum(s) >= 0
  {
    if s != [] {
      assert forall i :: 0 <= i < |s| - 1 ==> s[1..][i] == s[i + 1];
      SumNonNegative(s[1..]);
    }
  }

  /** Series.mean(): the sum over the number of values; None (NaT) when empty. */
  function Mean(s: seq<int>): (r: Option<real>)
    ensures r.None? <==> s == []
    ensures r.Some? ==> r.value * |s| as real == Sum(s) as real
  {
    if s == [] then None else Some(Sum(s) as real / |s| as real)
  }

  /** The sum of a concatenation is the sum of the parts. */
  lemma {:induction false} SumAppend(a: seq<int>, b: seq<int>)
    ensures Sum(a + b) == Sum(a) + Sum(b)
  {
    if a == [] {
      assert a + b == b;
    } else {
      assert (a + b)[1..] == a[1..] + b;
      SumAppend(a[1..], b);
    }
  }

  /** A lower bound of every value bounds the sum by n times itself. */
  lemma {:induction false} SumAtLeast(s: seq<int>, lo: int)
    requires forall x :: x in s ==> lo <= x
    ensures |s| * lo <= Sum(s)
  {
    if s != [] {
      assert forall x :: x in s[1..] ==> x in s;
      SumAtLeast(s[1..], lo);
      assert s[0] in s;
      assert |s| * lo == lo + (|s| - 1) * lo;
    }
  }

  /** An upper bound of every value bounds the sum by n times itself. */
  lemma {:induction false} SumAtMost(s: seq<int>, hi: int)
    requires forall x :: x in s ==> x <= hi
    ensures Sum(s) <= |s| * hi
  {
    if s != [] {
      assert forall x :: x in s[1..] ==> x in s;
      SumAtMost(s[1..], hi);
      assert s[0] in s;
      assert |s| * hi == hi + (|s| - 1) * hi;
    }
  }

  /** Multiplying by a positive factor keeps a strict order. */
  lemma ScaleStrict(a: real, b: real, n: real)
    requires n > 0.0 && a < b
    ensures a * n < b * n
  {
  }

  /** A lower bound of every value bounds the mean. */
  lemma MeanAtLeast(s: seq<int>, lo: int)
    requires |s| > 0
    requires forall x :: x in s ==> lo <= x
    ensures lo as real <= Mean(s).value
  {
    SumAtLeast(s, lo);
    var n, mean := |s| as real, Mean(s).value;
    assert (lo as real) * n <= mean * n;
    if mean < lo as real {
      ScaleStrict(mean, lo as real, n);
    }
  }

  /** An upper bound of every value bounds the mean. */
  lemma MeanAtMost(s: seq<int>, hi: int)
    requires |s| > 0
    requires forall x :: x in s ==> x <= hi
    ensures Mean(s).value <= hi as real
  {
    SumAtMost(s, hi);
    var n, mean := |s| as real, Mean(s).value;
    assert mean * n <= (hi as real) * n;
    if hi as real < mean {
      ScaleStrict(hi as real, mean, n);
    }
  }

  /** The mean lies between the least and the greatest value. */
  lemma MeanBounds(s: seq<int>)
    requires |s| > 0
    ensures Min(s) as real <= Mean(s).value <= Max(s) as real
  {
    MeanAtLeast(s, Min(s));
    MeanAtMost(s, Max(s));
  }
}
