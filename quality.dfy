/** The token statistics of the quality report (`quality_report`,
    ingest_manpages.py:1006-1029 and 1064-1072): the sorted token counts,
    their total, mean, least and greatest value and three percentiles by
    linear interpolation. Python floats are modelled by exact reals. */
module TokenStats {
  import opened Common

  // ---------------------------------------------------------------------------
  // percentile
  // ---------------------------------------------------------------------------

  /** The interpolation point `k = (len - 1) * (p / 100)`, for `0 < p < 100`:
      never beyond the last index, and short of it when there are two values
      or more. */
  function Rank(n: nat, p: real): (k: real)
    requires n >= 1 && 0.0 < p < 100.0
    ensures 0.0 <= k <= (n - 1) as real
    ensures n >= 2 ==> k < (n - 1) as real
  {
    var m := (n - 1) as real;
    var q := p / 100.0;
    assert 0.0 < q < 1.0;
    assert m * q <= m by { assert m * (1.0 - q) >= 0.0; }
    assert n >= 2 ==> m * q < m by {
      if n >= 2 {
        assert m * (1.0 - q) > 0.0;
      }
    }
    m * q
  }

  /** The lower index `f = int(k)`. */
  function LowIndex(n: nat, p: real): (f: nat)
    requires n >= 1 && 0.0 < p < 100.0
    ensures f < n
    ensures f as real <= Rank(n, p) < f as real + 1.0
  {
    Rank(n, p).Floor
  }

  /** The upper index `c = min(f + 1, len - 1)`. */
  function HighIndex(n: nat, p: real): (c: nat)
    requires n >= 1 && 0.0 < p < 100.0
    ensures c < n && LowIndex(n, p) <= c
  {
    var f := LowIndex(n, p);
    if f + 1 < n - 1 then f + 1 else n - 1
  }

  /** `percentile(sorted_vals, p)`. */
  function Percentile(vals: seq<int>, p: real): real {
    if vals == [] then 0.0
    else if p <= 0.0 then vals[0] as real
    else if p >= 100.0 then vals[|vals| - 1] as real
    else
      var k := Rank(|vals|, p);
      var f := LowIndex(|vals|, p);
      var c := HighIndex(|vals|, p);
      if f == c then vals[f] as real
      else Interpolate(vals[f] as real, vals[c] as real, c as real - k, k - f as real)
  }

  /** `sorted_vals[f] * (c - k) + sorted_vals[c] * (k - f)`. */
  function Interpolate(a: real, b: real, wa: real, wb: real): real {
    a * wa + b * wb
  }

  /** Inside the range, the two indexes are neighbours, or both the last
      index of a one-element list. */
  lemma Neighbours(n: nat, p: real)
    requires n >= 1 && 0.0 < p < 100.0
    ensures HighIndex(n, p) == LowIndex(n, p) + 1 || (n == 1 && HighIndex(n, p) == LowIndex(n, p) == 0)
  {
    var f := LowIndex(n, p);
    if n >= 2 {
      assert (f as real) < (n - 1) as real;
    }
  }

  /** A weighted mean of two values lies between them. */
  lemma Between(a: real, b: real, wa: real, wb: real)
    requires 0.0 <= wb <= 1.0 && wa == 1.0 - wb
    ensures a <= b ==> a <= Interpolate(a, b, wa, wb) <= b
    ensures b <= a ==> b <= Interpolate(a, b, wa, wb) <= a
  {
    var r := Interpolate(a, b, wa, wb);
    assert r == a + (b - a) * wb;
    assert r == b - (b - a) * wa;
    if a <= b {
      MulNonNegative(b - a, wb);
      MulNonNegative(b - a, wa);
    } else {
      MulNonNegative(a - b, wb);
      MulNonNegative(a - b, wa);
    }
  }

  lemma MulNonNegative(x: real, y: real)
    requires 0.0 <= x && 0.0 <= y
    ensures 0.0 <= x * y
  {
  }

  /** The percentile interpolates between the values at the two indexes
      around `k`, so it lies between them. */
  lemma PercentileBracketed(vals: seq<int>, p: real)
    requires vals != [] && 0.0 < p < 100.0
    ensures var f := LowIndex(|vals|, p); var c := HighIndex(|vals|, p);
      && (vals[f] <= vals[c] ==> vals[f] as real <= Percentile(vals, p) <= vals[c] as real)
      && (vals[c] <= vals[f] ==> vals[c] as real <= Percentile(vals, p) <= vals[f] as real)
  {
    var k := Rank(|vals|, p);
    var f := LowIndex(|vals|, p);
    var c := HighIndex(|vals|, p);
    Neighbours(|vals|, p);
    if f != c {
      Between(vals[f] as real, vals[c] as real, c as real - k, k - f as real);
    }
  }

  /** Values in increasing order. */
  predicate Ascending(vals: seq<int>) {
    forall i, j :: 0 <= i < j < |vals| ==> vals[i] <= vals[j]
  }

  /** On a sorted list every percentile lies between the least and the
      greatest value; `p <= 0` gives the first and `p >= 100` the last. */
  lemma PercentileInRange(vals: seq<int>, p: real)
    requires vals != [] && Ascending(vals)
    ensures vals[0] as real <= Percentile(vals, p) <= vals[|vals| - 1] as real
    ensures p <= 0.0 ==> Percentile(vals, p) == vals[0] as real
    ensures p >= 100.0 ==> Percentile(vals, p) == vals[|vals| - 1] as real
  {
    if 0.0 < p < 100.0 {
      PercentileBracketed(vals, p);
    }
  }

  /** On a list of equal values every percentile is that value. */
  lemma PercentileConstant(vals: seq<int>, v: int, p: real)
    requires vals != [] && forall i :: 0 <= i < |vals| ==> vals[i] == v
    ensures Percentile(vals, p) == v as real
  {
    if 0.0 < p < 100.0 {
      PercentileBracketed(vals, p);
    }
  }

  // ---------------------------------------------------------------------------
  // sorting and summing the token counts
  // ---------------------------------------------------------------------------

  /** Puts `x` before the first larger-or-equal value. */
  function InsertAscending(s: seq<int>, x: int): (r: seq<int>)
    ensures |r| == |s| + 1
  {
    if s == [] then [x]
    else if x <= s[0] then [x] + s
    else [s[0]] + InsertAscending(s[1..], x)
  }

  /** `sorted(token_counts)`, by insertion. */
  function SortAscending(xs: seq<int>): (r: seq<int>)
    ensures |r| == |xs|
  {
    if xs == [] then [] else InsertAscending(SortAscending(xs[..|xs| - 1]), xs[|xs| - 1])
  }

  lemma {:induction false} InsertAscendingElements(s: seq<int>, x: int)
    ensures multiset(InsertAscending(s, x)) == multiset(s) + multiset{x}
  {
    if s != [] && x > s[0] {
      InsertAscendingElements(s[1..], x);
      HeadTail(s);
    }
  }

  lemma {:induction false} InsertAscendingSorted(s: seq<int>, x: int)
    requires Ascending(s)
    ensures Ascending(InsertAscending(s, x))
  {
    if s != [] && x > s[0] {
      var t := InsertAscending(s[1..], x);
      InsertAscendingSorted(s[1..], x);
      InsertAscendingElements(s[1..], x);
      forall j | 0 <= j < |t|
        ensures s[0] <= t[j]
      {
        assert t[j] in multiset(t);
        if t[j] != x {
          assert t[j] in s[1..];
        }
      }
      FrontAscending(t, s[0]);
    } else if s != [] {
      FrontAscending(s, x);
    }
  }

  lemma FrontAscending(s: seq<int>, x: int)
    requires Ascending(s) && forall j :: 0 <= j < |s| ==> x <= s[j]
    ensures Ascending([x] + s)
  {
    forall i, j | 0 <= i < j < |s| + 1
      ensures ([x] + s)[i] <= ([x] + s)[j]
    {
      assert ([x] + s)[j] == s[j - 1];
      if i > 0 {
        assert ([x] + s)[i] == s[i - 1];
      }
    }
  }

  /** Sorting orders the counts and keeps each of them. */
  lemma {:induction false} SortAscendingShape(xs: seq<int>)
    ensures Ascending(SortAscending(xs))
    ensures multiset(SortAscending(xs)) == multiset(xs)
  {
    if xs != [] {
      SortAscendingShape(xs[..|xs| - 1]);
      InsertAscendingSorted(SortAscending(xs[..|xs| - 1]), xs[|xs| - 1]);
      InsertAscendingElements(SortAscending(xs[..|xs| - 1]), xs[|xs| - 1]);
      InitLast(xs);
    }
  }

  function Sum(xs: seq<int>): int {
    if xs == [] then 0 else Sum(xs[..|xs| - 1]) + xs[|xs| - 1]
  }

  lemma {:induction false} SumAppend(a: seq<int>, b: seq<int>)
    ensures Sum(a + b) == Sum(a) + Sum(b)
  {
    if b == [] {
      assert a + b == a;
    } else {
      SumAppend(a, b[..|b| - 1]);
      assert (a + b)[..|a + b| - 1] == a + b[..|b| - 1];
      assert (a + b)[|a + b| - 1] == b[|b| - 1];
    }
  }

  lemma {:induction false} InsertAscendingSum(s: seq<int>, x: int)
    ensures Sum(InsertAscending(s, x)) == Sum(s) + x
  {
    if s == [] {
      assert Sum([x]) == Sum([]) + x;
    } else if x <= s[0] {
      SumAppend([x], s);
      assert Sum([x]) == Sum([]) + x;
    } else {
      InsertAscendingSum(s[1..], x);
      SumAppend([s[0]], InsertAscending(s[1..], x));
      SumAppend([s[0]], s[1..]);
      HeadTail(s);
    }
  }

  /** Sorting does not change the total. */
  lemma {:induction false} SortAscendingSum(xs: seq<int>)
    ensures Sum(SortAscending(xs)) == Sum(xs)
  {
    if xs != [] {
      SortAscendingSum(xs[..|xs| - 1]);
      InsertAscendingSum(SortAscending(xs[..|xs| - 1]), xs[|xs| - 1]);
    }
  }

  // ---------------------------------------------------------------------------
  // the "tokens" entry of the report
  // ---------------------------------------------------------------------------

  datatype Stats = Stats(total: int, avg: real, min: int, p50: real, p90: real, p95: real, max: int)

  /** `total / len(token_counts_sorted)`, and 0 with no counts. */
  function Mean(total: int, n: nat): (r: real)
    ensures n > 0 ==> r * n as real == total as real
  {
    if n == 0 then 0.0 else total as real / n as real
  }

  function StatsOf(tokenCounts: seq<int>): Stats {
    var sorted := SortAscending(tokenCounts);
    var total := Sum(sorted);
    Stats(total,
          Mean(total, |sorted|),
          if sorted == [] then 0 else sorted[0],
          Percentile(sorted, 50.0), Percentile(sorted, 90.0), Percentile(sorted, 95.0),
          if sorted == [] then 0 else sorted[|sorted| - 1])
  }

  /** The total is the sum of the counts. */
  lemma StatsTotal(tokenCounts: seq<int>)
    ensures StatsOf(tokenCounts).total == Sum(tokenCounts)
  {
    SortAscendingSum(tokenCounts);
  }

  /** The mean is that of the counts as given. */
  lemma StatsAverage(tokenCounts: seq<int>)
    ensures StatsOf(tokenCounts).avg == Mean(Sum(tokenCounts), |tokenCounts|)
  {
    StatsTotal(tokenCounts);
  }

  /** `min` and `max` are counts, and no count lies outside them. */
  lemma StatsExtremes(tokenCounts: seq<int>)
    requires tokenCounts != []
    ensures var s := StatsOf(tokenCounts);
      && s.min in tokenCounts && s.max in tokenCounts
      && forall x :: x in tokenCounts ==> s.min <= x <= s.max
  {
    var sorted := SortAscending(tokenCounts);
    SortAscendingShape(tokenCounts);
    assert sorted[0] in multiset(sorted) && sorted[|sorted| - 1] in multiset(sorted);
    forall x | x in tokenCounts
      ensures sorted[0] <= x <= sorted[|sorted| - 1]
    {
      assert x in multiset(sorted);
      var i :| 0 <= i < |sorted| && sorted[i] == x;
    }
  }

  /** The percentiles are ordered and lie between `min` and `max`. */
  lemma StatsPercentiles(tokenCounts: seq<int>)
    requires tokenCounts != []
    ensures var s := StatsOf(tokenCounts);
      s.min as real <= s.p50 <= s.p90 <= s.p95 <= s.max as real
  {
    var sorted := SortAscending(tokenCounts);
    SortAscendingShape(tokenCounts);
    PercentileMonotone(sorted, 50.0, 90.0);
    PercentileMonotone(sorted, 90.0, 95.0);
    PercentileInRange(sorted, 50.0);
    PercentileInRange(sorted, 95.0);
  }

  /** On a sorted list a larger `p` never gives a smaller percentile. */
  lemma PercentileMonotone(vals: seq<int>, p: real, q: real)
    requires vals != [] && Ascending(vals) && p <= q
    ensures Percentile(vals, p) <= Percentile(vals, q)
  {
    PercentileInRange(vals, p);
    PercentileInRange(vals, q);
    if 0.0 < p && q < 100.0 {
      if |vals| == 1 {
        PercentileConstant(vals, vals[0], p);
        PercentileConstant(vals, vals[0], q);
      } else {
        MonotoneInside(vals, p, q);
      }
    }
  }

  lemma MonotoneInside(vals: seq<int>, p: real, q: real)
    requires |vals| >= 2 && Ascending(vals) && 0.0 < p <= q < 100.0
    ensures Percentile(vals, p) <= Percentile(vals, q)
  {
    var n := |vals|;
    var fp := LowIndex(n, p);
    var fq := LowIndex(n, q);
    LowerMonotone(n, p, q);
    PercentileFormula(vals, p);
    PercentileFormula(vals, q);
    if fp < fq {
      PercentileBracketed(vals, p);
      PercentileBracketed(vals, q);
      assert vals[fp + 1] <= vals[fq];
    } else {
      assert vals[fp] <= vals[fp + 1];
      InterpolationMonotone(vals[fp] as real, vals[fp + 1] as real, Rank(n, p) - fp as real, Rank(n, q) - fp as real);
    }
  }

  /** With two values or more, the percentile weighs the value at `f` and
      the next one by how far `k` lies past `f`. */
  lemma PercentileFormula(vals: seq<int>, p: real)
    requires |vals| >= 2 && 0.0 < p < 100.0
    ensures var f := LowIndex(|vals|, p); var t := Rank(|vals|, p) - f as real;
      && f + 1 < |vals| && HighIndex(|vals|, p) == f + 1 && 0.0 <= t < 1.0
      && Percentile(vals, p) == Interpolate(vals[f] as real, vals[f + 1] as real, 1.0 - t, t)
  {
    Neighbours(|vals|, p);
  }

  /** A larger `p` gives a larger `k`, and a `f` at least as large. */
  lemma LowerMonotone(n: nat, p: real, q: real)
    requires n >= 1 && 0.0 < p <= q < 100.0
    ensures Rank(n, p) <= Rank(n, q) && LowIndex(n, p) <= LowIndex(n, q)
  {
    var kp := Rank(n, p);
    var kq := Rank(n, q);
    assert kp == (n - 1) as real * (p / 100.0);
    assert kq == (n - 1) as real * (q / 100.0);
    RankMonotone((n - 1) as real, p / 100.0, q / 100.0);
    assert kp <= kq;
    var fp := LowIndex(n, p);
    var fq := LowIndex(n, q);
    assert fp as real <= kp && kq < fq as real + 1.0;
    assert fp as real < fq as real + 1.0;
  }

  lemma RankMonotone(m: real, a: real, b: real)
    requires 0.0 <= m && a <= b
    ensures m * a <= m * b
  {
    MulNonNegative(m, b - a);
    assert m * b - m * a == m * (b - a);
  }

  /** Moving the weight towards the larger value does not decrease the mean. */
  lemma InterpolationMonotone(a: real, b: real, s: real, t: real)
    requires a <= b && 0.0 <= s <= t
    ensures Interpolate(a, b, 1.0 - s, s) <= Interpolate(a, b, 1.0 - t, t)
  {
    assert Interpolate(a, b, 1.0 - t, t) - Interpolate(a, b, 1.0 - s, s) == (b - a) * (t - s);
    MulNonNegative(b - a, t - s);
  }
}
