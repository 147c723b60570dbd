/**
 * The column computations behind `compute_rfm_scores`: the snapshot and
 * recency, frequency as a rounded quotient, the quintile cut of `pd.qcut`
 * and the three-digit RFM code.
 *
 * Dates are whole day numbers, amounts are integers (for instance cents),
 * and the quantile edges are exact rationals.
 */
module Scoring {
  import opened Wrappers
  import Sorting
  import Text

  /** The latest value of a non-empty column: `Series.max()`. */
  function Max(s: seq<int>): (m: int)
    requires |s| > 0
    ensures m in s
    ensures forall x :: x in s ==> x <= m
  {
    if |s| == 1 then s[0]
    else
      var rest := Max(s[1..]);
      assert s == [s[0]] + s[1..];
      if s[0] >= rest then s[0] else rest
  }

  /**
   * Recency: the snapshot is one day after the latest purchase, and each row's
   * recency is the number of days from its purchase to the snapshot.
   */
  function Recencies(days: seq<int>): (r: seq<int>)
    ensures |r| == |days|
  {
    if days == [] then []
    else
      var snapshot := Max(days) + 1;
      seq(|days|, i requires 0 <= i < |days| => snapshot - days[i])
  }

  /**
   * Every recency is at least one, exactly the latest purchases get one, and
   * a later purchase never has a larger recency (nor an earlier one a smaller).
   */
  lemma RecenciesRanked(days: seq<int>)
    ensures var r := Recencies(days);
            && (forall i :: 0 <= i < |r| ==> r[i] >= 1)
            && (forall i :: 0 <= i < |r| ==> (r[i] == 1 <==> days[i] == Max(days)))
            && (forall i, j :: 0 <= i < |r| && 0 <= j < |r| ==> (r[i] <= r[j] <==> days[j] <= days[i]))
  {
    if days != [] {
      assert forall i :: 0 <= i < |days| ==> days[i] in days;
    }
  }

  /** `n` is an integer nearest to `p / q`, for a positive `q`, the even one when two are equally near. */
  predicate NearestEven(p: int, q: int, n: int)
    requires q > 0
  {
    var twice := 2 * (p - n * q);
    (-q < twice < q) || ((twice == q || twice == -q) && n % 2 == 0)
  }

  /** `n` is `a / b` rounded half to even; a negative divisor is read as the quotient `(-a) / (-b)`. */
  predicate IsRoundHalfEven(a: int, b: int, n: int)
    requires b != 0
  {
    if b > 0 then NearestEven(a, b, n) else NearestEven(-a, -b, n)
  }

  /** `round(p / q)` with ties to even, for a positive `q`. */
  function NearestEvenOf(p: int, q: int): (n: int)
    requires q > 0
    ensures NearestEven(p, q, n)
  {
    var d, r := p / q, p % q;
    assert p - (d + 1) * q == r - q;
    if 2 * r < q then d
    else if 2 * r > q then d + 1
    else if d % 2 == 0 then d
    else d + 1
  }

  /** `round(a / b)` with ties to even, as numpy rounds. */
  function RoundHalfEven(a: int, b: int): (n: int)
    requires b != 0
    ensures IsRoundHalfEven(a, b, n)
  {
    if b > 0 then NearestEvenOf(a, b) else NearestEvenOf(-a, -b)
  }

  /** For a positive divisor, rounding half to even has exactly one answer. */
  lemma NearestEvenUnique(p: int, q: int, n: int, n': int)
    requires q > 0
    requires NearestEven(p, q, n) && NearestEven(p, q, n')
    ensures n == n'
  {
    var d, d' := p - n * q, p - n' * q;
    var k := n' - n;
    assert d - d' == k * q by {
      assert n' * q == n * q + k * q;
    }
    SmallMultiple(k, q, d - d');
  }

  /** Rounding half to even has exactly one answer. */
  lemma RoundHalfEvenUnique(a: int, b: int, n: int, n': int)
    requires b != 0
    requires IsRoundHalfEven(a, b, n) && IsRoundHalfEven(a, b, n')
    ensures n == n'
  {
    if b > 0 {
      NearestEvenUnique(a, b, n, n');
    } else {
      NearestEvenUnique(-a, -b, n, n');
    }
  }

  /** If `k * b` lies between `-b` and `b`, then `k` is -1, 0 or 1. */
  lemma SmallMultiple(k: int, b: int, p: int)
    requires b > 0 && p == k * b && -b <= p <= b
    ensures -1 <= k <= 1
  {
  }

  /**
   * Frequency: each row's `total_spent / avg_order_value`, rounded half to
   * even.  A zero average (an infinite or NaN quotient in the source) is excluded.
   */
  function Frequencies(spent: seq<int>, avgOrder: seq<int>): (freq: seq<int>)
    requires |avgOrder| == |spent|
    requires forall i :: 0 <= i < |avgOrder| ==> avgOrder[i] != 0
    ensures |freq| == |spent|
  {
    seq(|spent|, i requires 0 <= i < |spent| => RoundHalfEven(spent[i], avgOrder[i]))
  }

  /** Each row's frequency is its spend over its average order, rounded half to even. */
  lemma FrequenciesRounded(spent: seq<int>, avgOrder: seq<int>)
    requires |avgOrder| == |spent|
    requires forall i :: 0 <= i < |avgOrder| ==> avgOrder[i] != 0
    ensures var freq := Frequencies(spent, avgOrder);
            forall i :: 0 <= i < |freq| ==> IsRoundHalfEven(spent[i], avgOrder[i], freq[i])
  {
  }

  /** The position `(n - 1) * k / 5` of the k-th quintile, as whole part and fifths. */
  lemma QuantilePosition(n: int, k: int)
    requires n > 0 && 0 <= k <= 5
    ensures 0 <= (n - 1) * k <= (n - 1) * 5
    ensures (n - 1) * k / 5 <= n - 1
    ensures (n - 1) * k % 5 != 0 ==> (n - 1) * k / 5 < n - 1
  {
  }

  /**
   * The k/5 quantile of a sorted column by linear interpolation, numpy's
   * default: the value at position `h = (n - 1) * k / 5`, interpolated between
   * `xs[floor(h)]` and the next element.
   */
  function Quantile(xs: seq<int>, k: int): (q: real)
    requires |xs| > 0 && 0 <= k <= 5
    requires Sorting.SortedBy(xs, Sorting.IntKey)
  {
    QuantilePosition(|xs|, k);
    var h := (|xs| - 1) * k;
    var lo, fifths := h / 5, h % 5;
    assert fifths != 0 ==> Sorting.IntKey(xs[lo]) <= Sorting.IntKey(xs[lo + 1]);
    if fifths == 0 then xs[lo] as real
    else Interpolate(xs[lo] as real, xs[lo + 1] as real, fifths as real / 5.0)
  }

  /** The 0/5 quantile is the least value of the column and the 5/5 quantile the greatest. */
  lemma QuantileEnds(xs: seq<int>)
    requires |xs| > 0 && Sorting.SortedBy(xs, Sorting.IntKey)
    ensures Quantile(xs, 0) == xs[0] as real
    ensures Quantile(xs, 5) == xs[|xs| - 1] as real
  {
    assert (|xs| - 1) * 5 / 5 == |xs| - 1 && (|xs| - 1) * 5 % 5 == 0;
  }

  /** The point a fraction `t` of the way from `lo` to `hi`. */
  function Interpolate(lo: real, hi: real, t: real): (v: real)
    requires lo <= hi && 0.0 <= t <= 1.0
    ensures lo <= v <= hi
  {
    var d := hi - lo;
    assert 0.0 <= t * d <= d by {
      assert t * d >= 0.0 * d;
      assert (1.0 - t) * d >= 0.0;
    }
    lo + t * d
  }

  /** A quantile lies between the two elements it interpolates. */
  lemma QuantileBetween(xs: seq<int>, k: int)
    requires |xs| > 0 && 0 <= k <= 5
    requires Sorting.SortedBy(xs, Sorting.IntKey)
    ensures var h := (|xs| - 1) * k;
            && 0 <= h / 5 < |xs| && (h % 5 != 0 ==> h / 5 + 1 < |xs|)
            && xs[h / 5] as real <= Quantile(xs, k)
            && (h % 5 == 0 ==> Quantile(xs, k) == xs[h / 5] as real)
            && (h % 5 != 0 ==> Quantile(xs, k) <= xs[h / 5 + 1] as real)
  {
    QuantilePosition(|xs|, k);
    var h := (|xs| - 1) * k;
    if h % 5 != 0 {
      assert Sorting.IntKey(xs[h / 5]) <= Sorting.IntKey(xs[h / 5 + 1]);
    }
  }

  /** The quintiles of a sorted column do not decrease. */
  lemma QuantileStep(xs: seq<int>, k: int)
    requires |xs| > 0 && 0 <= k < 5
    requires Sorting.SortedBy(xs, Sorting.IntKey)
    ensures Quantile(xs, k) <= Quantile(xs, k + 1)
  {
    var n1 := |xs| - 1;
    PositionStep(n1, k);
    if n1 * k / 5 < n1 * (k + 1) / 5 {
      QuantileStepAcross(xs, k);
    } else {
      QuantileStepWithin(xs, k);
    }
  }

  /** When the next quintile starts at a later element, it lies past the element this one stops at. */
  lemma QuantileStepAcross(xs: seq<int>, k: int)
    requires |xs| > 0 && 0 <= k < 5
    requires Sorting.SortedBy(xs, Sorting.IntKey)
    requires (|xs| - 1) * k / 5 < (|xs| - 1) * (k + 1) / 5
    ensures Quantile(xs, k) <= Quantile(xs, k + 1)
  {
    QuantileBetween(xs, k);
    QuantileBetween(xs, k + 1);
    var h1, h2 := (|xs| - 1) * k, (|xs| - 1) * (k + 1);
    var lo1, lo2 := h1 / 5, h2 / 5;
    if h1 % 5 != 0 {
      assert Sorting.IntKey(xs[lo1 + 1]) <= Sorting.IntKey(xs[lo2]);
    } else {
      assert Sorting.IntKey(xs[lo1]) <= Sorting.IntKey(xs[lo2]);
    }
  }

  /** Two quintiles between the same pair of elements are ordered by how far along they lie. */
  lemma QuantileStepWithin(xs: seq<int>, k: int)
    requires |xs| > 0 && 0 <= k < 5
    requires Sorting.SortedBy(xs, Sorting.IntKey)
    requires (|xs| - 1) * k / 5 == (|xs| - 1) * (k + 1) / 5
    requires (|xs| - 1) * k % 5 <= (|xs| - 1) * (k + 1) % 5
    ensures Quantile(xs, k) <= Quantile(xs, k + 1)
  {
    QuantilePosition(|xs|, k);
    QuantilePosition(|xs|, k + 1);
    var h1, h2 := (|xs| - 1) * k, (|xs| - 1) * (k + 1);
    var lo := h1 / 5;
    if h2 % 5 != 0 {
      assert Sorting.IntKey(xs[lo]) <= Sorting.IntKey(xs[lo + 1]);
      InterpolateGrows(xs[lo] as real, xs[lo + 1] as real, (h1 % 5) as real / 5.0, (h2 % 5) as real / 5.0);
    }
  }

  /** Moving one fifth further along the column never moves the quantile position back. */
  lemma PositionStep(n1: int, k: int)
    requires n1 >= 0 && 0 <= k < 5
    ensures n1 * k / 5 <= n1 * (k + 1) / 5
    ensures n1 * k / 5 == n1 * (k + 1) / 5 ==> n1 * k % 5 <= n1 * (k + 1) % 5
  {
    assert n1 * (k + 1) == n1 * k + n1;
  }

  /** Interpolating further between the same two points gives a value no smaller. */
  lemma InterpolateGrows(lo: real, hi: real, t1: real, t2: real)
    requires lo <= hi && 0.0 <= t1 <= t2 <= 1.0
    ensures Interpolate(lo, hi, t1) <= Interpolate(lo, hi, t2)
  {
    var d := hi - lo;
    assert (t2 - t1) * d >= 0.0;
  }

  predicate NonDecreasing(e: seq<real>)
  {
    forall i, j :: 0 <= i <= j < |e| ==> e[i] <= e[j]
  }

  /**
   * The six bin edges `pd.qcut(values, 5)` computes: the quantiles at
   * 0, 0.2, …, 1 of the column.  An empty column has no edges (pandas gets NaN
   * for each).  The edges do not decrease, the first is the column's least
   * value and the last its greatest.
   */
  function Edges(values: seq<int>): (e: Option<seq<real>>)
    ensures e.Some? <==> |values| > 0
    ensures e.Some? ==> |e.value| == 6 && NonDecreasing(e.value)
    ensures e.Some? ==> e.value[0].Floor in values && e.value[0] == e.value[0].Floor as real
    ensures e.Some? ==> e.value[5].Floor in values && e.value[5] == e.value[5].Floor as real
    ensures e.Some? ==> forall x :: x in values ==> e.value[0] <= x as real <= e.value[5]
  {
    if values == [] then None
    else
      var sorted := Sorting.SortBy(values, Sorting.IntKey);
      Sorting.SortedEnds(values, sorted);
      var e := seq(6, k requires 0 <= k < 6 => Quantile(sorted, k));
      assert e[0] == sorted[0] as real;
      assert e[5] == sorted[|sorted| - 1] as real by {
        QuantilePosition(|sorted|, 5);
        assert (|sorted| - 1) * 5 / 5 == |sorted| - 1;
      }
      assert NonDecreasing(e) by {
        forall k | 0 <= k < 5 ensures e[k] <= e[k + 1] {
          QuantileStep(sorted, k);
        }
        StepsNonDecreasing(e);
      }
      Some(e)
  }

  /**
   * `bins.searchsorted(x, side='left')`: how many edges lie below `x` (for
   * sorted edges, the index at which `x` would be inserted before its equals).
   */
  function CountBelow(e: seq<real>, x: real): (c: nat)
    ensures c <= |e|
  {
    if e == [] then 0 else (if e[0] < x then 1 else 0) + CountBelow(e[1..], x)
  }

  /**
   * The bin id `_bins_to_cuts` gives `x`: the searchsorted index, except that
   * `include_lowest` moves a value equal to the least edge into bin 1.  Ids 0
   * and 6 lie outside every bin (NaN).
   */
  function BinId(e: seq<real>, x: real): (id: int)
    requires |e| > 0
  {
    if x == e[0] then 1 else CountBelow(e, x)
  }

  predicate Distinct(e: seq<real>)
  {
    forall i, j :: 0 <= i < j < |e| ==> e[i] != e[j]
  }

  /** What `pd.qcut(...).astype(int)` raises. */
  datatype ScoreError =
    | BinEdgesNotUnique   // ValueError: "Bin edges must be unique"
    | NonFiniteScore      // a value outside every bin is NaN, which astype(int) refuses

  /**
   * `_bins_to_cuts` with explicit labels, then `.astype(int)`: fails on repeated
   * edges or on a value outside every bin, else gives each value the label of
   * its bin.
   */
  function Cut(values: seq<int>, e: seq<real>, labels: seq<int>): (r: Result<seq<int>, ScoreError>)
    requires |e| == 6 && |labels| == 5
    ensures r.Success? ==> |r.value| == |values|
  {
    if !Distinct(e) then Failure(BinEdgesNotUnique)
    else if exists i :: 0 <= i < |values| && !(1 <= BinId(e, values[i] as real) <= 5) then Failure(NonFiniteScore)
    else Success(seq(|values|, i requires 0 <= i < |values| => labels[BinId(e, values[i] as real) - 1]))
  }

  /** `pd.qcut(values, 5, labels=labels).astype(int)`. */
  function Qcut(values: seq<int>, labels: seq<int>): (r: Result<seq<int>, ScoreError>)
    requires |labels| == 5
    ensures r.Success? ==> |r.value| == |values|
  {
    match Edges(values)
    case None => Failure(BinEdgesNotUnique)
    case Some(e) => Cut(values, e, labels)
  }

  /** How many of the four inner cut points `x` exceeds: the 0-based bin of `x`. */
  function Exceeded(e: seq<real>, x: real): (b: nat)
    requires |e| == 6
    ensures b <= 4
  {
    CountBelow(e[1..5], x)
  }

  lemma {:induction false} CountBelowAppend(a: seq<real>, b: seq<real>, x: real)
    ensures CountBelow(a + b, x) == CountBelow(a, x) + CountBelow(b, x)
  {
    if a == [] {
      assert a + b == b;
    } else {
      assert (a + b)[1..] == a[1..] + b;
      CountBelowAppend(a[1..], b, x);
    }
  }

  lemma {:induction false} CountBelowMonotone(e: seq<real>, x: real, y: real)
    requires x <= y
    ensures CountBelow(e, x) <= CountBelow(e, y)
  {
    if e != [] {
      CountBelowMonotone(e[1..], x, y);
    }
  }

  lemma {:induction false} NoneBelowLeast(e: seq<real>, x: real)
    requires forall i :: 0 <= i < |e| ==> x <= e[i]
    ensures CountBelow(e, x) == 0
  {
    if e != [] {
      NoneBelowLeast(e[1..], x);
    }
  }

  /** When every edge lies below `x`, all of them are counted. */
  lemma {:induction false} AllBelowCounted(e: seq<real>, x: real)
    requires forall i :: 0 <= i < |e| ==> e[i] < x
    ensures CountBelow(e, x) == |e|
  {
    if e != [] {
      AllBelowCounted(e[1..], x);
    }
  }

  /**
   * Between the first and last of non-decreasing edges, the bin id is one more
   * than the number of inner cut points the value exceeds.
   */
  lemma BinIdIsExceeded(e: seq<real>, x: real)
    requires |e| == 6 && NonDecreasing(e)
    requires e[0] <= x <= e[5]
    ensures BinId(e, x) == Exceeded(e, x) + 1
  {
    assert e == [e[0]] + e[1..5] + [e[5]];
    CountBelowAppend([e[0]] + e[1..5], [e[5]], x);
    CountBelowAppend([e[0]], e[1..5], x);
    if x == e[0] {
      NoneBelowLeast(e[1..5], x);
    }
  }

  /**
   * Cutting values that lie between the first and last of non-decreasing edges
   * fails exactly when two edges coincide; otherwise every value gets the label
   * of the number of inner cut points it exceeds, so none falls outside the bins.
   */
  lemma CutScores(values: seq<int>, e: seq<real>, labels: seq<int>)
    requires |e| == 6 && |labels| == 5 && NonDecreasing(e)
    requires forall i :: 0 <= i < |values| ==> e[0] <= values[i] as real <= e[5]
    ensures Cut(values, e, labels).Success? <==> Distinct(e)
    ensures Cut(values, e, labels).Success? ==>
              forall i :: 0 <= i < |values| ==> Cut(values, e, labels).value[i] == labels[Exceeded(e, values[i] as real)]
  {
    forall i | 0 <= i < |values|
      ensures BinId(e, values[i] as real) == Exceeded(e, values[i] as real) + 1
    {
      BinIdIsExceeded(e, values[i] as real);
    }
  }

  /**
   * Cutting a column by its own quintiles fails exactly when the column is
   * empty or two quintiles coincide; otherwise each value is labelled by the
   * number of inner cut points it exceeds.
   */
  lemma QcutScores(values: seq<int>, labels: seq<int>)
    requires |labels| == 5
    ensures Qcut(values, labels).Success? <==> |values| > 0 && Distinct(Edges(values).value)
    ensures Qcut(values, labels).Success? ==>
              forall i :: 0 <= i < |values| ==>
                Qcut(values, labels).value[i] == labels[Exceeded(Edges(values).value, values[i] as real)]
  {
    if |values| > 0 {
      var e := Edges(values).value;
      assert forall i :: 0 <= i < |values| ==> values[i] in values;
      CutScores(values, e, labels);
    }
  }

  /** A larger value never lies in a lower bin. */
  lemma ExceededMonotone(e: seq<real>, x: real, y: real)
    requires |e| == 6 && x <= y
    ensures Exceeded(e, x) <= Exceeded(e, y)
  {
    CountBelowMonotone(e[1..5], x, y);
  }

  /** The labels `[5, 4, 3, 2, 1]` of the R cut. */
  const RLabels: seq<int> := seq(5, k => 5 - k)
  /** The labels `[1, 2, 3, 4, 5]` of the F and M cuts. */
  const FMLabels: seq<int> := seq(5, k => k + 1)

  /** A successful cut labels each value by the number of inner cut points it exceeds. */
  lemma CutLabels(values: seq<int>, labels: seq<int>, scores: seq<int>)
    requires |labels| == 5 && Qcut(values, labels) == Success(scores)
    ensures Edges(values).Some? && |scores| == |values|
    ensures forall i :: 0 <= i < |scores| ==> scores[i] == labels[Exceeded(Edges(values).value, values[i] as real)]
  {
    QcutScores(values, labels);
  }

  /**
   * The R score: a quintile cut of recency labelled 5 down to 1, so each score
   * lies in 1..5 and a more recent customer never scores lower.
   */
  lemma RScoresAntitone(recency: seq<int>, scores: seq<int>)
    requires Qcut(recency, RLabels) == Success(scores)
    ensures |scores| == |recency|
    ensures forall i :: 0 <= i < |scores| ==> 1 <= scores[i] <= 5
    ensures forall i, j :: 0 <= i < |scores| && 0 <= j < |scores| && recency[i] <= recency[j] ==> scores[i] >= scores[j]
  {
    CutLabels(recency, RLabels, scores);
    ExceededAntitoneLabels(recency, Edges(recency).value, scores);
  }

  /** Labelling by `RLabels` the number of cut points exceeded reverses the order of the values. */
  lemma ExceededAntitoneLabels(values: seq<int>, e: seq<real>, scores: seq<int>)
    requires |e| == 6 && |scores| == |values|
    requires forall i :: 0 <= i < |scores| ==> scores[i] == RLabels[Exceeded(e, values[i] as real)]
    ensures forall i :: 0 <= i < |scores| ==> 1 <= scores[i] <= 5
    ensures forall i, j :: 0 <= i < |scores| && 0 <= j < |scores| && values[i] <= values[j] ==> scores[i] >= scores[j]
  {
    forall i, j | 0 <= i < |scores| && 0 <= j < |scores| && values[i] <= values[j] ensures scores[i] >= scores[j] {
      ExceededMonotone(e, values[i] as real, values[j] as real);
    }
  }

  /**
   * The F and M scores: a quintile cut labelled 1 up to 5, so each score lies
   * in 1..5 and a larger value never scores lower.
   */
  lemma FMScoresMonotone(values: seq<int>, scores: seq<int>)
    requires Qcut(values, FMLabels) == Success(scores)
    ensures |scores| == |values|
    ensures forall i :: 0 <= i < |scores| ==> 1 <= scores[i] <= 5
    ensures forall i, j :: 0 <= i < |scores| && 0 <= j < |scores| && values[i] <= values[j] ==> scores[i] <= scores[j]
  {
    CutLabels(values, FMLabels, scores);
    ExceededMonotoneLabels(values, Edges(values).value, scores);
  }

  /** Labelling by `FMLabels` the number of cut points exceeded keeps the order of the values. */
  lemma ExceededMonotoneLabels(values: seq<int>, e: seq<real>, scores: seq<int>)
    requires |e| == 6 && |scores| == |values|
    requires forall i :: 0 <= i < |scores| ==> scores[i] == FMLabels[Exceeded(e, values[i] as real)]
    ensures forall i :: 0 <= i < |scores| ==> 1 <= scores[i] <= 5
    ensures forall i, j :: 0 <= i < |scores| && 0 <= j < |scores| && values[i] <= values[j] ==> scores[i] <= scores[j]
  {
    forall i, j | 0 <= i < |scores| && 0 <= j < |scores| && values[i] <= values[j] ensures scores[i] <= scores[j] {
      ExceededMonotone(e, values[i] as real, values[j] as real);
    }
  }

  /**
   * The RFM code: `str(R) + str(F) + str(M)`.  For scores in 1..5 it has three
   * characters, each a digit 1 to 5, which read back as R, F and M in that order.
   */
  function RfmCode(r: int, f: int, m: int): (code: string)
    ensures 1 <= r <= 5 && 1 <= f <= 5 && 1 <= m <= 5 ==>
              && |code| == 3
              && (forall i :: 0 <= i < 3 ==> '1' <= code[i] <= '5')
              && Text.DigitValue(code[0]) == r && Text.DigitValue(code[1]) == f && Text.DigitValue(code[2]) == m
  {
    Text.IntString(r) + Text.IntString(f) + Text.IntString(m)
  }

  /** The `RFM_code` column: one code per row, from that row's three scores. */
  function RfmCodes(r: seq<int>, f: seq<int>, m: seq<int>): (codes: seq<string>)
    requires |f| == |r| && |m| == |r|
    ensures |codes| == |r|
  {
    seq(|r|, i requires 0 <= i < |r| => RfmCode(r[i], f[i], m[i]))
  }

  /**
   * Once all three cuts succeed, every RFM code is three digits from 1 to 5
   * that read back as the row's R, F and M scores.
   */
  lemma RfmCodesOfScores(recency: seq<int>, frequency: seq<int>, monetary: seq<int>,
                         r: seq<int>, f: seq<int>, m: seq<int>)
    requires |frequency| == |recency| && |monetary| == |recency|
    requires Qcut(recency, RLabels) == Success(r)
    requires Qcut(frequency, FMLabels) == Success(f)
    requires Qcut(monetary, FMLabels) == Success(m)
    ensures |r| == |recency| && |f| == |recency| && |m| == |recency|
    ensures forall i :: 0 <= i < |recency| ==>
              var code := RfmCodes(r, f, m)[i];
              && |code| == 3 && (forall k :: 0 <= k < 3 ==> '1' <= code[k] <= '5')
              && Text.DigitValue(code[0]) == r[i] && Text.DigitValue(code[1]) == f[i] && Text.DigitValue(code[2]) == m[i]
  {
    RScoresAntitone(recency, r);
    FMScoresMonotone(frequency, f);
    FMScoresMonotone(monetary, m);
    CodesOfScores(r, f, m);
  }

  /** Scores in 1..5 give codes of three digits 1 to 5 that read back as the scores. */
  lemma CodesOfScores(r: seq<int>, f: seq<int>, m: seq<int>)
    requires |f| == |r| && |m| == |r|
    requires forall i :: 0 <= i < |r| ==> 1 <= r[i] <= 5 && 1 <= f[i] <= 5 && 1 <= m[i] <= 5
    ensures forall i :: 0 <= i < |r| ==>
              var code := RfmCodes(r, f, m)[i];
              && |code| == 3 && (forall k :: 0 <= k < 3 ==> '1' <= code[k] <= '5')
              && Text.DigitValue(code[0]) == r[i] && Text.DigitValue(code[1]) == f[i] && Text.DigitValue(code[2]) == m[i]
  {
  }

  lemma StepsNonDecreasing(e: seq<real>)
    requires forall k :: 0 <= k < |e| - 1 ==> e[k] <= e[k + 1]
    ensures NonDecreasing(e)
  {
    forall i, j | 0 <= i <= j < |e| ensures e[i] <= e[j] {
      StepsBetween(e, i, j);
    }
  }

  lemma {:induction false} StepsBetween(e: seq<real>, i: int, j: int)
    requires forall k :: 0 <= k < |e| - 1 ==> e[k] <= e[k + 1]
    requires 0 <= i <= j < |e|
    ensures e[i] <= e[j]
    decreases j - i
  {
    if i < j {
      StepsBetween(e, i, j - 1);
    }
  }

  /**
   * Two distinct values are enough for five distinct edges: a column of two
   * different values, in either order, is cut without error, the smaller
   * landing in the first bin and the larger in the last.
   */
  lemma TwoValuesAreScored(values: seq<int>, a: int, b: int)
    requires values == [a, b] && a != b
    ensures Qcut(values, FMLabels) == Success(if a < b then [1, 5] else [5, 1])
  {
    if a < b {
      AscendingPairScored(values, a, b);
    } else {
      DescendingPairScored(values, b, a);
    }
  }

  /** The ascending pair `[lo, hi]` scores `[1, 5]`. */
  lemma AscendingPairScored(values: seq<int>, lo: int, hi: int)
    requires values == [lo, hi] && lo < hi
    ensures Qcut(values, FMLabels) == Success([1, 5])
  {
    EdgesOfTwo(values, lo, hi);
    ExceededOfTwo(Edges(values).value, lo, hi);
    QcutScores(values, FMLabels);
    var q := Qcut(values, FMLabels);
    assert q.Success? && |q.value| == 2;
    assert q.value[0] == FMLabels[0] && q.value[1] == FMLabels[4];
    assert q.value == [1, 5];
  }

  /** The descending pair `[hi, lo]` scores `[5, 1]`. */
  lemma DescendingPairScored(values: seq<int>, lo: int, hi: int)
    requires values == [hi, lo] && lo < hi
    ensures Qcut(values, FMLabels) == Success([5, 1])
  {
    EdgesOfTwo(values, lo, hi);
    ExceededOfTwo(Edges(values).value, lo, hi);
    QcutScores(values, FMLabels);
    var q := Qcut(values, FMLabels);
    assert q.Success? && |q.value| == 2;
    assert q.value[0] == FMLabels[4] && q.value[1] == FMLabels[0];
    assert q.value == [5, 1];
  }

  /** The edges of a column holding `lo < hi`: five equal steps from `lo` to `hi`, hence all distinct. */
  lemma EdgesOfTwo(values: seq<int>, lo: int, hi: int)
    requires (values == [lo, hi] || values == [hi, lo]) && lo < hi
    ensures var d := (hi - lo) as real;
            Edges(values) == Some([lo as real, lo as real + 0.2 * d, lo as real + 0.4 * d,
                                   lo as real + 0.6 * d, lo as real + 0.8 * d, hi as real])
  {
    var sorted := Sorting.SortBy(values, Sorting.IntKey);
    SortTwo(values, lo, hi);
    QuantilesOfTwo(sorted, lo, hi);
    var q := seq(6, k requires 0 <= k < 6 => Quantile(sorted, k));
    assert Edges(values) == Some(q);
  }

  /** Sorting two different values puts the smaller first, whichever order they came in. */
  lemma SortTwo(values: seq<int>, lo: int, hi: int)
    requires (values == [lo, hi] || values == [hi, lo]) && lo < hi
    ensures Sorting.SortBy(values, Sorting.IntKey) == [lo, hi]
  {
    var sorted := Sorting.SortBy(values, Sorting.IntKey);
    Sorting.SortedEnds(values, sorted);
    assert lo in values && hi in values;
  }

  /** On two ascending values the k-th quintile lies k fifths of the way from `a` to `b`. */
  lemma QuantilesOfTwo(xs: seq<int>, a: int, b: int)
    requires xs == [a, b] && a < b
    ensures Sorting.SortedBy(xs, Sorting.IntKey)
    ensures var d := (b - a) as real;
            seq(6, k requires 0 <= k < 6 => Quantile(xs, k))
            == [a as real, a as real + 0.2 * d, a as real + 0.4 * d, a as real + 0.6 * d, a as real + 0.8 * d, b as real]
  {
    var d := (b - a) as real;
    forall k | 0 <= k <= 5 ensures Quantile(xs, k) == a as real + (k as real / 5.0) * d {
      QuantileOfTwo(xs, a, b, k);
    }
  }

  lemma QuantileOfTwo(xs: seq<int>, a: int, b: int, k: int)
    requires xs == [a, b] && a < b && 0 <= k <= 5
    ensures Sorting.SortedBy(xs, Sorting.IntKey) && Quantile(xs, k) == a as real + (k as real / 5.0) * (b - a) as real
  {
    assert (|xs| - 1) * k == k;
  }

  lemma ExceededOfTwo(e: seq<real>, a: int, b: int)
    requires a < b
    requires var d := (b - a) as real;
             e == [a as real, a as real + 0.2 * d, a as real + 0.4 * d, a as real + 0.6 * d, a as real + 0.8 * d, b as real]
    ensures Distinct(e)
    ensures Exceeded(e, a as real) == 0 && Exceeded(e, b as real) == 4
  {
    NoneBelowLeast(e[1..5], a as real);
    AllBelowCounted(e[1..5], b as real);
  }
}
