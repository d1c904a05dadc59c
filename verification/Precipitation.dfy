/**
 The arithmetic that turns hourly precipitation (least, greatest and mean) into the values
 of a longer period. Floats are reals; a missing value FLT_MAX is `None`.
 */
module Precipitation {
  import opened Times

  /** The weights of the hourly spreads, greatest spread first. */
  const COEFFICIENTS := [0.98, 0.60, 0.64, 0.32, 0.39, 1.75]

  /** The least positive normalized float. */
  const FLT_MIN: real := 1.0 / 85070591730234615865843651857942052864.0

  function Max(a: real, b: real): (r: real) {
    if a < b then b else a
  }

  function Sum(v: seq<real>): (s: real) {
    if v == [] then 0.0 else Sum(v[..|v| - 1]) + v[|v| - 1]
  }

  function Dot(v: seq<real>, a: seq<real>): (s: real)
    requires |v| <= |a|
  {
    if v == [] then 0.0 else Dot(v[..|v| - 1], a) + v[|v| - 1] * a[|v| - 1]
  }

  predicate Descending(v: seq<real>) {
    forall i, j | 0 <= i < j < |v| :: v[i] >= v[j]
  }

  // ---------------------------------------------------------------- the vector helpers

  function InsertDescending(v: seq<real>, x: real): (r: seq<real>)
    ensures |r| == |v| + 1
  {
    if v == [] || v[|v| - 1] >= x then v + [x]
    else InsertDescending(v[..|v| - 1], x) + [v[|v| - 1]]
  }

  lemma {:induction false} InsertContents(v: seq<real>, x: real)
    ensures multiset(InsertDescending(v, x)) == multiset(v) + multiset{x}
  {
    if v != [] && v[|v| - 1] < x {
      InsertContents(v[..|v| - 1], x);
      assert v == v[..|v| - 1] + [v[|v| - 1]];
    }
  }

  lemma AppendKeepsOrder(v: seq<real>, x: real)
    requires Descending(v) && (v != [] ==> v[|v| - 1] >= x)
    ensures Descending(v + [x])
  {
  }

  lemma {:induction false} InsertKeepsOrder(v: seq<real>, x: real)
    requires Descending(v)
    ensures Descending(InsertDescending(v, x))
    ensures v != [] ==> InsertDescending(v, x)[|v|] == if v[|v| - 1] < x then v[|v| - 1] else x
  {
    if v != [] && v[|v| - 1] < x {
      InsertKeepsOrder(v[..|v| - 1], x);
      AppendKeepsOrder(InsertDescending(v[..|v| - 1], x), v[|v| - 1]);
    } else {
      AppendKeepsOrder(v, x);
    }
  }

  lemma {:induction false} InsertAdds(v: seq<real>, x: real)
    ensures Sum(InsertDescending(v, x)) == Sum(v) + x
  {
    if v != [] && v[|v| - 1] < x {
      var r := InsertDescending(v[..|v| - 1], x);
      InsertAdds(v[..|v| - 1], x);
      assert (r + [v[|v| - 1]])[..|r|] == r;
    } else {
      assert (v + [x])[..|v|] == v;
    }
  }

  function SortedDescending(v: seq<real>): (r: seq<real>)
    ensures |r| == |v|
  {
    if v == [] then [] else InsertDescending(SortedDescending(v[..|v| - 1]), v[|v| - 1])
  }

  lemma {:induction false} SortedDescendingIs(v: seq<real>)
    ensures Descending(SortedDescending(v))
    ensures Sum(SortedDescending(v)) == Sum(v)
  {
    if v == [] {
    } else {
      SortedDescendingIs(v[..|v| - 1]);
      InsertKeepsOrder(SortedDescending(v[..|v| - 1]), v[|v| - 1]);
      InsertAdds(SortedDescending(v[..|v| - 1]), v[|v| - 1]);
    }
  }

  lemma {:induction false} SortedContents(v: seq<real>)
    ensures multiset(SortedDescending(v)) == multiset(v)
  {
    if v == [] {
    } else {
      SortedContents(v[..|v| - 1]);
      InsertContents(SortedDescending(v[..|v| - 1]), v[|v| - 1]);
      assert v == v[..|v| - 1] + [v[|v| - 1]];
    }
  }

  lemma SortedElements(v: seq<real>, i: nat)
    requires i < |v|
    ensures SortedDescending(v)[i] in v
  {
    SortedContents(v);
    assert SortedDescending(v)[i] in multiset(SortedDescending(v));
  }

  /** `sortVector` on a vector without missing values: greatest first. */
  method SortVector(v: seq<real>) returns (r: seq<real>)
    ensures r == SortedDescending(v)
  {
    r := [];
    for i := 0 to |v|
      invariant r == SortedDescending(v[..i])
    {
      assert v[..i + 1][..i] == v[..i];
      r := InsertDescending(r, v[i]);
    }
    assert v[..|v|] == v;
  }

  /** `sumVector` on a vector without missing values. */
  method SumVector(v: seq<real>) returns (sum: real)
    ensures sum == Sum(v)
  {
    sum := 0.0;
    for i := 0 to |v|
      invariant sum == Sum(v[..i])
    {
      assert v[..i + 1][..i] == v[..i];
      sum := sum + v[i];
    }
    assert v[..|v|] == v;
  }

  /** `maxInVector` on probabilities: FLT_MAX is greater than any probability. */
  method MaxInVector(v: seq<Option<real>>) returns (m: Option<real>)
    ensures IsGreatestProbability(m, v)
  {
    m := Some(FLT_MIN);
    for i := 0 to |v|
      invariant m.None? <==> None in v[..i]
      invariant m.Some? ==> m.value >= FLT_MIN && (m.value == FLT_MIN || m in v[..i])
      invariant m.Some? ==> forall k | 0 <= k < i :: v[k].Some? && v[k].value <= m.value
    {
      if v[i].None? || (m.Some? && v[i].value > m.value) {
        m := v[i];
      }
      assert v[..i + 1] == v[..i] + [v[i]];
    }
    assert v[..|v|] == v;
  }

  // ---------------------------------------------------------------- aggregation

  /** The spread of one hour, never negative. */
  function Spreads(min: seq<real>, max: seq<real>): (v: seq<real>)
    requires |min| == |max|
    ensures |v| == |min|
    ensures forall i | 0 <= i < |min| :: v[i] == Max(0.0, max[i] - min[i])
  {
    seq(|min|, i requires 0 <= i < |min| => Max(0.0, max[i] - min[i]))
  }

  /** Half of the weighted spreads. */
  function HalfSpread(sorted: seq<real>): (v: real)
    requires |sorted| <= |COEFFICIENTS|
  {
    Dot(sorted, COEFFICIENTS) / 2.0
  }

  function Greatest(v: seq<real>): (m: real)
    ensures m >= 0.0 && forall i | 0 <= i < |v| :: v[i] <= m
    ensures m == 0.0 || m in v
  {
    if v == [] then 0.0
    else
      var g := Greatest(v[..|v| - 1]);
      assert forall i | 0 <= i < |v| - 1 :: v[i] == v[..|v| - 1][i];
      if v[|v| - 1] > g then v[|v| - 1] else g
  }

  /** The aggregated values; `None` when they cannot be given for the period. */
  datatype Precip = Precip(min: Option<real>, max: Option<real>, mean: real, prob: Option<real>)

  /** The half spread of two to six hours. The table of weights has six entries; the weights
      of further steps would be read from behind the table, and may be anything. */
  predicate IsHalfSpread(half: real, min: seq<real>, max: seq<real>)
    requires |min| == |max|
  {
    |min| <= |COEFFICIENTS| ==> half == HalfSpread(SortedDescending(Spreads(min, max)))
  }

  /** The greatest probability: FLT_MIN at least, and missing when one is missing. */
  predicate IsGreatestProbability(m: Option<real>, prob: seq<Option<real>>) {
    && (m.None? <==> None in prob)
    && (m.Some? ==> m.value >= FLT_MIN && (m.value == FLT_MIN || m in prob))
    && (m.Some? ==> forall i | 0 <= i < |prob| :: prob[i].Some? && prob[i].value <= m.value)
  }

  /** What the hourly values of a period come to. */
  ghost predicate IsAggregate(r: Precip, hoursBack: int, min: seq<real>, max: seq<real>, mean: seq<real>,
                              prob: seq<Option<real>>)
    requires |min| == |max| == |mean| == |prob|
    requires hoursBack == 1 ==> min != []
  {
    && (hoursBack == 1 ==>
          && r.mean == Max(0.0, mean[0])
          && r.min == Some(Max(0.0, if min[0] <= max[0] then min[0] else max[0]))
          && r.max == Some(Max(0.0, if min[0] <= max[0] then max[0] else min[0]))
          && r.prob == (if prob[0].Some? then Some(Max(0.0, prob[0].value)) else None))
    && (hoursBack != 1 ==> r.mean == Max(0.0, Sum(mean)))
    && (hoursBack > 6 ==> r.min == r.max == r.prob == None)
    && (hoursBack != 1 && hoursBack <= 6 ==>
          && r.min.Some? && r.max.Some? && IsGreatestProbability(r.prob, prob)
          && exists half | IsHalfSpread(half, min, max) ::
               AggregatedFrom(r.min.value, r.max.value, r.mean, half, Max(0.0, Sum(min)), Greatest(max)))
  }

  /** The end of `PRECIP_MIN_MAX_MEAN`, from the point where the hourly values of the period
      have been collected. */
  method Aggregate(hoursBack: int, min: seq<real>, max: seq<real>, mean: seq<real>, prob: seq<Option<real>>)
    returns (r: Precip)
    requires |min| == |max| == |mean| == |prob|
    requires hoursBack == 1 ==> min != []
    ensures IsAggregate(r, hoursBack, min, max, mean, prob)
  {
    if hoursBack == 1 {
      var minOut, maxOut, meanOut := Max(0.0, min[0]), Max(0.0, max[0]), Max(0.0, mean[0]);
      var probOut := if prob[0].Some? then Some(Max(0.0, prob[0].value)) else None;
      if minOut > maxOut {
        minOut, maxOut := maxOut, minOut;
      }
      return Precip(Some(minOut), Some(maxOut), meanOut, probOut);
    }
    var sumMean := SumVector(mean);
    if hoursBack > 6 {
      return Precip(None, None, Max(0.0, sumMean), None);
    }
    var v := HalfOfSpreads(min, max);
    var sumMin := SumVector(min);
    var maxPrecipMax := MaxPrecipMax(max);
    var probOut := MaxInVector(prob);
    var meanOut := Max(0.0, sumMean);
    var minOut := Max(0.0, meanOut - v);
    var maxOut := Max(0.0, meanOut + v);
    minOut := Max(Max(0.0, sumMin), minOut);
    maxOut := if maxOut < maxPrecipMax then maxPrecipMax else maxOut;
    if minOut > maxOut {
      minOut, maxOut := maxOut, minOut;
    }
    r := Precip(Some(minOut), Some(maxOut), meanOut, probOut);
  }

  method HalfOfSpreads(min: seq<real>, max: seq<real>) returns (v: real)
    requires |min| == |max|
    ensures IsHalfSpread(v, min, max)
  {
    var minMaxDif: seq<real> := [];
    for i := 0 to |min|
      invariant minMaxDif == Spreads(min, max)[..i]
    {
      var d := max[i] - min[i];
      minMaxDif := minMaxDif + [if d < 0.0 then 0.0 else d];
    }
    assert minMaxDif == Spreads(min, max);
    var sorted := SortVector(minMaxDif);
    v := WeightedSum(sorted);
    v := v / 2.0;
  }

  method WeightedSum(sorted: seq<real>) returns (v: real)
    ensures |sorted| <= |COEFFICIENTS| ==> v == Dot(sorted, COEFFICIENTS)
  {
    v := 0.0;
    for i := 0 to |sorted|
      invariant i <= |COEFFICIENTS| ==> v == Dot(sorted[..i], COEFFICIENTS)
    {
      assert sorted[..i + 1][..i] == sorted[..i];
      var a: real := *;
      if i < |COEFFICIENTS| {
        a := COEFFICIENTS[i];
      }
      v := v + sorted[i] * a;
    }
    assert sorted[..|sorted|] == sorted;
  }

  method MaxPrecipMax(max: seq<real>) returns (m: real)
    ensures m == Greatest(max)
  {
    m := 0.0;
    for i := 0 to |max|
      invariant m == Greatest(max[..i])
    {
      assert max[..i + 1][..i] == max[..i];
      if max[i] > m {
        m := max[i];
      }
    }
    assert max[..|max|] == max;
  }

  /** The least and the greatest value around the mean. */
  predicate AggregatedFrom(min: real, max: real, mean: real, half: real, sumMin: real, greatest: real) {
    var lo := Max(sumMin, Max(0.0, mean - half));
    var hi := Max(Max(0.0, mean + half), greatest);
    if lo > hi then min == hi && max == lo else min == lo && max == hi
  }

  // ---------------------------------------------------------------- the weights

  function Entry(v: seq<real>, i: nat): (r: real) {
    if i < |v| then v[i] else 0.0
  }

  /** The weights of the spreads, from the greatest on. */
  function Weighted(v: seq<real>): (r: real) {
    0.98 * Entry(v, 0) + 0.60 * Entry(v, 1) + 0.64 * Entry(v, 2)
    + 0.32 * Entry(v, 3) + 0.39 * Entry(v, 4) + 1.75 * Entry(v, 5)
  }

  lemma {:induction false} DotIsWeighted(v: seq<real>)
    requires |v| <= |COEFFICIENTS|
    ensures Dot(v, COEFFICIENTS) == Weighted(v)
  {
    if v == [] {
    } else {
      var init := v[..|v| - 1];
      DotIsWeighted(init);
      assert forall i: nat | i < |v| - 1 :: Entry(init, i) == Entry(v, i);
    }
  }

  /** Where neither the least nor the greatest hourly values limit it, the aggregated spread
      lies around the mean, half of the weighted spreads to each side. */
  lemma SpreadExactly(min: seq<real>, max: seq<real>, mean: seq<real>, minOut: real, maxOut: real)
    requires |min| == |max| == |mean| <= |COEFFICIENTS|
    requires exists half | IsHalfSpread(half, min, max) ::
               AggregatedFrom(minOut, maxOut, Max(0.0, Sum(mean)), half, Max(0.0, Sum(min)), Greatest(max))
    requires var w := Weighted(SortedDescending(Spreads(min, max)));
             && w >= 0.0 && 0.0 <= Sum(min) <= Sum(mean) - w / 2.0 && Greatest(max) <= Sum(mean) + w / 2.0
    ensures var w := Weighted(SortedDescending(Spreads(min, max)));
            minOut == Sum(mean) - w / 2.0 && maxOut == Sum(mean) + w / 2.0
  {
    DotIsWeighted(SortedDescending(Spreads(min, max)));
  }

  // ---------------------------------------------------------------- bounds of the spread

  /** The weights of the k greatest spreads together are at most k. */
  function PartialSum(k: nat): (s: real)
    requires k <= |COEFFICIENTS|
    ensures 0.0 <= s <= k as real
  {
    if k == 0 then 0.0
    else if k == 1 then 0.98
    else if k == 2 then 1.58
    else if k == 3 then 2.22
    else if k == 4 then 2.54
    else if k == 5 then 2.93
    else 4.68
  }

  lemma PartialSumStep(k: nat)
    requires k < |COEFFICIENTS|
    ensures PartialSum(k + 1) == PartialSum(k) + COEFFICIENTS[k]
  {
  }

  /** Abel summation: with the spreads in descending order the weighted sum is at most the
      plain sum, by what the weights leave free of the least spread. */
  lemma {:induction false} WeightedSumBound(v: seq<real>)
    requires |v| <= |COEFFICIENTS| && Descending(v) && forall i | 0 <= i < |v| :: v[i] >= 0.0
    ensures Dot(v, COEFFICIENTS) >= 0.0
    ensures v != [] ==>
              Dot(v, COEFFICIENTS) <= Sum(v) - (|v| as real - PartialSum(|v|)) * v[|v| - 1]
    ensures Dot(v, COEFFICIENTS) <= Sum(v)
  {
    if v == [] {
    } else {
      var n := |v| - 1;
      var init, last := v[..n], v[n];
      WeightedSumBound(init);
      PartialSumStep(n);
      var free := n as real - PartialSum(n);
      if n > 0 {
        assert free * init[n - 1] >= free * last;
      }
      assert Dot(v, COEFFICIENTS) <= Sum(init) - free * last + COEFFICIENTS[n] * last;
      assert (|v| as real - PartialSum(|v|)) * last == free * last + last - COEFFICIENTS[n] * last;
      assert (|v| as real - PartialSum(|v|)) * last >= 0.0;
    }
  }

  lemma {:induction false} SumOrder(a: seq<real>, b: seq<real>)
    requires |a| == |b| && forall i | 0 <= i < |a| :: a[i] <= b[i]
    ensures Sum(a) <= Sum(b)
  {
    if a == [] {
    } else {
      SumOrder(a[..|a| - 1], b[..|b| - 1]);
    }
  }

  lemma {:induction false} SumZero(a: seq<real>)
    requires forall i | 0 <= i < |a| :: a[i] >= 0.0
    ensures Sum(a) >= 0.0
    ensures forall i | 0 <= i < |a| :: a[i] <= Sum(a)
  {
    if a == [] {
    } else {
      SumZero(a[..|a| - 1]);
      forall i | 0 <= i < |a|
        ensures a[i] <= Sum(a)
      {
        if i < |a| - 1 {
          assert a[i] == a[..|a| - 1][i];
        }
      }
    }
  }

  lemma {:induction false} SumSpreads(min: seq<real>, max: seq<real>)
    requires |min| == |max| && forall i | 0 <= i < |min| :: min[i] <= max[i]
    ensures Sum(Spreads(min, max)) == Sum(max) - Sum(min)
  {
    if min == [] {
    } else {
      var n := |min| - 1;
      SumSpreads(min[..n], max[..n]);
      assert Spreads(min, max)[..n] == Spreads(min[..n], max[..n]);
    }
  }

  /** For any hourly values with 0 <= min <= mean <= max: the aggregated least value is
      between the sum of the least values and the mean, the greatest value is at least the
      mean and every hourly greatest value, and the aggregated spread is at most the sum of
      the hourly spreads. */
  lemma SpreadBounds(min: seq<real>, max: seq<real>, mean: seq<real>, minOut: real, maxOut: real)
    requires |min| == |max| == |mean| <= |COEFFICIENTS|
    requires forall i | 0 <= i < |min| :: 0.0 <= min[i] <= mean[i] <= max[i]
    requires exists half | IsHalfSpread(half, min, max) ::
               AggregatedFrom(minOut, maxOut, Max(0.0, Sum(mean)), half, Max(0.0, Sum(min)), Greatest(max))
    ensures Sum(min) <= minOut <= Sum(mean) <= maxOut
    ensures forall i | 0 <= i < |max| :: max[i] <= maxOut
    ensures maxOut - minOut <= Sum(max) - Sum(min)
  {
    HalfBound(min, max);
    BoundsFromHalf(min, max, mean, minOut, maxOut, HalfSpread(SortedDescending(Spreads(min, max))));
  }

  lemma HalfBound(min: seq<real>, max: seq<real>)
    requires |min| == |max| <= |COEFFICIENTS|
    ensures 0.0 <= HalfSpread(SortedDescending(Spreads(min, max))) <= Sum(Spreads(min, max)) / 2.0
  {
    SpreadsBound(Spreads(min, max));
  }

  lemma BoundsFromHalf(min: seq<real>, max: seq<real>, mean: seq<real>, minOut: real, maxOut: real, half: real)
    requires |min| == |max| == |mean|
    requires forall i | 0 <= i < |min| :: 0.0 <= min[i] <= mean[i] <= max[i]
    requires 0.0 <= half <= Sum(Spreads(min, max)) / 2.0
    requires AggregatedFrom(minOut, maxOut, Max(0.0, Sum(mean)), half, Max(0.0, Sum(min)), Greatest(max))
    ensures Sum(min) <= minOut <= Sum(mean) <= maxOut
    ensures forall i | 0 <= i < |max| :: max[i] <= maxOut
    ensures maxOut - minOut <= Sum(max) - Sum(min)
  {
    SumSpreads(min, max);
    SumZero(min);
    SumOrder(min, mean);
    GreatestBound(max);
    BoundsArithmetic(minOut, maxOut, Sum(min), Sum(mean), Sum(max), half, Greatest(max));
  }

  lemma BoundsArithmetic(minOut: real, maxOut: real, sumMin: real, sumMean: real, sumMax: real, half: real,
                         greatest: real)
    requires AggregatedFrom(minOut, maxOut, sumMean, half, sumMin, greatest)
    requires 0.0 <= sumMin <= sumMean && 0.0 <= half <= (sumMax - sumMin) / 2.0 && greatest <= sumMax
    ensures sumMin <= minOut <= sumMean <= maxOut && greatest <= maxOut
    ensures maxOut - minOut <= sumMax - sumMin
  {
  }

  lemma SpreadsBound(spreads: seq<real>)
    requires |spreads| <= |COEFFICIENTS| && forall i | 0 <= i < |spreads| :: spreads[i] >= 0.0
    ensures 0.0 <= HalfSpread(SortedDescending(spreads)) <= Sum(spreads) / 2.0
  {
    var sorted := SortedDescending(spreads);
    SortedDescendingIs(spreads);
    forall i | 0 <= i < |sorted|
      ensures sorted[i] >= 0.0
    {
      SortedElements(spreads, i);
    }
    WeightedSumBound(sorted);
  }

  lemma GreatestBound(max: seq<real>)
    requires forall i | 0 <= i < |max| :: max[i] >= 0.0
    ensures Greatest(max) <= Sum(max)
  {
    SumZero(max);
  }
}
