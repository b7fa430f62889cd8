// Safe per-replica capacity: the nearest-rank 20th percentile of observed
// throughput efficiency, extrapolated to the physical slot limit
// (internal/forecast/model.go, SafePerReplicaCapacity).
module CapacityEstimate {
  import opened Values
  import opened Samples
  import G = Regression

  const MINIMUM_CAPACITY_SAMPLES: nat := 3

  datatype Estimate = Estimate(efficiency: real, physical: real, safe: real)

  predicate SortedReals(s: seq<real>) {
    forall i, j :: 0 <= i <= j < |s| ==> s[i] <= s[j]
  }

  lemma AppendSorted(s: seq<real>, x: real)
    requires SortedReals(s) && forall y :: y in s ==> y <= x
    ensures SortedReals(s + [x])
  {
    forall i, j | 0 <= i <= j < |s| + 1
      ensures (s + [x])[i] <= (s + [x])[j]
    {
      assert i < |s| ==> s[i] in s;
    }
  }

  // What is inserted below the last element stays below it.
  lemma InsertedBelow(r: seq<real>, s: seq<real>, y: real, last: real)
    requires multiset(r) == multiset(s) + multiset{y} && y <= last && forall x :: x in s ==> x <= last
    ensures forall x :: x in r ==> x <= last
  {
    forall x | x in r
      ensures x <= last
    {
      assert x in multiset(r);
      assert x in multiset(s) ==> x in s;
    }
  }

  // sort.Float64s on finite values: the result is determined by the multiset,
  // so any sorting algorithm stands for it.
  function Insert(y: real, s: seq<real>): (r: seq<real>)
    requires SortedReals(s)
    ensures SortedReals(r) && multiset(r) == multiset(s) + multiset{y}
  {
    if |s| == 0 || Last(s) <= y then
      AppendSorted(s, y);
      s + [y]
    else
      var front, last := s[..|s| - 1], Last(s);
      assert s == front + [last];
      var r := Insert(y, front);
      InsertedBelow(r, front, y, last);
      AppendSorted(r, last);
      r + [last]
  }

  function Sort(s: seq<real>): (r: seq<real>)
    ensures SortedReals(r) && multiset(r) == multiset(s) && |r| == |s|
  {
    if |s| == 0 then []
    else
      var r := Insert(s[|s| - 1], Sort(s[..|s| - 1]));
      assert s == s[..|s| - 1] + [s[|s| - 1]];
      assert |multiset(r)| == |multiset(s)|;
      r
  }

  function Ceiling(x: real): int {
    -((-x).Floor)
  }

  // Nearest rank of the 20th percentile, as a zero-based index.
  function RankIndex(n: nat): int {
    var index := Ceiling(0.20 * n as real) - 1;
    if index < 0 then 0 else index
  }

  function Efficiencies(samples: seq<Sample>): seq<real> {
    seq(|samples|, i requires 0 <= i < |samples| => if samples[i].value.Finite? then samples[i].value.v else 0.0)
  }

  predicate AllUsable(samples: seq<Sample>) {
    forall s :: s in samples ==> s.timestamp != ZERO_TIME && Acceptable(Capacity, s.value)
  }

  predicate ValidLimits(physicalSlotLimit: Float, margin: Float) {
    physicalSlotLimit.Finite? && physicalSlotLimit.v > 0.0 && margin.Finite? && 0.0 < margin.v <= 1.0
  }

  // The chosen efficiency: the order statistic at the nearest rank.
  function Conservative(values: seq<real>): real
    requires |values| > 0
  {
    RankInRange(|values|);
    Sort(values)[RankIndex(|values|)]
  }

  lemma RankInRange(n: nat)
    requires n > 0
    ensures 0 <= RankIndex(n) < n
    ensures n <= 5 * (RankIndex(n) + 1) < n + 5
  {
    var x := 0.20 * n as real;
    var c := Ceiling(x);
    assert c as real >= x > c as real - 1.0;
    assert 5.0 * x == n as real;
    assert 5 * c >= n by {
      assert (5 * c) as real >= n as real;
    }
    assert 5 * c - 5 < n by {
      assert (5 * c - 5) as real < n as real;
    }
  }

  // The estimate as a function of its inputs.
  function EstimateOf(samples: seq<Sample>, physicalSlotLimit: Float, margin: Float): Option<Estimate> {
    if |samples| >= MINIMUM_CAPACITY_SAMPLES && ValidLimits(physicalSlotLimit, margin) && AllUsable(samples) then
      var v := Conservative(Efficiencies(samples));
      Some(Extrapolated(v, physicalSlotLimit.v, margin.v))
    else None
  }

  function Extrapolated(efficiency: real, physicalSlotLimit: real, margin: real): Estimate {
    Estimate(efficiency, efficiency * physicalSlotLimit, efficiency * physicalSlotLimit * margin)
  }

  // Collect the efficiencies, or stop at the first unusable sample.
  method CollectEfficiencies(samples: seq<Sample>) returns (values: seq<real>, ok: bool)
    ensures ok <==> AllUsable(samples)
    ensures ok ==> values == Efficiencies(samples)
  {
    values := [];
    for i := 0 to |samples|
      invariant AllUsable(samples[..i])
      invariant values == Efficiencies(samples)[..i]
    {
      assert samples[i] in samples;
      if samples[i].timestamp == ZERO_TIME || !samples[i].value.Finite? || samples[i].value.v <= 0.0 {
        return values, false;
      }
      assert samples[..i + 1] == samples[..i] + [samples[i]];
      values := values + [samples[i].value.v];
    }
    assert samples[..|samples|] == samples;
    return values, true;
  }

  // Extrapolate to the slot limit and apply the margin; the final positivity
  // test never rejects.
  method Extrapolate(efficiency: real, physicalSlotLimit: real, margin: real) returns (estimate: Option<Estimate>)
    requires efficiency > 0.0 && physicalSlotLimit > 0.0 && margin > 0.0
    ensures estimate == Some(Extrapolated(efficiency, physicalSlotLimit, margin))
  {
    var estimatedCapacity := efficiency * physicalSlotLimit;
    var safeCapacity := estimatedCapacity * margin;
    ProductPositive(efficiency, physicalSlotLimit);
    assert estimatedCapacity > 0.0;
    ProductPositive(estimatedCapacity, margin);
    assert safeCapacity > 0.0 && safeCapacity == efficiency * physicalSlotLimit * margin;
    if estimatedCapacity <= 0.0 || safeCapacity <= 0.0 {
      return None;
    }
    return Some(Estimate(efficiency, estimatedCapacity, safeCapacity));
  }

  method SafePerReplicaCapacity(samples: seq<Sample>, physicalSlotLimit: Float, margin: Float)
    returns (estimate: Option<Estimate>)
    ensures estimate == EstimateOf(samples, physicalSlotLimit, margin)
  {
    if |samples| < MINIMUM_CAPACITY_SAMPLES || !physicalSlotLimit.Finite? || physicalSlotLimit.v <= 0.0
       || !margin.Finite? || margin.v <= 0.0 || margin.v > 1.0 {
      return None;
    }
    var values, ok := CollectEfficiencies(samples);
    if !ok {
      return None;
    }
    values := Sort(values);
    RankInRange(|values|);
    SelectedPositive(samples);
    estimate := Extrapolate(values[RankIndex(|values|)], physicalSlotLimit.v, margin.v);
  }

  lemma ProductPositive(a: real, b: real)
    requires a > 0.0 && b > 0.0
    ensures a * b > 0.0
  {
  }

  // ----- Order statistics -----

  function AtLeast(v: real): real -> bool { (y: real) => y >= v }
  function AtMostValue(v: real): real -> bool { (y: real) => y <= v }

  function CountAtLeast(values: seq<real>, v: real): nat {
    |Filter(values, AtLeast(v))|
  }

  function CountAtMost(values: seq<real>, v: real): nat {
    |Filter(values, AtMostValue(v))|
  }

  lemma {:induction false} FilterSplit<T>(s: seq<T>, k: nat, p: T -> bool)
    requires k <= |s|
    ensures Filter(s, p) == Filter(s[..k], p) + Filter(s[k..], p)
  {
    if k == |s| {
      assert s[..k] == s && s[k..] == [];
    } else {
      FilterSplit(s[..|s| - 1], k, p);
      assert s[..|s| - 1][..k] == s[..k] && s[..|s| - 1][k..] == s[k..][..|s| - k - 1];
      assert Last(s[k..]) == Last(s);
    }
  }

  lemma {:induction false} FilterShorter<T>(s: seq<T>, p: T -> bool)
    ensures |Filter(s, p)| <= |s|
  {
    if |s| > 0 {
      FilterShorter(s[..|s| - 1], p);
    }
  }

  // In sorted order, everything from position k on reaches s[k], everything up
  // to it stays below any larger bound.
  lemma SortedCounts(s: seq<real>, k: nat, w: real)
    requires SortedReals(s) && k < |s| && w > s[k]
    ensures CountAtLeast(s, s[k]) >= |s| - k && CountAtMost(s, s[k]) >= k + 1 && CountAtLeast(s, w) <= |s| - k - 1
  {
    FilterSplit(s, k, AtLeast(s[k]));
    FilterEverything(s[k..], AtLeast(s[k]));
    FilterSplit(s, k + 1, AtMostValue(s[k]));
    FilterEverything(s[..k + 1], AtMostValue(s[k]));
    FilterSplit(s, k + 1, AtLeast(w));
    FilterNothing(s[..k + 1], AtLeast(w));
    FilterShorter(s[k + 1..], AtLeast(w));
  }

  // The chosen efficiency v: more than 4n/5 of the samples reach v, at least n/5
  // do not exceed it, and no larger bound is reached by more than 4n/5 of them.
  lemma ConservativeIsPercentile(values: seq<real>, w: real)
    requires |values| > 0 && w > Conservative(values)
    ensures var v := Conservative(values);
      && v in values
      && 5 * CountAtLeast(values, v) > 4 * |values|
      && 5 * CountAtMost(values, v) >= |values|
      && 5 * CountAtLeast(values, w) <= 4 * |values|
  {
    var s, v := Sort(values), Conservative(values);
    RankInRange(|values|);
    SortedCounts(s, RankIndex(|values|), w);
    FilterPermutation(s, values, AtLeast(v));
    FilterPermutation(s, values, AtMostValue(v));
    FilterPermutation(s, values, AtLeast(w));
    PermutationMember(s, values, v);
    assert v in s;
  }

  // That property determines v, whatever the order of the samples ...
  lemma PercentileIsUnique(values: seq<real>, v: real)
    requires |values| > 0 && 5 * CountAtLeast(values, v) > 4 * |values|
    requires forall w :: w > v ==> 5 * CountAtLeast(values, w) <= 4 * |values|
    ensures v == Conservative(values)
  {
    var c := Conservative(values);
    ConservativeIsPercentile(values, if v > c then v else c + 1.0);
  }

  // ... so the chosen value does not depend on it,
  lemma ConservativePermutation(values: seq<real>, others: seq<real>)
    requires |values| > 0 && multiset(values) == multiset(others)
    ensures |others| == |values| && Conservative(values) == Conservative(others)
  {
    assert |multiset(values)| == |values| && |multiset(others)| == |others|;
    var v := Conservative(values);
    ConservativeIsPercentile(values, v + 1.0);
    FilterPermutation(values, others, AtLeast(v));
    forall w | w > v
      ensures 5 * CountAtLeast(others, w) <= 4 * |others|
    {
      ConservativeIsPercentile(values, w);
      FilterPermutation(values, others, AtLeast(w));
    }
    PercentileIsUnique(others, v);
  }

  lemma {:induction false} CountMonotone(values: seq<real>, higher: seq<real>, v: real)
    requires |values| == |higher| && forall i :: 0 <= i < |values| ==> values[i] <= higher[i]
    ensures CountAtLeast(values, v) <= CountAtLeast(higher, v)
  {
    if |values| > 0 {
      CountMonotone(values[..|values| - 1], higher[..|higher| - 1], v);
    }
  }

  // ... and it never drops when no sample drops.
  lemma ConservativeMonotone(values: seq<real>, higher: seq<real>)
    requires |values| == |higher| > 0 && forall i :: 0 <= i < |values| ==> values[i] <= higher[i]
    ensures Conservative(values) <= Conservative(higher)
  {
    var v, u := Conservative(values), Conservative(higher);
    ConservativeIsPercentile(values, v + 1.0);
    ConservativeIsPercentile(higher, if v > u then v else u + 1.0);
    CountMonotone(values, higher, v);
  }

  // ----- The same for the estimate of a history -----

  lemma {:induction false} EfficiencyCounts(samples: seq<Sample>, y: real)
    requires AllUsable(samples)
    ensures multiset(Efficiencies(samples))[y] == |Filter(samples, WithEfficiency(y))|
  {
    if |samples| > 0 {
      var front := samples[..|samples| - 1];
      assert samples == front + [Last(samples)] && Last(samples) in samples;
      EfficiencyCounts(front, y);
      assert Efficiencies(samples) == Efficiencies(front) + [Last(samples).value.v];
    }
  }

  function WithEfficiency(y: real): Sample -> bool {
    (s: Sample) => s.value == Finite(y)
  }

  lemma EfficienciesPermutation(samples: seq<Sample>, others: seq<Sample>)
    requires multiset(samples) == multiset(others) && AllUsable(samples)
    ensures AllUsable(others) && multiset(Efficiencies(samples)) == multiset(Efficiencies(others))
  {
    forall s | s in others
      ensures s in samples
    {
      PermutationMember(samples, others, s);
    }
    forall y: real
      ensures multiset(Efficiencies(samples))[y] == multiset(Efficiencies(others))[y]
    {
      EfficiencyCounts(samples, y);
      EfficiencyCounts(others, y);
      FilterPermutation(samples, others, WithEfficiency(y));
    }
    SameCounts(multiset(Efficiencies(samples)), multiset(Efficiencies(others)));
  }

  // The order of the samples does not matter to the estimate.
  lemma EstimateIsOrderIndependent(samples: seq<Sample>, others: seq<Sample>, physicalSlotLimit: Float, margin: Float)
    requires multiset(samples) == multiset(others)
    ensures EstimateOf(samples, physicalSlotLimit, margin) == EstimateOf(others, physicalSlotLimit, margin)
  {
    assert |multiset(samples)| == |samples| && |multiset(others)| == |others|;
    if |samples| >= MINIMUM_CAPACITY_SAMPLES && AllUsable(samples) {
      EfficienciesPermutation(samples, others);
      ConservativePermutation(Efficiencies(samples), Efficiencies(others));
    } else if AllUsable(others) {
      EfficienciesPermutation(others, samples);
    }
  }

  predicate NoMoreThan(e: Estimate, e': Estimate) {
    e.efficiency <= e'.efficiency && e.physical <= e'.physical && e.safe <= e'.safe
  }

  lemma RaisedExtrapolation(v: real, u: real, p: real, m: real)
    requires v <= u && p > 0.0 && m > 0.0
    ensures NoMoreThan(Extrapolated(v, p, m), Extrapolated(u, p, m))
  {
    var w, x := v * p, u * p;
    G.ProductMonotone(p, v, u);
    G.ProductMonotone(m, w, x);
  }

  lemma EstimateFrom(samples: seq<Sample>, physicalSlotLimit: Float, margin: Float) returns (v: real)
    requires |samples| >= MINIMUM_CAPACITY_SAMPLES && ValidLimits(physicalSlotLimit, margin) && AllUsable(samples)
    ensures v == Conservative(Efficiencies(samples))
    ensures EstimateOf(samples, physicalSlotLimit, margin) == Some(Extrapolated(v, physicalSlotLimit.v, margin.v))
  {
    v := Conservative(Efficiencies(samples));
  }

  // One sample is at least as efficient as the other, at the same time.
  predicate Raised(s: Sample, t: Sample) {
    s.value.Finite? ==> t.timestamp == s.timestamp && t.value.Finite? && t.value.v >= s.value.v
  }

  lemma RaisedEfficiencies(samples: seq<Sample>, higher: seq<Sample>)
    requires |samples| == |higher| && forall i :: 0 <= i < |samples| ==> Raised(samples[i], higher[i])
    requires AllUsable(samples)
    ensures AllUsable(higher) && forall i :: 0 <= i < |samples| ==> Efficiencies(samples)[i] <= Efficiencies(higher)[i]
  {
    forall t | t in higher
      ensures t.timestamp != ZERO_TIME && Acceptable(Capacity, t.value)
    {
      var i :| 0 <= i < |higher| && higher[i] == t;
      assert samples[i] in samples && Raised(samples[i], higher[i]);
    }
    forall i | 0 <= i < |samples|
      ensures Efficiencies(samples)[i] <= Efficiencies(higher)[i]
    {
      assert samples[i] in samples && Raised(samples[i], higher[i]);
    }
  }

  // Raising samples keeps an estimate available and never lowers it.
  lemma EstimateIsMonotone(samples: seq<Sample>, higher: seq<Sample>, physicalSlotLimit: Float, margin: Float)
    requires |samples| == |higher| && forall i :: 0 <= i < |samples| ==> Raised(samples[i], higher[i])
    requires EstimateOf(samples, physicalSlotLimit, margin).Some?
    ensures EstimateOf(higher, physicalSlotLimit, margin).Some?
    ensures NoMoreThan(EstimateOf(samples, physicalSlotLimit, margin).value,
      EstimateOf(higher, physicalSlotLimit, margin).value)
  {
    RaisedEfficiencies(samples, higher);
    ConservativeMonotone(Efficiencies(samples), Efficiencies(higher));
    var v := EstimateFrom(samples, physicalSlotLimit, margin);
    var u := EstimateFrom(higher, physicalSlotLimit, margin);
    RaisedExtrapolation(v, u, physicalSlotLimit.v, margin.v);
  }

  lemma SelectedPositive(samples: seq<Sample>)
    requires |samples| > 0 && AllUsable(samples)
    ensures Conservative(Efficiencies(samples)) > 0.0
  {
    var values := Efficiencies(samples);
    var v := Conservative(values);
    ConservativeIsPercentile(values, v + 1.0);
    var i :| 0 <= i < |values| && values[i] == v;
    assert samples[i] in samples;
  }

  // With the safe operating occupancy of the capacity path (physical limit times
  // margin), the safe capacity per replica is efficiency times that occupancy.
  lemma SafeCapacityIsEfficiencyTimesOccupancy(samples: seq<Sample>, physicalSlotLimit: Float, margin: Float)
    requires EstimateOf(samples, physicalSlotLimit, margin).Some?
    ensures var e := EstimateOf(samples, physicalSlotLimit, margin).value;
      && e.efficiency in Efficiencies(samples)
      && e.safe == e.efficiency * Scaled(physicalSlotLimit, margin.v).v
      && 0.0 < e.safe <= e.physical
      && |samples| >= 3 && e.efficiency == Conservative(Efficiencies(samples))
      && e.physical == e.efficiency * physicalSlotLimit.v
  {
    var values := Efficiencies(samples);
    var v := Conservative(values);
    ConservativeIsPercentile(values, v + 1.0);
    SelectedPositive(samples);
    SafeNumbers(v, physicalSlotLimit.v, margin.v);
  }

  lemma SafeNumbers(v: real, p: real, m: real)
    requires v > 0.0 && p > 0.0 && 0.0 < m <= 1.0
    ensures v * p * m == v * (p * m) && 0.0 < v * p * m <= v * p
  {
    var w := v * p;
    ProductPositive(v, p);
    ProductPositive(w, m);
    Fraction(w, m);
  }

  lemma Fraction(a: real, m: real)
    requires a > 0.0 && 0.0 < m <= 1.0
    ensures a * m <= a
  {
    if m < 1.0 {
      ProductPositive(a, 1.0 - m);
      assert a * (1.0 - m) == a - a * m;
    }
  }
}
