// Values shared by every module: floating-point numbers that may be
// non-finite, 32-bit integers, instants, and one Prometheus observation.
module Values {
  datatype Option<+T> = None | Some(value: T)

  // A float64. Finite values are idealised to reals (no rounding, no overflow
  // of an intermediate result); the non-finite ones are kept apart.
  datatype Float = Finite(v: real) | NaN | PosInf | NegInf

  predicate FiniteNonnegative(f: Float) {
    f.Finite? && f.v >= 0.0
  }

  // IEEE `a > b`: false as soon as one side is NaN.
  predicate Greater(a: Float, b: Float) {
    match (a, b)
    case (Finite(x), Finite(y)) => x > y
    case (NaN, _) => false
    case (_, NaN) => false
    case (PosInf, _) => !b.PosInf?
    case (_, NegInf) => !a.NegInf?
    case (_, _) => false
  }

  // IEEE `a <= b`.
  predicate AtMost(a: Float, b: Float) {
    !a.NaN? && !b.NaN? && !Greater(a, b)
  }

  // `f * factor` for a positive real factor.
  function Scaled(f: Float, factor: real): Float
    requires factor > 0.0
  {
    if f.Finite? then Finite(f.v * factor) else f
  }

  const MAX_INT32: int := 0x7fff_ffff
  type int32 = x: int | -0x8000_0000 <= x <= 0x7fff_ffff

  // int32 addition wraps around.
  function Add32(a: int32, b: int32): int32 {
    var sum := a + b;
    if sum > MAX_INT32 then sum - 0x1_0000_0000
    else if sum < -0x8000_0000 then sum + 0x1_0000_0000
    else sum
  }

  // Instants are nanoseconds since the zero value of Go's time.Time, so that
  // `t.IsZero()` is `t == ZERO_TIME`; durations are nanoseconds.
  const ZERO_TIME: int := 0
  const SECOND: int := 1_000_000_000
  const MINUTE: int := 60 * SECOND

  function Seconds(duration: int): real {
    duration as real / 1_000_000_000.0
  }

  // One Prometheus result as the controller sees it (error text left out).
  datatype Metric = Metric(value: Float, observedAt: int, isValid: bool, isFresh: bool)

  const INVALID_METRIC := Metric(Finite(0.0), ZERO_TIME, false, false)

  // metricUsable, rateUsable and the analyzer's usable are the same test.
  predicate Usable(m: Metric) {
    m.isValid && m.isFresh && m.observedAt != ZERO_TIME && FiniteNonnegative(m.value)
  }

  function Last<T>(s: seq<T>): T
    requires |s| > 0
  {
    s[|s| - 1]
  }

  // The elements that satisfy p, in order.
  function Filter<T>(s: seq<T>, p: T -> bool): seq<T> {
    if |s| == 0 then []
    else
      var rest := Filter(s[..|s| - 1], p);
      if p(Last(s)) then rest + [Last(s)] else rest
  }

  lemma {:induction false} FilterMember<T>(s: seq<T>, p: T -> bool, x: T)
    ensures x in Filter(s, p) <==> x in s && p(x)
  {
    if |s| > 0 {
      FilterMember(s[..|s| - 1], p, x);
      assert s == s[..|s| - 1] + [Last(s)];
    }
  }

  lemma {:induction false} FilterCount<T>(s: seq<T>, p: T -> bool, x: T)
    ensures multiset(Filter(s, p))[x] == if p(x) then multiset(s)[x] else 0
  {
    if |s| > 0 {
      FilterCount(s[..|s| - 1], p, x);
      assert s == s[..|s| - 1] + [Last(s)];
    }
  }

  lemma {:induction false} FilterEverything<T>(s: seq<T>, p: T -> bool)
    requires forall x :: x in s ==> p(x)
    ensures Filter(s, p) == s
  {
    if |s| > 0 {
      FilterEverything(s[..|s| - 1], p);
    }
  }

  lemma {:induction false} FilterNothing<T>(s: seq<T>, p: T -> bool)
    requires forall x :: x in s ==> !p(x)
    ensures Filter(s, p) == []
  {
    if |s| > 0 {
      FilterNothing(s[..|s| - 1], p);
    }
  }

  lemma SameCounts<T>(s: multiset<T>, t: multiset<T>)
    requires forall x: T :: s[x] == t[x]
    ensures s == t
  {
  }

  // Filtering respects permutation.
  lemma FilterPermutation<T>(s: seq<T>, t: seq<T>, p: T -> bool)
    requires multiset(s) == multiset(t)
    ensures multiset(Filter(s, p)) == multiset(Filter(t, p))
    ensures |Filter(s, p)| == |Filter(t, p)|
  {
    forall x: T
      ensures multiset(Filter(s, p))[x] == multiset(Filter(t, p))[x]
    {
      FilterCount(s, p, x);
      FilterCount(t, p, x);
    }
    SameCounts(multiset(Filter(s, p)), multiset(Filter(t, p)));
    assert |multiset(Filter(s, p))| == |Filter(s, p)| && |multiset(Filter(t, p))| == |Filter(t, p)|;
  }

  lemma PermutationMember<T>(s: seq<T>, t: seq<T>, x: T)
    requires multiset(s) == multiset(t)
    ensures x in s <==> x in t
  {
    assert x in s <==> x in multiset(s);
    assert x in t <==> x in multiset(t);
  }
}
