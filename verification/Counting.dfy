// Sums over the requests of a server, and cumulative histogram buckets; shared
// by the two demo services.
module Counting {
  function Sum<T>(s: seq<T>, f: T -> int): int {
    if |s| == 0 then 0 else Sum(s[..|s| - 1], f) + f(s[|s| - 1])
  }

  lemma {:induction false} SumUpdate<T>(s: seq<T>, k: nat, x: T, f: T -> int)
    requires k < |s|
    ensures Sum(s[k := x], f) == Sum(s, f) - f(s[k]) + f(x)
  {
    var front := s[..|s| - 1];
    if k < |s| - 1 {
      SumUpdate(front, k, x, f);
      assert s[k := x][..|s| - 1] == front[k := x];
    } else {
      assert s[k := x][..|s| - 1] == front;
    }
  }

  lemma SumAppend<T>(s: seq<T>, x: T, f: T -> int)
    ensures Sum(s + [x], f) == Sum(s, f) + f(x)
  {
    assert (s + [x])[..|s|] == s;
  }

  lemma {:induction false} SumAtMost<T>(s: seq<T>, f: T -> int, g: T -> int)
    requires forall x :: x in s ==> f(x) <= g(x)
    ensures Sum(s, f) <= Sum(s, g)
  {
    if |s| > 0 {
      SumAtMost(s[..|s| - 1], f, g);
    }
  }

  lemma SumSame<T>(s: seq<T>, f: T -> int, g: T -> int)
    requires forall x :: x in s ==> f(x) == g(x)
    ensures Sum(s, f) == Sum(s, g)
  {
    SumAtMost(s, f, g);
    SumAtMost(s, g, f);
  }

  // Sum of f + c * g.
  lemma {:induction false} SumCombine<T>(s: seq<T>, f: T -> int, c: int, g: T -> int, h: T -> int)
    requires forall x :: x in s ==> h(x) == f(x) + c * g(x)
    ensures Sum(s, h) == Sum(s, f) + c * Sum(s, g)
  {
    if |s| > 0 {
      var front, last := s[..|s| - 1], s[|s| - 1];
      SumCombine(front, f, c, g, h);
      assert last in s;
      assert c * Sum(s, g) == c * Sum(front, g) + c * g(last);
    }
  }

  lemma {:induction false} SumZero<T>(s: seq<T>, f: T -> int)
    requires forall x :: x in s ==> f(x) == 0
    ensures Sum(s, f) == 0
  {
    if |s| > 0 {
      SumZero(s[..|s| - 1], f);
    }
  }

  lemma {:induction false} SumOnes<T>(s: seq<T>, f: T -> int)
    requires forall x :: x in s ==> f(x) == 1
    ensures Sum(s, f) == |s|
  {
    if |s| > 0 {
      SumOnes(s[..|s| - 1], f);
    }
  }

  // Buckets after one observation: every bucket whose boundary it does not exceed.
  function Bumped(buckets: seq<nat>, boundaries: seq<int>, duration: int): seq<nat>
    requires |buckets| == |boundaries|
  {
    seq(|buckets|, i requires 0 <= i < |buckets| => if duration <= boundaries[i] then buckets[i] + 1 else buckets[i])
  }

  method RecordDuration(buckets: array<nat>, boundaries: seq<int>, duration: int)
    requires buckets.Length == |boundaries|
    modifies buckets
    ensures buckets[..] == Bumped(old(buckets[..]), boundaries, duration)
  {
    ghost var before := buckets[..];
    for i := 0 to |boundaries|
      invariant forall j :: 0 <= j < i ==> buckets[j] == Bumped(before, boundaries, duration)[j]
      invariant forall j :: i <= j < buckets.Length ==> buckets[j] == before[j]
    {
      if duration <= boundaries[i] {
        buckets[i] := buckets[i] + 1;
      }
    }
  }
}
