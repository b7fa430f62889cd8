// Bounded sample histories, compacted in place in their backing array
// (internal/forecast/model.go: pruneSamples, AppendSample, AppendCapacitySample).
module History {
  import opened Values
  import opened Samples

  // ----- Specification on values -----

  function InWindow(kind: Kind, now: int): Sample -> bool {
    (s: Sample) => now - HISTORY_WINDOW <= s.timestamp <= now + FUTURE_TOLERANCE && Acceptable(kind, s.value)
  }

  function LastN<T>(s: seq<T>, n: nat): seq<T> {
    if |s| > n then s[|s| - n..] else s
  }

  // What survives at `now`. Only the request-rate history is also cut to
  // MAX_SAMPLES here.
  function Pruned(kind: Kind, history: seq<Sample>, now: int): seq<Sample> {
    var kept := Filter(history, InWindow(kind, now));
    if kind.Demand? then LastN(kept, MAX_SAMPLES) else kept
  }

  predicate Accepts(kind: Kind, sample: Sample, now: int) {
    sample.timestamp != ZERO_TIME && InWindow(kind, now)(sample)
  }

  // Prune, then append, replace or ignore.
  function Appended(kind: Kind, history: seq<Sample>, sample: Sample, now: int): seq<Sample> {
    AppendedTo(kind, Pruned(kind, history, now), sample, now)
  }

  function AppendedTo(kind: Kind, kept: seq<Sample>, sample: Sample, now: int): seq<Sample> {
    if !Accepts(kind, sample, now) then kept
    else if |kept| > 0 && sample.timestamp < Last(kept).timestamp then kept
    else if |kept| > 0 && sample.timestamp == Last(kept).timestamp then kept[|kept| - 1 := sample]
    else LastN(kept + [sample], MAX_SAMPLES)
  }

  // ----- Slices over a backing array -----

  // A Go slice: `len` elements of `data` from `off`; its capacity reaches to the
  // end of `data`.
  datatype Slice = Slice(data: array<Sample>, off: nat, len: nat)

  ghost predicate ValidSlice(h: Slice) {
    h.off + h.len <= h.data.Length
  }

  ghost function View(h: Slice): seq<Sample>
    requires ValidSlice(h)
    reads h.data
  {
    h.data[h.off..h.off + h.len]
  }

  // The loop shared by both histories: kept := history[:0], then append every
  // sample that is still in the window, overwriting the array it reads from.
  method Compact(kind: Kind, history: Slice, now: int) returns (kept: Slice)
    requires ValidSlice(history)
    modifies history.data
    ensures kept.data == history.data && kept.off == history.off && kept.len <= history.len
    ensures View(kept) == Filter(old(View(history)), InWindow(kind, now))
  {
    var a, off := history.data, history.off;
    ghost var before := View(history);
    var n := 0;
    for i := 0 to history.len
      invariant n <= i
      invariant a[off..off + n] == Filter(before[..i], InWindow(kind, now))
      invariant forall j :: i <= j < history.len ==> a[off + j] == before[j]
    {
      var sample := a[off + i];
      assert sample == before[i];
      FilterStep(before, i, InWindow(kind, now));
      if now - HISTORY_WINDOW <= sample.timestamp && sample.timestamp <= now + FUTURE_TOLERANCE
        && Acceptable(kind, sample.value) {
        n := StoreAt(a, off, n, sample);
      }
    }
    assert before[..history.len] == before;
    kept := Slice(a, off, n);
  }

  // kept = append(kept, sample), within the capacity of the array.
  method StoreAt(a: array<Sample>, off: nat, n: nat, sample: Sample) returns (n': nat)
    requires off + n < a.Length
    modifies a
    ensures n' == n + 1 && a[off..off + n'] == old(a[off..off + n]) + [sample]
    ensures forall j :: off + n < j < a.Length ==> a[j] == old(a[j])
  {
    a[off + n] := sample;
    n' := n + 1;
  }

  lemma FilterStep<T>(s: seq<T>, i: nat, p: T -> bool)
    requires i < |s|
    ensures Filter(s[..i + 1], p) == if p(s[i]) then Filter(s[..i], p) + [s[i]] else Filter(s[..i], p)
  {
    assert s[..i + 1][..i] == s[..i];
  }

  // pruneSamples.
  method PruneSamples(history: Slice, now: int) returns (kept: Slice)
    requires ValidSlice(history)
    modifies history.data
    ensures kept.data == history.data && ValidSlice(kept)
    ensures View(kept) == Pruned(Demand, old(View(history)), now)
  {
    kept := Compact(Demand, history, now);
    if kept.len > MAX_SAMPLES {
      kept := Slice(kept.data, kept.off + kept.len - MAX_SAMPLES, MAX_SAMPLES);
    }
  }

  // append(history, sample): in place while capacity lasts, otherwise into a new
  // array of any larger capacity.
  method Push(history: Slice, sample: Sample) returns (r: Slice)
    requires ValidSlice(history)
    modifies history.data
    ensures ValidSlice(r) && (r.data == history.data || fresh(r.data))
    ensures View(r) == old(View(history)) + [sample]
  {
    if history.off + history.len < history.data.Length {
      history.data[history.off + history.len] := sample;
      r := history.(len := history.len + 1);
    } else {
      var capacity: nat :| capacity > history.len;
      var grown := new Sample[capacity](_ => NO_SAMPLE);
      CopyInto(history, grown);
      grown[history.len] := sample;
      r := Slice(grown, 0, history.len + 1);
    }
  }

  method CopyInto(from: Slice, to: array<Sample>)
    requires ValidSlice(from) && from.len <= to.Length && to != from.data
    modifies to
    ensures to[..from.len] == View(from)
  {
    for i := 0 to from.len
      invariant to[..i] == from.data[from.off..from.off + i]
    {
      to[i] := from.data[from.off + i];
    }
  }

  // append([]Sample(nil), history[lo:]...): a copy in an array of its own.
  method Copy(history: Slice) returns (r: Slice)
    requires ValidSlice(history)
    ensures ValidSlice(r) && fresh(r.data) && View(r) == View(history)
  {
    var data := new Sample[history.len](_ => NO_SAMPLE);
    CopyInto(history, data);
    r := Slice(data, 0, history.len);
  }

  // history[len(history)-1] = sample.
  method ReplaceLast(history: Slice, sample: Sample)
    requires ValidSlice(history) && history.len > 0
    modifies history.data
    ensures View(history) == old(View(history))[history.len - 1 := sample]
  {
    history.data[history.off + history.len - 1] := sample;
  }

  // Append, and keep the newest 20 in an array of their own if there are more.
  method PushBounded(history: Slice, sample: Sample) returns (r: Slice)
    requires ValidSlice(history)
    modifies history.data
    ensures ValidSlice(r) && (r.data == history.data || fresh(r.data))
    ensures View(r) == LastN(old(View(history)) + [sample], MAX_SAMPLES)
  {
    r := Push(history, sample);
    if r.len > MAX_SAMPLES {
      r := Copy(Slice(r.data, r.off + r.len - MAX_SAMPLES, MAX_SAMPLES));
    }
  }

  // The tail common to AppendSample and AppendCapacitySample, after pruning.
  method AppendPruned(kind: Kind, kept: Slice, sample: Sample, now: int) returns (r: Slice)
    requires ValidSlice(kept)
    modifies kept.data
    ensures ValidSlice(r) && (r.data == kept.data || fresh(r.data))
    ensures View(r) == AppendedTo(kind, old(View(kept)), sample, now)
  {
    if sample.timestamp == ZERO_TIME || sample.timestamp < now - HISTORY_WINDOW
       || sample.timestamp > now + FUTURE_TOLERANCE || !Acceptable(kind, sample.value) {
      return kept;
    }
    if kept.len > 0 {
      var last := kept.data[kept.off + kept.len - 1];
      assert last == Last(View(kept));
      if sample.timestamp < last.timestamp {
        return kept;
      }
      if sample.timestamp == last.timestamp {
        ReplaceLast(kept, sample);
        return kept;
      }
    }
    r := PushBounded(kept, sample);
  }

  method AppendSample(history: Slice, sample: Sample, now: int) returns (r: Slice)
    requires ValidSlice(history)
    modifies history.data
    ensures ValidSlice(r) && (r.data == history.data || fresh(r.data))
    ensures View(r) == Appended(Demand, old(View(history)), sample, now)
  {
    var kept := PruneSamples(history, now);
    r := AppendPruned(Demand, kept, sample, now);
  }

  method AppendCapacitySample(history: Slice, sample: Sample, now: int) returns (r: Slice)
    requires ValidSlice(history)
    modifies history.data
    ensures ValidSlice(r) && (r.data == history.data || fresh(r.data))
    ensures View(r) == Appended(Capacity, old(View(history)), sample, now)
  {
    var kept := Compact(Capacity, history, now);
    r := AppendPruned(Capacity, kept, sample, now);
  }

  // ----- What every append keeps, whatever the clock does -----

  // A stored history, as seen at the clock of its last update.
  predicate Stored(kind: Kind, h: seq<Sample>, now: int) {
    && |h| <= MAX_SAMPLES
    && Increasing(h)
    && forall s :: s in h ==> InWindow(kind, now)(s)
  }

  lemma {:induction false} FilterIncreasing(h: seq<Sample>, p: Sample -> bool)
    requires Increasing(h)
    ensures Increasing(Filter(h, p)) && |Filter(h, p)| <= |h|
    ensures forall s :: s in Filter(h, p) ==> s in h && p(s)
  {
    if |h| > 0 {
      var front := h[..|h| - 1];
      FilterIncreasing(front, p);
      assert forall s :: s in front ==> s.timestamp < Last(h).timestamp;
    }
  }

  // For any clock, even one that runs backwards: at most 20 samples, strictly
  // increasing timestamps, only acceptable values inside the window of `now`.
  lemma AppendKeepsHistory(kind: Kind, h: seq<Sample>, sample: Sample, now: int)
    requires |h| <= MAX_SAMPLES && Increasing(h)
    ensures Stored(kind, Appended(kind, h, sample, now), now)
  {
    FilterIncreasing(h, InWindow(kind, now));
  }

  // ----- Exactly what an append keeps -----

  // At most five minutes old, at most thirty seconds ahead, and a value the history
  // takes.
  predicate Recent(kind: Kind, s: Sample, now: int) {
    && now - 300 * SECOND <= s.timestamp && s.timestamp <= now + 30 * SECOND
    && s.value.Finite? && (if kind.Demand? then s.value.v >= 0.0 else s.value.v > 0.0)
  }

  // The new sample is taken: nothing recent is later.
  predicate Taken(kind: Kind, h: seq<Sample>, sample: Sample, now: int) {
    && sample.timestamp != 0 && Recent(kind, sample, now)
    && forall x :: x in h && Recent(kind, x, now) ==> x.timestamp <= sample.timestamp
  }

  // Twenty recent samples and a later one: the first has to go.
  predicate PushedOut(kind: Kind, h: seq<Sample>, sample: Sample, now: int, s: Sample) {
    && Taken(kind, h, sample, now) && |h| == 20 && s == h[0]
    && forall x :: x in h ==> Recent(kind, x, now) && x.timestamp < sample.timestamp
  }

  lemma {:induction false} FilterAll<T>(q: seq<T>, p: T -> bool)
    ensures |Filter(q, p)| <= |q|
    ensures |Filter(q, p)| == |q| ==> Filter(q, p) == q && forall x :: x in q ==> p(x)
  {
    if |q| > 0 {
      FilterAll(q[..|q| - 1], p);
    }
  }

  lemma PrunedIs(kind: Kind, h: seq<Sample>, now: int)
    requires |h| <= MAX_SAMPLES && Increasing(h)
    ensures var kept := Pruned(kind, h, now);
      && Increasing(kept) && |kept| <= |h|
      && (forall s :: s in kept <==> s in h && Recent(kind, s, now))
      && (|kept| == |h| ==> kept == h)
      && (kept == h <==> forall x :: x in h ==> Recent(kind, x, now))
  {
    if forall x :: x in h ==> Recent(kind, x, now) {
      FilterEverything(h, InWindow(kind, now));
    }
    FilterAll(h, InWindow(kind, now));
    FilterIncreasing(h, InWindow(kind, now));
    forall s
      ensures s in Pruned(kind, h, now) <==> s in h && Recent(kind, s, now)
    {
      FilterMember(h, InWindow(kind, now), s);
    }
  }

  predicate NoneLater(kept: seq<Sample>, sample: Sample) {
    forall x :: x in kept ==> x.timestamp <= sample.timestamp
  }

  lemma ReplacedHas(kept: seq<Sample>, sample: Sample, s: Sample)
    requires Increasing(kept) && |kept| > 0 && Last(kept).timestamp == sample.timestamp
    ensures s in kept[|kept| - 1 := sample] <==> s == sample || (s in kept && s.timestamp != sample.timestamp)
  {
    var front := kept[..|kept| - 1];
    assert kept == front + [Last(kept)] && kept[|kept| - 1 := sample] == front + [sample];
    assert forall x :: x in front ==> x.timestamp < sample.timestamp;
  }

  lemma PushedHas(kept: seq<Sample>, sample: Sample, s: Sample)
    requires Increasing(kept) && |kept| <= 20 && (|kept| > 0 ==> Last(kept).timestamp < sample.timestamp)
    ensures s in LastN(kept + [sample], 20) <==> s == sample || (s in kept && !(|kept| == 20 && s == kept[0]))
  {
    if |kept| == 20 {
      assert (kept + [sample])[1..] == kept[1..] + [sample];
      assert kept == [kept[0]] + kept[1..];
      assert forall x :: x in kept[1..] ==> x.timestamp > kept[0].timestamp;
    }
  }

  lemma LastIsLatest(kept: seq<Sample>, sample: Sample)
    requires Increasing(kept) && |kept| > 0
    ensures NoneLater(kept, sample) <==> Last(kept).timestamp <= sample.timestamp
  {
    assert Last(kept) in kept;
  }

  // The same for what pruning left.
  lemma AppendedToHas(kind: Kind, kept: seq<Sample>, sample: Sample, now: int, s: Sample)
    requires Increasing(kept) && |kept| <= 20
    ensures var taken := Accepts(kind, sample, now) && NoneLater(kept, sample);
      s in AppendedTo(kind, kept, sample, now) <==>
        || (s == sample && taken)
        || (s in kept && !(taken && s.timestamp == sample.timestamp)
            && !(taken && |kept| == 20 && Last(kept).timestamp < sample.timestamp && s == kept[0]))
  {
    if |kept| > 0 {
      LastIsLatest(kept, sample);
      if Last(kept).timestamp == sample.timestamp {
        ReplacedHas(kept, sample, s);
      }
    }
    if |kept| == 0 || Last(kept).timestamp < sample.timestamp {
      PushedHas(kept, sample, s);
      assert forall x :: x in kept ==> x.timestamp < sample.timestamp;
    }
  }

  lemma PushedOutIff(kind: Kind, h: seq<Sample>, kept: seq<Sample>, sample: Sample, now: int, s: Sample)
    requires |h| <= 20 && Increasing(kept) && |kept| <= |h|
    requires forall x :: x in kept <==> x in h && Recent(kind, x, now)
    requires kept == h <==> forall x :: x in h ==> Recent(kind, x, now)
    requires |kept| == |h| ==> kept == h
    requires Taken(kind, h, sample, now)
    ensures PushedOut(kind, h, sample, now, s) <==>
      |kept| == 20 && Last(kept).timestamp < sample.timestamp && s == kept[0]
  {
    if |kept| == 20 && Last(kept).timestamp < sample.timestamp {
      assert forall x :: x in kept ==> x.timestamp < sample.timestamp;
    }
    if PushedOut(kind, h, sample, now, s) {
      assert Last(kept) in h;
    }
  }

  // Exactly which samples a history holds after an append; they are in order of
  // time, so this is the whole of it.
  lemma AppendedIff(kind: Kind, h: seq<Sample>, sample: Sample, now: int, s: Sample)
    requires |h| <= 20 && Increasing(h)
    ensures Increasing(Appended(kind, h, sample, now))
    ensures s in Appended(kind, h, sample, now) <==>
      || (s == sample && Taken(kind, h, sample, now))
      || (s in h && Recent(kind, s, now)
          && !(Taken(kind, h, sample, now) && s.timestamp == sample.timestamp) && !PushedOut(kind, h, sample, now, s))
  {
    AppendKeepsHistory(kind, h, sample, now);
    PrunedIs(kind, h, now);
    var kept := Pruned(kind, h, now);
    AppendedToHas(kind, kept, sample, now, s);
    if Taken(kind, h, sample, now) {
      PushedOutIff(kind, h, kept, sample, now, s);
    }
  }

  // ----- The bounded history as a view of an unbounded log -----

  // An accept/replace log that is never pruned.
  function Logged(kind: Kind, log: seq<Sample>, sample: Sample, now: int): seq<Sample> {
    if !Accepts(kind, sample, now) then log
    else if |log| > 0 && sample.timestamp < Last(log).timestamp then log
    else if |log| > 0 && sample.timestamp == Last(log).timestamp then log[|log| - 1 := sample]
    else log + [sample]
  }

  // The newest 20 in-window entries of a log.
  function Retained(kind: Kind, log: seq<Sample>, now: int): seq<Sample> {
    LastN(Filter(log, InWindow(kind, now)), MAX_SAMPLES)
  }

  datatype Event = Event(sample: Sample, now: int)

  function RunHistory(kind: Kind, events: seq<Event>): seq<Sample> {
    if |events| == 0 then []
    else Appended(kind, RunHistory(kind, events[..|events| - 1]), Last(events).sample, Last(events).now)
  }

  function RunLog(kind: Kind, events: seq<Event>): seq<Sample> {
    if |events| == 0 then []
    else Logged(kind, RunLog(kind, events[..|events| - 1]), Last(events).sample, Last(events).now)
  }

  predicate ClockNondecreasing(events: seq<Event>) {
    forall i, j :: 0 <= i <= j < |events| ==> events[i].now <= events[j].now
  }

  // A log entry is never beyond the tolerance of the latest clock.
  predicate LogSound(kind: Kind, log: seq<Sample>, now: int) {
    && Increasing(log)
    && forall s :: s in log ==> s.timestamp <= now + FUTURE_TOLERANCE && Acceptable(kind, s.value)
  }

  // Length of the prefix of a log that has left the window.
  function Expired(log: seq<Sample>, now: int): nat {
    if |log| == 0 || Last(log).timestamp < now - HISTORY_WINDOW then |log|
    else Expired(log[..|log| - 1], now)
  }

  lemma {:induction false} ExpiredSplits(log: seq<Sample>, now: int)
    requires Increasing(log)
    ensures Expired(log, now) <= |log|
    ensures forall i :: 0 <= i < Expired(log, now) ==> log[i].timestamp < now - HISTORY_WINDOW
    ensures forall i :: Expired(log, now) <= i < |log| ==> log[i].timestamp >= now - HISTORY_WINDOW
  {
    if |log| > 0 && Last(log).timestamp >= now - HISTORY_WINDOW {
      ExpiredSplits(log[..|log| - 1], now);
    }
  }

  // The boundary position is determined by the two sides.
  lemma ExpiredUnique(log: seq<Sample>, now: int, k: nat)
    requires Increasing(log) && k <= |log|
    requires k > 0 ==> log[k - 1].timestamp < now - HISTORY_WINDOW
    requires k < |log| ==> log[k].timestamp >= now - HISTORY_WINDOW
    ensures Expired(log, now) == k
  {
    ExpiredSplits(log, now);
  }

  // On a sound log the in-window entries are a suffix.
  lemma {:induction false} FilterIsSuffix(kind: Kind, log: seq<Sample>, now: int)
    requires LogSound(kind, log, now)
    ensures Expired(log, now) <= |log| && Filter(log, InWindow(kind, now)) == log[Expired(log, now)..]
  {
    if |log| > 0 {
      var front, last := log[..|log| - 1], Last(log);
      assert last in log;
      if last.timestamp < now - HISTORY_WINDOW {
        forall s | s in log
          ensures s.timestamp < now - HISTORY_WINDOW
        {
        }
        NothingInWindow(kind, log, now);
      } else {
        FilterIsSuffix(kind, front, now);
        assert log[Expired(front, now)..] == front[Expired(front, now)..] + [last];
      }
    }
  }

  lemma {:induction false} NothingInWindow(kind: Kind, log: seq<Sample>, now: int)
    requires forall s :: s in log ==> s.timestamp < now - HISTORY_WINDOW
    ensures Filter(log, InWindow(kind, now)) == []
  {
    if |log| > 0 {
      assert Last(log) in log;
      NothingInWindow(kind, log[..|log| - 1], now);
    }
  }

  // First retained position of a log.
  function RetainedFrom(log: seq<Sample>, now: int): nat {
    if |log| - MAX_SAMPLES > Expired(log, now) then |log| - MAX_SAMPLES else Expired(log, now)
  }

  lemma RetainedIsSuffix(kind: Kind, log: seq<Sample>, now: int)
    requires LogSound(kind, log, now)
    ensures RetainedFrom(log, now) <= |log| && Retained(kind, log, now) == log[RetainedFrom(log, now)..]
  {
    FilterIsSuffix(kind, log, now);
  }

  // Of a suffix, what is in the window is again a suffix.
  lemma SuffixInWindow(kind: Kind, log: seq<Sample>, m: nat, now: int)
    requires LogSound(kind, log, now) && m <= |log|
    ensures Expired(log, now) <= |log|
    ensures Filter(log[m..], InWindow(kind, now)) == log[if Expired(log, now) > m then Expired(log, now) else m..]
  {
    ExpiredSplits(log, now);
    SuffixSound(kind, log, m, now);
    FilterIsSuffix(kind, log[m..], now);
    ExpiredOfSuffix(log, m, now);
    SliceOfSlice(log, m, Expired(log[m..], now));
  }

  lemma SliceOfSlice(log: seq<Sample>, m: nat, k: nat)
    requires m + k <= |log|
    ensures log[m..][k..] == log[m + k..]
  {
  }

  // Pruning what was retained earlier gives what is retained now.
  lemma PruneRetained(kind: Kind, log: seq<Sample>, earlier: int, now: int)
    requires LogSound(kind, log, now) && LogSound(kind, log, earlier) && earlier <= now
    ensures RetainedFrom(log, now) <= |log|
    ensures Pruned(kind, Retained(kind, log, earlier), now) == log[RetainedFrom(log, now)..]
  {
    ExpiredGrows(log, earlier, now);
    RetainedIsSuffix(kind, log, earlier);
    var m := RetainedFrom(log, earlier);
    SuffixInWindow(kind, log, m, now);
    assert RetainedFrom(log, now) == if Expired(log, now) > m then Expired(log, now) else m;
  }

  lemma ExpiredGrows(log: seq<Sample>, earlier: int, now: int)
    requires Increasing(log) && earlier <= now
    ensures Expired(log, earlier) <= Expired(log, now) <= |log|
  {
    ExpiredSplits(log, earlier);
    ExpiredSplits(log, now);
  }

  lemma SuffixSound(kind: Kind, log: seq<Sample>, m: nat, now: int)
    requires LogSound(kind, log, now) && m <= |log|
    ensures LogSound(kind, log[m..], now)
  {
    assert forall s :: s in log[m..] ==> s in log;
  }

  lemma ExpiredOfSuffix(log: seq<Sample>, m: nat, now: int)
    requires Increasing(log) && m <= |log|
    ensures Expired(log[m..], now) == if Expired(log, now) > m then Expired(log, now) - m else 0
  {
    ExpiredSplits(log, now);
    var e := Expired(log, now);
    ExpiredUnique(log[m..], now, if e > m then e - m else 0);
  }

  lemma LoggedSound(kind: Kind, log: seq<Sample>, sample: Sample, now: int)
    requires LogSound(kind, log, now)
    ensures LogSound(kind, Logged(kind, log, sample, now), now)
  {
  }

  // Appending or replacing an in-window sample does not move the boundary.
  lemma ExpiredOfLogged(kind: Kind, log: seq<Sample>, sample: Sample, now: int)
    requires LogSound(kind, log, now)
    ensures Expired(Logged(kind, log, sample, now), now) == Expired(log, now)
  {
    ExpiredSplits(log, now);
    LoggedSound(kind, log, sample, now);
    ExpiredUnique(Logged(kind, log, sample, now), now, Expired(log, now));
  }

  // One update of the bounded history is one update of the log.
  lemma RetainedStep(kind: Kind, log: seq<Sample>, sample: Sample, earlier: int, now: int)
    requires LogSound(kind, log, earlier) && earlier <= now
    ensures Appended(kind, Retained(kind, log, earlier), sample, now)
      == Retained(kind, Logged(kind, log, sample, now), now)
  {
    assert LogSound(kind, log, now);
    PruneRetained(kind, log, earlier, now);
    AppendSuffix(kind, log, RetainedFrom(log, now), sample, now);
    LoggedSound(kind, log, sample, now);
    RetainedIsSuffix(kind, Logged(kind, log, sample, now), now);
    ExpiredOfLogged(kind, log, sample, now);
  }

  lemma AppendSuffix(kind: Kind, log: seq<Sample>, m: nat, sample: Sample, now: int)
    requires LogSound(kind, log, now) && m == RetainedFrom(log, now) <= |log|
    ensures var log' := Logged(kind, log, sample, now);
      |log| <= |log'| && m <= |log'|
        && AppendedTo(kind, log[m..], sample, now)
          == log'[if |log'| - m > MAX_SAMPLES then |log'| - MAX_SAMPLES else m..]
  {
    ExpiredSplits(log, now);
    var log' := Logged(kind, log, sample, now);
    if Accepts(kind, sample, now) {
      if m == |log| {
        assert |log| == 0 || Last(log).timestamp < now - HISTORY_WINDOW;
      } else {
        assert Last(log[m..]) == Last(log);
      }
      assert (log + [sample])[m..] == log[m..] + [sample];
    }
  }

  lemma {:induction false} RunLogSound(kind: Kind, events: seq<Event>)
    requires ClockNondecreasing(events) && |events| > 0
    ensures LogSound(kind, RunLog(kind, events), Last(events).now)
  {
    var front := events[..|events| - 1];
    if |front| > 0 {
      RunLogSound(kind, front);
      assert Last(front).now <= Last(events).now;
    }
    LoggedSound(kind, RunLog(kind, front), Last(events).sample, Last(events).now);
  }

  // For a clock that does not run backwards, the bounded in-place history is
  // exactly the newest 20 in-window entries of the unbounded log.
  lemma {:induction false} HistoryRefinesLog(kind: Kind, events: seq<Event>)
    requires ClockNondecreasing(events) && |events| > 0
    ensures RunHistory(kind, events) == Retained(kind, RunLog(kind, events), Last(events).now)
  {
    var front := events[..|events| - 1];
    var now := Last(events).now;
    if |front| > 0 {
      HistoryRefinesLog(kind, front);
      RunLogSound(kind, front);
      assert Last(front).now <= now;
      RetainedStep(kind, RunLog(kind, front), Last(events).sample, Last(front).now, now);
    } else {
      assert Retained(kind, [], now) == [];
      RetainedStep(kind, [], Last(events).sample, now, now);
    }
  }
}
