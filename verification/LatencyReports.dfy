/** The reports built with less careful loops: the relative-sleep fallback and the jitter benchmark, whose
    minima start from a sentinel, and the percentile taken from sorted samples. */
module LatencyReports {
  import opened Common
  import opened ClockTime
  import opened Periodic
  import opened Statistics

  // ------------------------------------------------------- relative-sleep fallback

  const FALLBACK_MIN: int := 999_999_999

  /** Differences of successive readings. */
  function Deltas(readings: seq<int>): (s: seq<int>)
    requires readings != []
    ensures |s| == |readings| - 1
  {
    if |readings| == 1 then [] else Deltas(Front(readings)) + [Last(readings) - Last(Front(readings))]
  }

  lemma {:induction false} DeltasAt(readings: seq<int>, k: nat)
    requires k + 1 < |readings|
    ensures Deltas(readings)[k] == readings[k + 1] - readings[k]
  {
    if k + 2 == |readings| {
    } else {
      DeltasAt(Front(readings), k);
    }
  }

  /** The deltas telescope: their sum is the last reading minus the first, whatever happened between. */
  lemma {:induction false} DeltasTelescope(readings: seq<int>)
    requires readings != []
    ensures Sum(Deltas(readings)) == Last(readings) - readings[0]
  {
    if |readings| == 1 {
    } else {
      DeltasTelescope(Front(readings));
      SumAppend(Deltas(Front(readings)), Last(readings) - Last(Front(readings)));
    }
  }

  function MinFrom(init: int, s: seq<int>): int
  {
    if s == [] then init else
      var m := MinFrom(init, Front(s)); if Last(s) < m then Last(s) else m
  }

  function MaxFrom(init: int, s: seq<int>): int
  {
    if s == [] then init else
      var m := MaxFrom(init, Front(s)); if Last(s) > m then Last(s) else m
  }

  lemma {:induction false} FromBounds(lo: int, hi: int, s: seq<int>)
    ensures MinFrom(lo, s) <= lo && (MinFrom(lo, s) == lo || MinFrom(lo, s) in s)
    ensures forall x :: x in s ==> MinFrom(lo, s) <= x
    ensures MaxFrom(hi, s) >= hi && (MaxFrom(hi, s) == hi || MaxFrom(hi, s) in s)
    ensures forall x :: x in s ==> x <= MaxFrom(hi, s)
  {
    if s == [] {
    } else {
      FromBounds(lo, hi, Front(s));
      assert s == Front(s) + [Last(s)];
    }
  }

  /** The reported extremes are those of the samples exactly when some sample is on the near side of
      each starting value. */
  lemma SentinelsHarmlessIff(s: seq<int>)
    ensures IsMin(s, MinFrom(FALLBACK_MIN, s)) <==> exists x :: x in s && x <= 999_999_999
    ensures IsMax(s, MaxFrom(0, s)) <==> exists x :: x in s && x >= 0
  {
    FromBounds(FALLBACK_MIN, 0, s);
  }

  function Instants(readings: seq<Timespec>): (ns: seq<int>)
    ensures |ns| == |readings| && forall k :: 0 <= k < |ns| ==> ns[k] == ToNs(readings[k])
  {
    if readings == [] then [] else Instants(readings[..|readings| - 1]) + [ToNs(readings[|readings| - 1])]
  }

  /** What the fallback loop has computed from a list of readings: minimum, maximum and sum. */
  function Report(ns: seq<int>): (int, int, int)
    requires ns != []
  {
    (MinFrom(FALLBACK_MIN, Deltas(ns)), MaxFrom(0, Deltas(ns)), Sum(Deltas(ns)))
  }

  lemma DeltasGrow(ns: seq<int>, i: nat)
    requires 1 <= i < |ns|
    ensures Deltas(ns[..i + 1]) == Deltas(ns[..i]) + [ns[i] - ns[i - 1]]
  {
    assert Front(ns[..i + 1]) == ns[..i];
  }

  lemma FoldsGrow(s: seq<int>, x: int)
    ensures MinFrom(FALLBACK_MIN, s + [x]) == (if x < MinFrom(FALLBACK_MIN, s) then x else MinFrom(FALLBACK_MIN, s))
    ensures MaxFrom(0, s + [x]) == (if x > MaxFrom(0, s) then x else MaxFrom(0, s))
  {
    assert Front(s + [x]) == s;
  }

  /** One more reading adds one delta to each of the three results. */
  lemma ReportStep(readings: seq<Timespec>, i: nat)
    requires 1 <= i < |readings|
    ensures var ns, delta := Instants(readings), Diff(readings[i - 1], readings[i]);
      var (min, max, sum) := Report(ns[..i]);
      Report(ns[..i + 1]) == (if delta < min then delta else min, if delta > max then delta else max, sum + delta)
  {
    hide Diff, ToNs, Deltas, MinFrom, MaxFrom, Sum, Instants;
    var ns := Instants(readings);
    DiffIsElapsed(readings[i - 1], readings[i], readings[i]);
    DeltasGrow(ns, i);
    FoldsGrow(Deltas(ns[..i]), ns[i] - ns[i - 1]);
    SumAppend(Deltas(ns[..i]), ns[i] - ns[i - 1]);
  }

  lemma ReportStart(ns: seq<int>)
    requires ns != []
    ensures Report(ns[..1]) == (FALLBACK_MIN, 0, 0)
  {
  }

  /** The fallback loop of calctime2 over the clock readings it gets. */
  method FallbackStats(readings: seq<Timespec>) returns (min: int, max: int, sum: int)
    requires readings != []
    ensures (min, max, sum) == Report(Instants(readings))
    ensures sum == ToNs(Last(readings)) - ToNs(readings[0])
  {
    hide Report, Instants, Diff, ToNs;
    min, max, sum := FALLBACK_MIN, 0, 0;
    var prev := readings[0];
    ReportStart(Instants(readings));
    for i := 1 to |readings|
      invariant prev == readings[i - 1]
      invariant (min, max, sum) == Report(Instants(readings)[..i])
    {
      var now := readings[i];
      ReportStep(readings, i);
      var delta := Diff(prev, now);
      if delta < min {
        min := delta;
      }
      if delta > max {
        max := delta;
      }
      sum := sum + delta;
      prev := now;
    }
    assert Instants(readings)[..|readings|] == Instants(readings);
    ReportTelescopes(readings);
  }

  lemma ReportTelescopes(readings: seq<Timespec>)
    requires readings != []
    ensures Report(Instants(readings)).2 == ToNs(Last(readings)) - ToNs(readings[0])
  {
    DeltasTelescope(Instants(readings));
  }

  /** The readings of n relative sleeps. */
  function RelativeReadings(e: Env, n: nat): (r: seq<int>)
    requires Covers(e, n)
    ensures |r| == n + 1 && r[0] == e.start
    ensures forall k :: 0 <= k < n ==> r[k + 1] == RelativeWake(e, k)
  {
    if n == 0 then [e.start] else RelativeReadings(e, n - 1) + [RelativeWake(e, n - 1)]
  }

  /** In a run of relative sleeps the deltas add up to the intended time plus all the work and delay
      there was, so the average reported hides nothing of the drift; and the maximum is a true one. */
  lemma FallbackMeasuresDrift(e: Env, n: nat)
    requires Covers(e, n) && n > 0
    ensures Sum(Deltas(RelativeReadings(e, n))) == n * e.period + Cost(e, n - 1)
    ensures IsMax(Deltas(RelativeReadings(e, n)), MaxFrom(0, Deltas(RelativeReadings(e, n))))
  {
    hide Deltas, Sum, MinFrom, MaxFrom, Cost, RelativeReadings, RelativeWake, IsMax, IsMin, Deadline;
    var r := RelativeReadings(e, n);
    DeltasTelescope(r);
    RelativeDrifts(e, n - 1);
    LastDeadline(e, n);
    SentinelsHarmlessIff(Deltas(r));
    FirstSleepTakesTime(e);
    DeltasAt(r, 0);
    assert Deltas(r)[0] in Deltas(r);
  }

  lemma LastDeadline(e: Env, n: nat)
    requires n > 0
    ensures Deadline(e, n - 1) == e.start + n * e.period
  {
  }

  lemma FirstSleepTakesTime(e: Env)
    requires Covers(e, 1)
    ensures RelativeWake(e, 0) >= e.start
  {
  }

  /** The failing cases exist for every number of samples: when each round takes a second the reported
      minimum is that of no sample, and when the real-time clock, which the fallback reads, is set back in
      each round the reported maximum is. */
  lemma FallbackExtremesCanBeWrong(n: nat) returns (slow: seq<int>, back: seq<int>)
    requires n >= 1
    ensures |slow| == |back| == n + 1
    ensures forall k :: 0 <= k < n ==> slow[k] <= slow[k + 1]
    ensures !IsMin(Deltas(slow), Report(slow).0) && Report(slow).0 == FALLBACK_MIN
    ensures !IsMax(Deltas(back), Report(back).1) && Report(back).1 == 0
  {
    hide Deltas;
    slow, back := seq(n + 1, k => k * 1_000_000_000), seq(n + 1, k => -k);
    forall k | 0 <= k < n
      ensures Deltas(slow)[k] == 1_000_000_000 && Deltas(back)[k] == -1
    {
      DeltasAt(slow, k);
      DeltasAt(back, k);
    }
    SentinelsHarmlessIff(Deltas(slow));
    SentinelsHarmlessIff(Deltas(back));
    FromBounds(FALLBACK_MIN, 0, Deltas(slow));
    FromBounds(FALLBACK_MIN, 0, Deltas(back));
  }

  // ------------------------------------------------------------- jitter benchmark

  /** The running minimum of the benchmark, which takes -1 to mean that there is none yet. */
  function SentinelMin(s: seq<int>): int
  {
    if s == [] then -1
    else
      var m := SentinelMin(Front(s));
      if m == -1 || Last(s) < m then Last(s) else m
  }

  lemma {:induction false} SentinelCases(s: seq<int>)
    requires s != []
    ensures (forall x :: x in s ==> x >= -1) ==> SentinelMin(s) >= -1
    ensures (exists x :: x in s && x < -1) || (forall x :: x in s ==> x >= 0) ==> IsMin(s, SentinelMin(s))
    ensures (forall x :: x in s ==> x >= -1) && -1 in s ==> (SentinelMin(s) == -1 <==> Last(s) == -1)
  {
    assert s == Front(s) + [Last(s)];
    assert Last(s) in s && forall x :: x in Front(s) ==> x in s;
    if Front(s) == [] {
    } else {
      SentinelCases(Front(s));
    }
  }

  /** The sentinel is safe wherever it could matter: the minimum found is the true one unless the smallest
      sample is -1 and is not the last one, which no clock that does not run backwards can measure. */
  lemma SentinelMinExactIff(s: seq<int>)
    requires s != []
    ensures IsMin(s, SentinelMin(s)) <==> !IsMin(s, -1) || Last(s) == -1
    ensures (forall x :: x in s ==> x >= 0) ==> IsMin(s, SentinelMin(s))
  {
    SentinelCases(s);
  }

  /** With a clock that does not run backwards, as the benchmark's, both extremes are right. */
  lemma MonotonicExtremes(s: seq<int>)
    requires s != []
    ensures (forall x :: x in s ==> x >= 0) ==> IsMin(s, SentinelMin(s)) && IsMax(s, MaxFrom(0, s))
  {
    SentinelMinExactIff(s);
    FromBounds(0, 0, s);
    assert s[0] in s;
  }

  /** The measuring loop of the jitter benchmark over the clock readings around each run. */
  method JitterBenchmark(starts: seq<Timespec>, ends: seq<Timespec>, latencies: array<int>)
      returns (minLatency: int, maxLatency: int, totalLatency: int)
    requires |starts| == |ends| == latencies.Length
    modifies latencies
    ensures forall i :: 0 <= i < latencies.Length ==> latencies[i] == ToNs(ends[i]) - ToNs(starts[i])
    ensures minLatency == SentinelMin(latencies[..])
    ensures maxLatency == MaxFrom(0, latencies[..])
    ensures totalLatency == Sum(latencies[..])
    ensures latencies.Length > 0 && (forall i :: 0 <= i < |starts| ==> ToNs(starts[i]) <= ToNs(ends[i])) ==>
      IsMin(latencies[..], minLatency) && IsMax(latencies[..], maxLatency)
  {
    minLatency, maxLatency, totalLatency := -1, 0, 0;
    for i := 0 to latencies.Length
      invariant forall j :: 0 <= j < i ==> latencies[j] == ToNs(ends[j]) - ToNs(starts[j])
      invariant minLatency == SentinelMin(latencies[..i])
      invariant maxLatency == MaxFrom(0, latencies[..i])
      invariant totalLatency == Sum(latencies[..i])
    {
      ghost var before := latencies[..i];
      latencies[i] := Diff(starts[i], ends[i]);
      assert latencies[..i] == before;
      assert Front(latencies[..i + 1]) == latencies[..i];
      if minLatency == -1 || latencies[i] < minLatency {
        minLatency := latencies[i];
      }
      if latencies[i] > maxLatency {
        maxLatency := latencies[i];
      }
      totalLatency := totalLatency + latencies[i];
    }
    assert latencies[..] == latencies[..latencies.Length];
    if latencies.Length > 0 {
      MonotonicExtremes(latencies[..]);
    }
  }

  // ------------------------------------------------------------------ percentile

  /** compare_i64. */
  function Compare(a: int, b: int): int { if a < b then -1 else if a > b then 1 else 0 }

  /** The comparison is the order of the integers: consistent in both directions, zero only on equality,
      and transitive, as sorting requires. */
  lemma CompareIsOrder(a: int, b: int, c: int)
    ensures Compare(a, b) == -Compare(b, a)
    ensures Compare(a, b) == 0 <==> a == b
    ensures Compare(a, b) <= 0 && Compare(b, c) <= 0 ==> Compare(a, c) <= 0
    ensures Compare(a, b) <= 0 <==> a <= b
  {
  }

  predicate SortedByCompare(s: seq<int>)
  {
    forall i, j :: 0 <= i < j < |s| ==> Compare(s[i], s[j]) <= 0
  }

  lemma {:induction false} CountRemove(s: seq<int>, i: nat, p: int -> bool)
    requires i < |s|
    ensures Count(s, p) == Count(s[..i] + s[i + 1..], p) + (if p(s[i]) then 1 else 0)
  {
    CountAppend(s[..i], s[i + 1..], p);
    assert s == s[..i] + s[i..] && s[i..][1..] == s[i + 1..];
    CountAppend(s[..i], s[i..], p);
  }

  lemma MultisetRemove(s: seq<int>, i: nat)
    requires i < |s|
    ensures multiset(s[..i] + s[i + 1..]) == multiset(s) - multiset{s[i]}
  {
    assert s == s[..i] + [s[i]] + s[i + 1..];
  }

  function Without(t: seq<int>, i: nat): seq<int>
    requires i < |t|
  {
    t[..i] + t[i + 1..]
  }

  /** Two permutations stay permutations when a common element is taken out of both. */
  lemma MatchFirst(s: seq<int>, t: seq<int>) returns (i: nat)
    requires s != [] && multiset(s) == multiset(t)
    ensures i < |t| && t[i] == s[0]
    ensures multiset(s[1..]) == multiset(Without(t, i)) && |Without(t, i)| == |t| - 1
  {
    assert s[0] in multiset(t);
    i :| 0 <= i < |t| && t[i] == s[0];
    assert multiset(s[1..]) == multiset(s) - multiset{s[0]} by {
      assert s == [s[0]] + s[1..];
    }
    MultisetRemove(t, i);
  }

  lemma EmptyPermutation(t: seq<int>)
    requires multiset([]) == multiset(t)
    ensures t == []
  {
    assert |multiset(t)| == |t|;
  }

  /** Counting does not depend on the order. */
  lemma {:induction false} CountPermutation(s: seq<int>, t: seq<int>, p: int -> bool)
    requires multiset(s) == multiset(t)
    ensures |s| == |t| && Count(s, p) == Count(t, p)
    decreases |s|
  {
    if s == [] {
      EmptyPermutation(t);
    } else {
      var i := MatchFirst(s, t);
      CountPermutation(s[1..], Without(t, i), p);
      CountRemove(t, i, p);
    }
  }

  lemma {:induction false} SumConcat(s: seq<int>, t: seq<int>)
    ensures Sum(s + t) == Sum(s) + Sum(t)
    decreases |t|
  {
    if t == [] {
      assert s + t == s;
    } else {
      assert s + t == (s + Front(t)) + [Last(t)];
      SumAppend(s + Front(t), Last(t));
      SumConcat(s, Front(t));
    }
  }

  lemma SumRemove(t: seq<int>, i: nat)
    requires i < |t|
    ensures Sum(t) == Sum(t[..i] + t[i + 1..]) + t[i]
  {
    hide Sum;
    SumConcat(t[..i], t[i + 1..]);
    SumConcat(t[..i] + [t[i]], t[i + 1..]);
    SumAppend(t[..i], t[i]);
    assert t == (t[..i] + [t[i]]) + t[i + 1..];
  }

  /** Neither does the sum. */
  lemma {:induction false} SumPermutation(s: seq<int>, t: seq<int>)
    requires multiset(s) == multiset(t)
    ensures Sum(s) == Sum(t)
    decreases |s|
  {
    if s == [] {
      EmptyPermutation(t);
    } else {
      hide Sum;
      var i := MatchFirst(s, t);
      SumPermutation(s[1..], Without(t, i));
      SumRemove(s, 0);
      assert s[..0] + s[1..] == s[1..];
      SumRemove(t, i);
    }
  }

  lemma {:induction false} CountAll(s: seq<int>, p: int -> bool)
    requires forall i :: 0 <= i < |s| ==> p(s[i])
    ensures Count(s, p) == |s|
  {
    if s == [] {
    } else {
      CountAll(s[1..], p);
    }
  }

  /** The element at rank k of the sorted samples is an order statistic of the samples as they came. */
  lemma RankIsOrderStatistic(samples: seq<int>, sorted: seq<int>, k: nat)
    requires multiset(samples) == multiset(sorted) && SortedByCompare(sorted) && k < |sorted|
    ensures |samples| == |sorted|
    ensures Count(samples, x => x <= sorted[k]) >= k + 1
    ensures Count(samples, x => x >= sorted[k]) >= |samples| - k
  {
    var v := sorted[k];
    var le, ge := (x: int) => x <= v, (x: int) => x >= v;
    CountPermutation(samples, sorted, le);
    CountPermutation(samples, sorted, ge);
    assert sorted == sorted[..k + 1] + sorted[k + 1..] && sorted == sorted[..k] + sorted[k..];
    CountAppend(sorted[..k + 1], sorted[k + 1..], le);
    CountAppend(sorted[..k], sorted[k..], ge);
    var lower, upper := sorted[..k + 1], sorted[k..];
    forall i | 0 <= i < |lower|
      ensures le(lower[i])
    {
      CompareIsOrder(sorted[i], v, v);
    }
    forall i | 0 <= i < |upper|
      ensures ge(upper[i])
    {
      CompareIsOrder(v, sorted[k + i], v);
    }
    CountAll(lower, le);
    CountAll(upper, ge);
  }

  function Rank99(n: nat): nat { n * 99 / 100 }

  /** The reported 99th percentile: more than 99% of the samples, rounded down, are no larger, and at
      least the rest are no smaller, for any number of samples. */
  lemma PercentileIsOrderStatistic(samples: seq<int>, sorted: seq<int>)
    requires multiset(samples) == multiset(sorted) && SortedByCompare(sorted) && sorted != []
    ensures |samples| == |sorted| && Rank99(|sorted|) < |sorted|
    ensures var n, p99 := |samples|, sorted[Rank99(|sorted|)];
      && 100 * Count(samples, x => x <= p99) > 99 * n
      && 100 * Count(samples, x => x >= p99) >= n
    ensures var p99 := sorted[Rank99(|sorted|)];
      && Count(samples, x => x <= p99) >= Rank99(|samples|) + 1
      && Count(samples, x => x >= p99) >= |samples| - Rank99(|samples|)
  {
    RankIsOrderStatistic(samples, sorted, Rank99(|sorted|));
  }

  method Swap(a: array<int>, i: nat)
    requires i + 1 < a.Length
    modifies a
    ensures a[..] == old(a[..])[i := old(a[i + 1])][i + 1 := old(a[i])]
    ensures multiset(a[..]) == multiset(old(a[..]))
  {
    a[i], a[i + 1] := a[i + 1], a[i];
  }

  predicate Ascending(s: seq<int>)
  {
    forall i, j :: 0 <= i < j < |s| ==> s[i] <= s[j]
  }

  /** Bring the element at n down to its place among the sorted ones before it. */
  method SinkInto(a: array<int>, n: nat)
    requires n < a.Length && Ascending(a[..n])
    modifies a
    ensures Ascending(a[..n + 1]) && multiset(a[..]) == multiset(old(a[..]))
  {
    var i := n;
    while i > 0 && Compare(a[i - 1], a[i]) > 0
      invariant 0 <= i <= n
      invariant forall x, y :: 0 <= x < y <= n && y != i ==> a[x] <= a[y]
      invariant multiset(a[..]) == multiset(old(a[..]))
    {
      i := i - 1;
      Swap(a, i);
    }
  }

  /** Stand-in for qsort: what the program relies on is sortedness under the comparison and that the
      samples stay the same. */
  method SortSamples(a: array<int>)
    modifies a
    ensures SortedByCompare(a[..]) && multiset(a[..]) == multiset(old(a[..]))
  {
    for n := 0 to a.Length
      invariant Ascending(a[..n]) && multiset(a[..]) == multiset(old(a[..]))
    {
      SinkInto(a, n);
    }
    assert a[..] == a[..a.Length];
  }

  /** The report of sched_fifo_jitter on the samples it took. */
  method ReportJitter(deltas: array<int>) returns (min: int, max: int, p99: int, sum: int)
    requires deltas.Length > 0
    modifies deltas
    ensures IsMin(old(deltas[..]), min) && IsMax(old(deltas[..]), max)
    ensures sum == Sum(old(deltas[..]))
    ensures Count(old(deltas[..]), x => x <= p99) >= Rank99(deltas.Length) + 1
    ensures Count(old(deltas[..]), x => x >= p99) >= deltas.Length - Rank99(deltas.Length)
    ensures 100 * Count(old(deltas[..]), x => x <= p99) > 99 * deltas.Length
    ensures 100 * Count(old(deltas[..]), x => x >= p99) >= deltas.Length
  {
    ghost var samples := deltas[..];
    SortSamples(deltas);
    ghost var sorted := deltas[..];
    min, max, p99 := deltas[0], deltas[deltas.Length - 1], deltas[deltas.Length * 99 / 100];
    sum := 0;
    for i := 0 to deltas.Length
      invariant deltas[..] == sorted
      invariant sum == Sum(sorted[..i])
    {
      SumAppend(sorted[..i], sorted[i]);
      assert sorted[..i + 1] == sorted[..i] + [sorted[i]];
      sum := sum + deltas[i];
    }
    assert sorted[..deltas.Length] == sorted;
    SumPermutation(samples, sorted);
    PercentileIsOrderStatistic(samples, sorted);
    EndsAreExtremes(samples, sorted);
  }

  lemma EndsAreExtremes(samples: seq<int>, sorted: seq<int>)
    requires multiset(samples) == multiset(sorted) && SortedByCompare(sorted) && sorted != []
    ensures IsMin(samples, sorted[0]) && IsMax(samples, sorted[|sorted| - 1])
  {
    forall x
      ensures x in samples <==> x in sorted
    {
      assert x in multiset(samples) <==> x in multiset(sorted);
    }
    forall x | x in samples
      ensures sorted[0] <= x <= sorted[|sorted| - 1]
    {
      var i :| 0 <= i < |sorted| && sorted[i] == x;
    }
  }
}
