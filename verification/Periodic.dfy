/** Periodic loops against an adversarial environment.

    In iteration k the program needs work[k] nanoseconds before it asks to sleep, and the system wakes
    it delay[k] nanoseconds after the moment it asked for; both are arbitrary. One loop sleeps until an
    absolute deadline that it advances by the period, the other sleeps for one period. */
module Periodic {
  import opened ClockTime

  /** An environment: what each iteration costs. */
  datatype Env = Env(start: int, period: nat, work: seq<nat>, delay: seq<nat>)

  predicate Covers(e: Env, n: nat) { n <= |e.work| && n <= |e.delay| }

  function Max(a: int, b: int): int { if a < b then b else a }

  /** When the k-th iteration was meant to start: the schedule has no memory of delays. */
  function Deadline(e: Env, k: nat): int { e.start + (k + 1) * e.period }

  lemma DeadlineStep(e: Env, k: nat)
    ensures Deadline(e, k + 1) == Deadline(e, k) + e.period
    ensures Deadline(e, 0) == e.start + e.period
  {
  }

  /** clock_nanosleep with an absolute time: at once if it has passed. */
  function SleepUntil(now: int, target: int, delay: nat): int { Max(now, target) + delay }

  /** When iteration k of the absolute loop wakes; iteration 0 works from the start time. */
  function Wake(e: Env, k: nat): int
    requires Covers(e, k + 1)
  {
    SleepUntil((if k == 0 then e.start else Wake(e, k - 1)) + e.work[k], Deadline(e, k), e.delay[k])
  }

  function Lateness(e: Env, k: nat): int
    requires Covers(e, k + 1)
  {
    Wake(e, k) - Deadline(e, k)
  }

  /** The delay of the wakeup before iteration k's work; there is none before the first. */
  function PreviousDelay(e: Env, k: nat): nat
    requires Covers(e, k + 1)
  {
    if k == 0 then 0 else e.delay[k - 1]
  }

  /** By how much delay and work between two deadlines exceed the period. */
  function Excess(e: Env, k: nat): int
    requires Covers(e, k + 1)
  {
    PreviousDelay(e, k) + e.work[k] - e.period
  }

  /** The part of the lateness of iteration k that is not its own wakeup delay. */
  function Backlog(e: Env, k: nat): int
    requires Covers(e, k + 1)
  {
    Lateness(e, k) - e.delay[k]
  }

  /** Lateness obeys a queueing recurrence: what is carried over grows by the excess and never below zero. */
  lemma BacklogStep(e: Env, k: nat)
    requires Covers(e, k + 1)
    ensures Backlog(e, k) == Max(0, (if k == 0 then 0 else Backlog(e, k - 1)) + Excess(e, k))
  {
    if k > 0 {
      DeadlineStep(e, k - 1);
    }
  }

  /** Total excess of iterations from to k. */
  function ExcessSum(e: Env, from: nat, k: nat): int
    requires from <= k && Covers(e, k + 1)
    decreases k
  {
    (if from == k then 0 else ExcessSum(e, from, k - 1)) + Excess(e, k)
  }

  /** The backlog is at least the total excess over any stretch that ends now. */
  lemma {:induction false} BacklogAtLeast(e: Env, from: nat, k: nat)
    requires from <= k && Covers(e, k + 1)
    ensures Backlog(e, k) >= 0 && Backlog(e, k) >= ExcessSum(e, from, k)
    decreases k
  {
    BacklogStep(e, k);
    if from < k {
      BacklogAtLeast(e, from, k - 1);
    } else if k > 0 {
      BacklogAtLeast(e, k - 1, k - 1);
    }
  }

  /** And it is one of these totals, or nothing: lateness is exactly the worst recent overload. */
  lemma {:induction false} BacklogAttained(e: Env, k: nat) returns (from: nat)
    requires Covers(e, k + 1)
    ensures from <= k && (Backlog(e, k) == 0 || Backlog(e, k) == ExcessSum(e, from, k))
    decreases k
  {
    BacklogStep(e, k);
    from := k;
    if k == 0 || Backlog(e, k - 1) == 0 {
    } else {
      from := BacklogAttained(e, k - 1);
    }
  }

  predicate FitsUpTo(e: Env, k: nat)
    requires Covers(e, k + 1)
  {
    forall i :: 0 <= i <= k ==> Excess(e, i) <= 0
  }

  /** No lateness is carried over in any of the first iterations if and only if in each of them the
      previous wakeup delay and the work together fit into the period. */
  lemma {:induction false} NoCarryOverIff(e: Env, k: nat)
    requires Covers(e, k + 1)
    ensures (forall i :: 0 <= i <= k ==> Lateness(e, i) == e.delay[i]) <==> FitsUpTo(e, k)
    decreases k
  {
    BacklogStep(e, k);
    if k == 0 {
    } else {
      NoCarryOverIff(e, k - 1);
      assert FitsUpTo(e, k) <==> FitsUpTo(e, k - 1) && Excess(e, k) <= 0;
      assert (forall i :: 0 <= i <= k ==> Lateness(e, i) == e.delay[i]) <==>
        (forall i :: 0 <= i <= k - 1 ==> Lateness(e, i) == e.delay[i]) && Lateness(e, k) == e.delay[k];
      if FitsUpTo(e, k - 1) {
        assert Lateness(e, k - 1) == e.delay[k - 1];
      }
    }
  }

  /** After an overrun the backlog shrinks by the slack in every iteration until it is gone. */
  lemma {:induction false} BacklogRecovers(e: Env, k: nat, n: nat, slack: nat)
    requires Covers(e, k + n + 1)
    requires forall i :: k < i <= k + n ==> Excess(e, i) + slack <= 0
    ensures Backlog(e, k + n) <= Max(0, Backlog(e, k) - n * slack)
    decreases n
  {
    if n == 0 {
      BacklogAtLeast(e, k, k);
    } else {
      BacklogRecovers(e, k, n - 1, slack);
      BacklogStep(e, k + n);
      assert n * slack == (n - 1) * slack + slack;
      assert Excess(e, k + n) + slack <= 0;
    }
  }

  // --------------------------------------------------------- relative sleeping

  /** When iteration k of the relative loop wakes. */
  function RelativeWake(e: Env, k: nat): int
    requires Covers(e, k + 1)
  {
    (if k == 0 then e.start else RelativeWake(e, k - 1)) + e.work[k] + e.period + e.delay[k]
  }

  /** All work and delay up to iteration k. */
  function Cost(e: Env, k: nat): nat
    requires Covers(e, k + 1)
  {
    (if k == 0 then 0 else Cost(e, k - 1)) + e.work[k] + e.delay[k]
  }

  /** The relative loop drifts: its error is the sum of everything that ever went by. */
  lemma {:induction false} RelativeDrifts(e: Env, k: nat)
    requires Covers(e, k + 1)
    ensures RelativeWake(e, k) - Deadline(e, k) == Cost(e, k)
  {
    if k == 0 {
    } else {
      RelativeDrifts(e, k - 1);
      DeadlineStep(e, k - 1);
    }
  }

  /** In the same environment the absolute loop is never behind the relative one, nor before time. */
  lemma {:induction false} AbsoluteNeverLater(e: Env, k: nat)
    requires Covers(e, k + 1)
    ensures e.delay[k] <= Lateness(e, k) <= Cost(e, k)
    ensures Deadline(e, k) <= Wake(e, k) <= RelativeWake(e, k)
  {
    RelativeDrifts(e, k);
    BacklogStep(e, k);
    if k == 0 {
    } else {
      AbsoluteNeverLater(e, k - 1);
    }
  }

  // ------------------------------------------------------------------ programs

  /** The jitter samples of n iterations: each wakeup against its own deadline. */
  function JitterSamples(e: Env, n: nat): (s: seq<int>)
    requires Covers(e, n)
    ensures |s| == n && forall k :: 0 <= k < n ==> s[k] == Lateness(e, k)
  {
    if n == 0 then [] else JitterSamples(e, n - 1) + [Lateness(e, n - 1)]
  }

  /** The period samples: each wakeup against the previous scheduled deadline. */
  function PeriodSamples(e: Env, n: nat): (s: seq<int>)
    requires Covers(e, n)
    ensures |s| == n && forall k :: 0 <= k < n ==> s[k] == e.period + Lateness(e, k)
  {
    if n == 0 then [] else PeriodSamples(e, n - 1) + [e.period + Lateness(e, n - 1)]
  }

  /** The sampling loop of calctime2 under an environment. Each delta is the reading minus the previous
      scheduled deadline, so it is the period plus the lateness. */
  method SampleAbsolute(e: Env, deltas: array<int>)
    requires Covers(e, deltas.Length)
    modifies deltas
    ensures deltas[..] == PeriodSamples(e, deltas.Length)
    ensures forall k :: 0 <= k < deltas.Length ==> deltas[k] == Wake(e, k) - (e.start + k * e.period)
  {
    hide PeriodSamples;
    var now := e.start;
    var nextNs := e.start + e.period;
    var target := new TimespecCell();
    for k := 0 to deltas.Length
      invariant nextNs == Deadline(e, k)
      invariant now == if k == 0 then e.start else Wake(e, k - 1)
      invariant forall j :: 0 <= j < k ==> deltas[j] == e.period + Lateness(e, j)
    {
      target.SetNs(nextNs);
      NsRoundTrip(nextNs);
      var wanted := ToNs(Timespec(target.sec, target.nsec));
      now := SleepUntil(now + e.work[k], wanted, e.delay[k]);
      deltas[k] := now - (nextNs - e.period);
      DeadlineStep(e, k);
      nextNs := nextNs + e.period;
    }
  }

  /** The sampling loop of sched_fifo_jitter: the same sleep, but each delta is the lateness itself. */
  method SampleJitter(e: Env, deltas: array<int>)
    requires Covers(e, deltas.Length)
    modifies deltas
    ensures deltas[..] == JitterSamples(e, deltas.Length)
    ensures forall k :: 0 <= k < deltas.Length ==> deltas[k] == Wake(e, k) - (e.start + (k + 1) * e.period)
  {
    hide JitterSamples;
    var now := e.start;
    var nextNs := e.start + e.period;
    var target := new TimespecCell();
    for k := 0 to deltas.Length
      invariant nextNs == Deadline(e, k)
      invariant now == if k == 0 then e.start else Wake(e, k - 1)
      invariant forall j :: 0 <= j < k ==> deltas[j] == Lateness(e, j)
    {
      target.SetNs(nextNs);
      NsRoundTrip(nextNs);
      var wanted := ToNs(Timespec(target.sec, target.nsec));
      now := SleepUntil(now + e.work[k], wanted, e.delay[k]);
      deltas[k] := now - nextNs;
      DeadlineStep(e, k);
      nextNs := nextNs + e.period;
    }
  }
}
