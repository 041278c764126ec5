/** A mutex with one condition variable, as the two condition-variable programs use them.
    Waiting releases the mutex and joins the wait set in one step; a woken thread has to take the mutex
    again before it re-checks its guard; a sleeper may also wake for no reason at all. */
module Monitors {
  import opened Common

  datatype Pc =
    | Lock      // about to lock the mutex
    | Check     // holds it, about to test the guard
    | Asleep    // in the wait set
    | Relock    // woken, about to take the mutex again
    | Act       // guard found open
    | Publish   // about to store the new state
    | Notify    // about to signal or broadcast
    | Unlock
    | After     // outside, before the next round

  datatype Monitor = Monitor(owner: Option<nat>, pc: seq<Pc>)

  predicate Holding(pc: Pc) { pc in {Check, Act, Publish, Notify, Unlock} }

  /** Exactly the owner is between taking the mutex and giving it up. */
  predicate Exclusive(m: Monitor)
  {
    && (m.owner.Some? ==> m.owner.value < |m.pc|)
    && (forall t :: 0 <= t < |m.pc| ==> (Holding(m.pc[t]) <==> m.owner == Some(t)))
  }

  /** A thread can take its next step unless it sleeps or waits for the mutex. */
  predicate Ready(m: Monitor, t: nat)
  {
    && t < |m.pc|
    && m.pc[t] != Asleep
    && (m.pc[t] in {Lock, Relock} ==> m.owner == None)
  }

  function Move(m: Monitor, t: nat, to: Pc): Monitor
    requires t < |m.pc|
  {
    m.(pc := m.pc[t := to])
  }

  function Acquire(m: Monitor, t: nat): Monitor
    requires t < |m.pc|
  {
    Monitor(Some(t), m.pc[t := Check])
  }

  /** pthread_cond_wait: give the mutex up and fall asleep, atomically. */
  function Sleep(m: Monitor, t: nat): Monitor
    requires t < |m.pc|
  {
    Monitor(None, m.pc[t := Asleep])
  }

  function Release(m: Monitor, t: nat): Monitor
    requires t < |m.pc|
  {
    Monitor(None, m.pc[t := After])
  }

  function Wake(pc: Pc): Pc { if pc == Asleep then Relock else pc }

  /** pthread_cond_broadcast by t: every sleeper has to compete for the mutex. */
  function Broadcast(m: Monitor, t: nat): Monitor
    requires t < |m.pc|
  {
    m.(pc := seq(|m.pc|, i requires 0 <= i < |m.pc| => if i == t then Unlock else Wake(m.pc[i])))
  }

  /** pthread_cond_signal by t, waking the threads in woken. */
  function Signal(m: Monitor, t: nat, woken: set<nat>): Monitor
    requires t < |m.pc|
  {
    m.(pc := seq(|m.pc|, i requires 0 <= i < |m.pc| =>
        if i == t then Unlock else if i in woken then Wake(m.pc[i]) else m.pc[i]))
  }

  /** The signal wakes sleepers only, and at least one if there is any. */
  predicate CanSignal(m: Monitor, t: nat, woken: set<nat>)
  {
    && t < |m.pc| && m.pc[t] == Notify
    && (forall i :: i in woken ==> i < |m.pc| && m.pc[i] == Asleep)
    && ((exists i :: 0 <= i < |m.pc| && m.pc[i] == Asleep) ==> woken != {})
  }

  function Spurious(m: Monitor, t: nat): Monitor
    requires t < |m.pc|
  {
    m.(pc := m.pc[t := Relock])
  }

  lemma AcquireExclusive(m: Monitor, t: nat)
    requires Exclusive(m) && t < |m.pc| && m.pc[t] in {Lock, Relock} && m.owner == None
    ensures Exclusive(Acquire(m, t))
  {
  }

  lemma GiveUpExclusive(m: Monitor, t: nat)
    requires Exclusive(m) && t < |m.pc| && Holding(m.pc[t])
    ensures Exclusive(Sleep(m, t)) && Exclusive(Release(m, t))
  {
  }

  lemma MoveExclusive(m: Monitor, t: nat, to: Pc)
    requires Exclusive(m) && t < |m.pc| && (Holding(m.pc[t]) <==> Holding(to))
    ensures Exclusive(Move(m, t, to))
  {
  }

  lemma NotifyExclusive(m: Monitor, t: nat, woken: set<nat>)
    requires Exclusive(m) && t < |m.pc| && m.pc[t] == Notify
    ensures Exclusive(Broadcast(m, t)) && Exclusive(Signal(m, t, woken))
  {
  }

  // --------------------------------------------------------------- progress

  /** How many more steps a thread can take by itself before it sleeps again; a thread about to
      notify also answers for the sleepers it may set going, each good for two steps. */
  function Rank(pc: Pc, n: nat): nat
  {
    match pc
    case Asleep => 0
    case Check => 1
    case Lock => 2
    case Relock => 2
    case After => 3
    case Unlock => 4
    case Notify => 5 + 2 * n
    case Publish => 6 + 2 * n
    case Act => 7 + 2 * n
  }

  function TotalRank(pc: seq<Pc>, n: nat): nat
  {
    if pc == [] then 0 else Rank(pc[0], n) + TotalRank(pc[1..], n)
  }

  lemma {:induction false} RankUpdate(pc: seq<Pc>, n: nat, t: nat, to: Pc)
    requires t < |pc|
    ensures TotalRank(pc[t := to], n) == TotalRank(pc, n) - Rank(pc[t], n) + Rank(to, n)
  {
    if t == 0 {
      assert pc[0 := to][1..] == pc[1..];
    } else {
      assert pc[t := to][1..] == pc[1..][t - 1 := to];
      RankUpdate(pc[1..], n, t - 1, to);
    }
  }

  /** Waking some of the sleepers adds two to each of them at most. */
  lemma {:induction false} RankWaking(pc: seq<Pc>, qc: seq<Pc>, n: nat)
    requires |qc| == |pc| && forall i :: 0 <= i < |pc| ==> qc[i] == pc[i] || qc[i] == Wake(pc[i])
    ensures TotalRank(qc, n) <= TotalRank(pc, n) + 2 * |pc|
  {
    if pc == [] {
    } else {
      RankWaking(pc[1..], qc[1..], n);
    }
  }

  /** Notifying pays for everyone it wakes. */
  lemma NotifyRank(m: Monitor, t: nat, q: seq<Pc>)
    requires t < |m.pc| && m.pc[t] == Notify
    requires |q| == |m.pc| && q[t] == Unlock
    requires forall i :: 0 <= i < |q| && i != t ==> q[i] == m.pc[i] || q[i] == Wake(m.pc[i])
    ensures TotalRank(q, |m.pc|) < TotalRank(m.pc, |m.pc|)
  {
    var n := |m.pc|;
    RankUpdate(m.pc, n, t, Unlock);
    RankWaking(m.pc[t := Unlock], q, n);
  }
}
