/** The condition-variable programs as they run: the mutex with its condition variable keeps the threads'
    program counters in an array that locking, waiting and notifying update in place, the globals are the
    fields of the program, and a schedule picks which thread moves. */
module MonitorPrograms {
  import opened Common
  import opened Monitors
  import CondVar
  import ProdCons

  /** A mutex, its condition variable, and where each thread stands. */
  class Threads {
    var owner: Option<nat>
    const pc: array<Pc>

    ghost function View(): Monitor
      reads this, pc
    {
      Monitor(owner, pc[..])
    }

    constructor (n: nat)
      ensures fresh(pc) && pc.Length == n
      ensures owner == None && forall t :: 0 <= t < n ==> pc[t] == Lock
    {
      owner := None;
      pc := new Pc[n](_ => Lock);
    }

    method GoTo(t: nat, to: Pc)
      requires t < pc.Length
      modifies pc
      ensures View() == Move(old(View()), t, to)
    {
      pc[t] := to;
    }

    /** pthread_mutex_lock; false while somebody else holds it. */
    method TakeMutex(t: nat) returns (ok: bool)
      requires t < pc.Length
      modifies this, pc
      ensures ok == (old(owner) == None)
      ensures View() == if ok then Acquire(old(View()), t) else old(View())
    {
      ok := owner == None;
      if ok {
        owner, pc[t] := Some(t), Check;
      }
    }

    /** pthread_cond_wait, up to falling asleep. */
    method Wait(t: nat)
      requires t < pc.Length
      modifies this, pc
      ensures View() == Sleep(old(View()), t)
    {
      owner, pc[t] := None, Asleep;
    }

    /** pthread_mutex_unlock. */
    method Leave(t: nat)
      requires t < pc.Length
      modifies this, pc
      ensures View() == Release(old(View()), t)
    {
      owner, pc[t] := None, After;
    }

    /** pthread_cond_broadcast: walk through the wait set and let everybody compete for the mutex. */
    method WakeAll(t: nat)
      requires t < pc.Length && pc[t] == Notify
      modifies pc
      ensures View() == Broadcast(old(View()), t)
    {
      for i := 0 to pc.Length
        invariant forall j :: 0 <= j < i ==> pc[j] == Wake(old(pc[j]))
        invariant forall j :: i <= j < pc.Length ==> pc[j] == old(pc[j])
      {
        if pc[i] == Asleep {
          pc[i] := Relock;
        }
      }
      pc[t] := Unlock;
    }

    /** pthread_cond_signal: wake the first sleeper there is. */
    method WakeOne(t: nat) returns (woken: set<nat>)
      requires t < pc.Length && pc[t] == Notify
      modifies pc
      ensures CanSignal(old(View()), t, woken) && |woken| <= 1
      ensures View() == Signal(old(View()), t, woken)
    {
      woken := {};
      var i := 0;
      while i < pc.Length && pc[i] != Asleep
        invariant i <= pc.Length
        invariant forall j :: 0 <= j < i ==> pc[j] != Asleep
      {
        i := i + 1;
      }
      if i < pc.Length {
        woken := {i};
        pc[i] := Relock;
      }
      pc[t] := Unlock;
    }

    /** A sleeper wakes for no reason. */
    method WakeUp(t: nat) returns (ok: bool)
      requires t < pc.Length
      modifies pc
      ensures ok == (old(pc[t]) == Asleep)
      ensures View() == if ok then Spurious(old(View()), t) else old(View())
    {
      ok := pc[t] == Asleep;
      if ok {
        pc[t] := Relock;
      }
    }
  }

  /** The globals of the four-state program and its threads. */
  class FourStates {
    const threads: Threads
    var state: nat
    var cnt: nat
    var target: nat
    ghost var log: seq<(nat, nat)>

    ghost function Snapshot(): CondVar.State
      reads this, threads, threads.pc
    {
      CondVar.State(threads.View(), state, cnt, target, log)
    }

    constructor ()
      ensures CondVar.Init(Snapshot()) && fresh(threads) && fresh(threads.pc)
    {
      threads := new Threads(CondVar.THREADS);
      state, cnt, target, log := 0, 0, 0, [];
    }

    /** Thread t executes its next access; false when it sleeps or the mutex is taken. */
    method Step(t: nat) returns (ok: bool)
      requires threads.pc.Length == CondVar.THREADS && t < CondVar.THREADS
      modifies this, threads, threads.pc
      ensures ok == CondVar.Enabled(old(Snapshot()), CondVar.Step(t))
      ensures Snapshot() == if ok then CondVar.Next(old(Snapshot()), CondVar.Step(t)) else old(Snapshot())
    {
      ok := true;
      match threads.pc[t]
      case Lock => ok := threads.TakeMutex(t);
      case Relock => ok := threads.TakeMutex(t);
      case Check =>
        if state != t {
          threads.Wait(t);
        } else {
          threads.GoTo(t, Act);
        }
      case Act =>
        if t == 0 {
          target := 1;
        } else if t == 1 {
          if cnt % 2 == 0 {
            target := 2;
          } else {
            target := 3;
          }
        } else {
          target := 0;
        }
        threads.GoTo(t, Publish);
      case Publish =>
        state := target;
        log := log + [(t, target)];
        threads.GoTo(t, Notify);
      case Notify => threads.WakeAll(t);
      case Unlock => threads.Leave(t);
      case After =>
        if t == 1 {
          cnt := cnt + 1;
        }
        threads.GoTo(t, Lock);
      case Asleep => return false;
    }

    /** A sleeper wakes for no reason. */
    method WakeUp(t: nat) returns (ok: bool)
      requires threads.pc.Length == CondVar.THREADS && t < CondVar.THREADS
      modifies this, threads, threads.pc
      ensures ok == (old(threads.pc[t]) == Asleep) == CondVar.Enabled(old(Snapshot()), CondVar.Wakeup(t))
      ensures Snapshot() == if ok then CondVar.Next(old(Snapshot()), CondVar.Wakeup(t)) else old(Snapshot())
    {
      ok := threads.WakeUp(t);
    }

    /** Under any schedule the program walks round the cycle. */
    method Interleave(schedule: seq<CondVar.Event>) returns (ghost taken: seq<CondVar.Event>)
      requires CondVar.Init(Snapshot())
      requires forall e :: e in schedule ==> e.t < CondVar.THREADS
      modifies this, threads, threads.pc
      ensures CondVar.Run(old(Snapshot()), taken) == Some(Snapshot())
      ensures CondVar.Run(old(Snapshot()), schedule).Some? ==> taken == schedule
      ensures state == CondVar.Cycle(|log|)
      ensures forall i :: 0 <= i < |log| ==> log[i] == (CondVar.Cycle(i), CondVar.Cycle(i + 1))
    {
      hide CondVar.Enabled, CondVar.Next;
      taken := [];
      ghost var start := Snapshot();
      for n := 0 to |schedule|
        invariant threads.pc.Length == CondVar.THREADS
        invariant CondVar.Run(start, taken) == Some(Snapshot())
        invariant CondVar.Run(start, schedule[..n]).Some? ==> taken == schedule[..n]
      {
        var e := schedule[n];
        assert schedule[..n + 1] == schedule[..n] + [e] && schedule[..n + 1][..n] == schedule[..n];
        var ok;
        if e.Step? {
          ok := Step(e.t);
        } else {
          ok := WakeUp(e.t);
        }
        if ok {
          assert (taken + [e])[..|taken|] == taken;
          taken := taken + [e];
          CondVar.RunInv(start, taken);
        }
      }
      assert schedule[..|schedule|] == schedule;
      CondVar.TransitionsFollowCycle(start, taken);
    }
  }

  /** With two threads a signal has no choice whom to wake. */
  lemma OnlyOtherCanWake(m: Monitor, t: nat, a: set<nat>, b: set<nat>)
    requires |m.pc| == 2 && CanSignal(m, t, a) && CanSignal(m, t, b)
    ensures a == b
  {
    assert forall i :: i in a || i in b ==> i == 1 - t;
    if a != {} {
      var i :| i in a;
      assert b != {};
      var j :| j in b;
      assert i == j == 1 - t;
    }
    assert a == b;
  }

  /** The globals of the hand-over program and its two threads. */
  class HandOver {
    const threads: Threads
    var state: nat
    var product: nat
    ghost var made: seq<nat>
    ghost var used: seq<nat>

    ghost function Snapshot(): ProdCons.State
      reads this, threads, threads.pc
    {
      ProdCons.State(threads.View(), state, product, made, used)
    }

    constructor ()
      ensures ProdCons.Init(Snapshot()) && fresh(threads) && fresh(threads.pc)
    {
      threads := new Threads(2);
      state, product, made, used := 0, 0, [], [];
    }

    /** Thread t executes its next access other than the signal. */
    method Step(t: nat) returns (ok: bool)
      requires threads.pc.Length == 2 && t < 2
      modifies this, threads, threads.pc
      ensures ok == ProdCons.Enabled(old(Snapshot()), ProdCons.Step(t))
      ensures Snapshot() == if ok then ProdCons.Next(old(Snapshot()), ProdCons.Step(t)) else old(Snapshot())
    {
      ok := true;
      match threads.pc[t]
      case Lock => ok := threads.TakeMutex(t);
      case Relock => ok := threads.TakeMutex(t);
      case Check =>
        if (t == ProdCons.PRODUCER && state == 1) || (t == ProdCons.CONSUMER && state == 0) {
          threads.Wait(t);
        } else {
          threads.GoTo(t, Act);
        }
      case Act =>
        if t == ProdCons.PRODUCER {
          product := product + 1;
          made := made + [product];
        } else {
          used := used + [product];
        }
        threads.GoTo(t, Publish);
      case Publish =>
        state := if t == ProdCons.PRODUCER then 1 else 0;
        threads.GoTo(t, Notify);
      case Unlock => threads.Leave(t);
      case After => threads.GoTo(t, Lock);
      case Notify => return false;
      case Asleep => return false;
    }

    /** Thread t signals; with two threads there is at most one to wake. */
    method SignalOther(t: nat) returns (ok: bool, woken: set<nat>)
      requires threads.pc.Length == 2 && t < 2
      modifies this, threads, threads.pc
      ensures ok == (old(threads.pc[t]) == Notify)
      ensures ok ==> ProdCons.Enabled(old(Snapshot()), ProdCons.Notifies(t, woken))
      ensures Snapshot() == if ok then ProdCons.Next(old(Snapshot()), ProdCons.Notifies(t, woken)) else old(Snapshot())
    {
      ok, woken := threads.pc[t] == Notify, {};
      if ok {
        woken := threads.WakeOne(t);
      }
    }

    method WakeUp(t: nat) returns (ok: bool)
      requires threads.pc.Length == 2 && t < 2
      modifies this, threads, threads.pc
      ensures ok == (old(threads.pc[t]) == Asleep) == ProdCons.Enabled(old(Snapshot()), ProdCons.Wakeup(t))
      ensures Snapshot() == if ok then ProdCons.Next(old(Snapshot()), ProdCons.Wakeup(t)) else old(Snapshot())
    {
      ok := threads.WakeUp(t);
    }

    /** Under any schedule the consumer announces 1, 2, 3, ... */
    method Interleave(schedule: seq<ProdCons.Event>) returns (ghost taken: seq<ProdCons.Event>)
      requires ProdCons.Init(Snapshot())
      requires forall e :: e in schedule ==> e.t < 2
      modifies this, threads, threads.pc
      ensures ProdCons.Run(old(Snapshot()), taken) == Some(Snapshot())
      ensures ProdCons.Run(old(Snapshot()), schedule).Some? ==> taken == schedule
      ensures forall i :: 0 <= i < |used| ==> used[i] == i + 1
    {
      hide ProdCons.Enabled, ProdCons.Next;
      taken := [];
      ghost var start := Snapshot();
      for n := 0 to |schedule|
        invariant threads.pc.Length == 2
        invariant ProdCons.Run(start, taken) == Some(Snapshot())
        invariant ProdCons.Run(start, schedule[..n]).Some? ==> taken == schedule[..n]
      {
        var e := schedule[n];
        assert schedule[..n + 1] == schedule[..n] + [e] && schedule[..n + 1][..n] == schedule[..n];
        var ok;
        ok, e := Try(e);
        if ok {
          assert (taken + [e])[..|taken|] == taken;
          taken := taken + [e];
          ProdCons.RunInv(start, taken);
        }
      }
      assert schedule[..|schedule|] == schedule;
      ProdCons.ConsumedInOrder(start, taken);
    }

    /** Thread e.t makes the step that e asks for, if it can. */
    method Try(e: ProdCons.Event) returns (ok: bool, done: ProdCons.Event)
      requires threads.pc.Length == 2 && e.t < 2
      modifies this, threads, threads.pc
      ensures ok ==> ProdCons.Enabled(old(Snapshot()), done)
      ensures Snapshot() == if ok then ProdCons.Next(old(Snapshot()), done) else old(Snapshot())
      ensures ProdCons.Enabled(old(Snapshot()), e) ==> ok && done == e
    {
      hide ProdCons.Next;
      done := e;
      match e
      case Step(t) => ok := Step(t);
      case Wakeup(t) => ok := WakeUp(t);
      case Notifies(t, asked) =>
        ghost var before := Snapshot();
        var woken;
        ok, woken := SignalOther(t);
        if ProdCons.Enabled(before, e) {
          OnlyOtherCanWake(before.m, t, asked, woken);
        }
        done := ProdCons.Notifies(t, woken);
    }
  }
}
