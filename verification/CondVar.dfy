/** The four-state machine: one thread per state, one mutex, one condition variable, broadcast. */
module CondVar {
  import opened Common
  import opened Monitors

  const THREADS: nat := 4

  datatype State = State(
    m: Monitor,
    state: nat,              // the shared state variable
    cnt: nat,                // advanced by thread 1 outside the mutex
    target: nat,             // the branch thread 1 has chosen
    log: seq<(nat, nat)>)    // history: transitions made

  predicate Init(s: State)
  {
    && s.m == Monitor(None, [Lock, Lock, Lock, Lock])
    && s.state == 0 && s.cnt == 0 && s.log == []
  }

  datatype Event = Step(t: nat) | Wakeup(t: nat)

  predicate Enabled(s: State, e: Event)
  {
    && |s.m.pc| == THREADS && e.t < THREADS
    && match e
       case Step(t) => Ready(s.m, t)
       case Wakeup(t) => s.m.pc[t] == Asleep
  }

  /** Where the thread for each state goes; thread 1 goes where cnt tells it. */
  function Choice(t: nat, cnt: nat): nat
  {
    if t == 0 then 1 else if t == 1 then (if cnt % 2 == 0 then 2 else 3) else 0
  }

  function Next(s: State, e: Event): State
    requires Enabled(s, e)
  {
    match e
    case Wakeup(t) => s.(m := Spurious(s.m, t))
    case Step(t) =>
      match s.m.pc[t]
      case Lock => s.(m := Acquire(s.m, t))
      case Relock => s.(m := Acquire(s.m, t))
      case Check => if s.state != t then s.(m := Sleep(s.m, t)) else s.(m := Move(s.m, t, Act))
      case Act => s.(m := Move(s.m, t, Publish), target := Choice(t, s.cnt))
      case Publish => s.(m := Move(s.m, t, Notify), state := s.target, log := s.log + [(t, s.target)])
      case Notify => s.(m := Broadcast(s.m, t))
      case Unlock => s.(m := Release(s.m, t))
      case After => s.(m := Move(s.m, t, Lock), cnt := if t == 1 then s.cnt + 1 else s.cnt)
  }

  function Run(s: State, es: seq<Event>): Option<State>
    decreases |es|
  {
    if es == [] then Some(s)
    else
      match Run(s, es[..|es| - 1])
      case None => None
      case Some(m) => if Enabled(m, es[|es| - 1]) then Some(Next(m, es[|es| - 1])) else None
  }

  // -------------------------------------------------------------- invariant

  /** The n-th state visited when the cycle 0-1-2-0-1-3 repeats. */
  function Cycle(n: nat): nat { [0, 1, 2, 0, 1, 3][n % 6] }

  /** Thread 1 has made its transition but not yet counted it. */
  function Uncounted(pc: Pc): nat { if pc in {Notify, Unlock, After} then 1 else 0 }

  predicate FollowsCycle(log: seq<(nat, nat)>)
  {
    forall i :: 0 <= i < |log| ==> log[i] == (Cycle(i), Cycle(i + 1))
  }

  /** A thread whose state has come is asleep only while its waker still holds the mutex. */
  predicate NobodyForgotten(s: State)
    requires |s.m.pc| == THREADS && s.state < THREADS
  {
    s.m.pc[s.state] == Asleep ==> exists t :: 0 <= t < THREADS && s.m.pc[t] == Notify
  }

  /** cnt, once the outstanding increment is added, is the number of transitions out of state 1. */
  predicate CountingOnes(s: State)
    requires |s.m.pc| == THREADS
  {
    s.cnt + Uncounted(s.m.pc[1]) == (|s.log| + 1) / 3
  }

  /** Only the thread whose turn it is gets past its guard, and it has chosen the next state. */
  predicate Entering(s: State)
    requires |s.m.pc| == THREADS
  {
    && (forall t :: 0 <= t < THREADS && s.m.pc[t] in {Act, Publish} ==> s.state == t)
    && (forall t :: 0 <= t < THREADS && s.m.pc[t] == Publish ==> s.target == Cycle(|s.log| + 1))
  }

  predicate Inv(s: State)
  {
    && |s.m.pc| == THREADS && Exclusive(s.m)
    && s.state == Cycle(|s.log|)
    && FollowsCycle(s.log)
    && CountingOnes(s)
    && Entering(s)
    && NobodyForgotten(s)
  }

  lemma CycleChoice(n: nat)
    ensures Cycle(n) < THREADS
    ensures Cycle(n) != 1 ==> Choice(Cycle(n), 0) == Cycle(n + 1)
    ensures Cycle(n) == 1 ==> Choice(1, (n + 1) / 3) == Cycle(n + 1)
    ensures Cycle(n) != Cycle(n + 1)
    ensures (n + 2) / 3 == (n + 1) / 3 + (if Cycle(n) == 1 then 1 else 0)
  {
    var q, r := n / 6, n % 6;
    assert n == 6 * q + r;
    assert Cycle(n + 1) == [1, 2, 0, 1, 3, 0][r];
    assert (n + 1) / 3 == 2 * q + (r + 1) / 3;
    assert (n + 2) / 3 == 2 * q + (r + 2) / 3;
  }

  lemma InitInv(s: State)
    requires Init(s)
    ensures Inv(s)
  {
  }

  /** Thread 1 reads cnt under the mutex while no increment of its own is outstanding. */
  lemma ChoiceIsNext(s: State, t: nat)
    requires Inv(s) && t < THREADS && s.m.pc[t] == Act
    ensures Choice(t, s.cnt) == Cycle(|s.log| + 1)
  {
    CycleChoice(|s.log|);
  }

  predicate Quiet(s: State, e: Event)
    requires Enabled(s, e)
  {
    e.Step? ==> s.m.pc[e.t] !in {Act, Publish}
  }

  lemma QuietExclusive(s: State, e: Event)
    requires Exclusive(s.m) && Enabled(s, e) && Quiet(s, e)
    ensures |Next(s, e).m.pc| == THREADS && Exclusive(Next(s, e).m)
  {
    var t := e.t;
    match e
    case Wakeup(_) => MoveExclusive(s.m, t, Relock);
    case Step(_) =>
      match s.m.pc[t]
      case Lock => AcquireExclusive(s.m, t);
      case Relock => AcquireExclusive(s.m, t);
      case Check => GiveUpExclusive(s.m, t); MoveExclusive(s.m, t, Act);
      case Notify => NotifyExclusive(s.m, t, {});
      case Unlock => GiveUpExclusive(s.m, t);
      case After => MoveExclusive(s.m, t, Lock);
  }

  /** A quiet step changes neither state nor log, and lets nobody past a guard unless it is open. */
  lemma QuietShape(s: State, e: Event)
    requires Enabled(s, e) && Quiet(s, e)
    ensures var u := Next(s, e);
      && u.state == s.state && u.log == s.log && u.target == s.target && |u.m.pc| == THREADS
      && (forall t :: 0 <= t < THREADS && u.m.pc[t] in {Act, Publish} ==>
            u.m.pc[t] == s.m.pc[t] || (u.m.pc[t] == Act && s.state == t))
      && u.cnt + Uncounted(u.m.pc[1]) == s.cnt + Uncounted(s.m.pc[1])
  {
    hide Exclusive;
  }

  lemma QuietAwake(s: State, e: Event)
    requires Enabled(s, e) && Quiet(s, e) && s.state < THREADS && NobodyForgotten(s)
    ensures var u := Next(s, e); |u.m.pc| == THREADS && u.state < THREADS && NobodyForgotten(u)
  {
    hide Exclusive;
    var u := Next(s, e);
    if u.m.pc[u.state] == Asleep {
      assert s.m.pc[s.state] == Asleep;
      var w :| 0 <= w < THREADS && s.m.pc[w] == Notify;
      assert u.m.pc[w] == Notify;
    }
  }

  lemma QuietStep(s: State, e: Event)
    requires Inv(s) && Enabled(s, e) && Quiet(s, e)
    ensures Inv(Next(s, e))
  {
    hide Cycle, Exclusive, Next, Enabled, NobodyForgotten, Quiet, Uncounted;
    CycleChoice(|s.log|);
    QuietExclusive(s, e);
    QuietShape(s, e);
    QuietAwake(s, e);
  }

  lemma StepInv(s: State, e: Event)
    requires Inv(s) && Enabled(s, e)
    ensures Inv(Next(s, e))
  {
    hide Cycle;
    var t := Next(s, e);
    if e.Step? && s.m.pc[e.t] == Act {
      ChoiceIsNext(s, e.t);
    } else if e.Step? && s.m.pc[e.t] == Publish {
      CycleChoice(|s.log|);
      CycleChoice(|s.log| + 1);
      assert t.m.pc[e.t] == Notify;
    } else {
      QuietStep(s, e);
    }
  }

  lemma {:induction false} RunInv(s: State, es: seq<Event>)
    requires Init(s) && Run(s, es).Some?
    ensures Inv(Run(s, es).value)
    decreases |es|
  {
    hide Inv, Next, Enabled, Init;
    if es == [] {
      InitInv(s);
    } else {
      RunInv(s, es[..|es| - 1]);
      StepInv(Run(s, es[..|es| - 1]).value, es[|es| - 1]);
    }
  }

  // ------------------------------------------------------------- properties

  /** In every run, with any number of spurious wakeups, the transitions made are a prefix of
      0-1, 1-2, 2-0, 0-1, 1-3, 3-0 repeated, although cnt changes outside the mutex. */
  lemma TransitionsFollowCycle(s: State, es: seq<Event>)
    requires Init(s) && Run(s, es).Some?
    ensures var t := Run(s, es).value;
      && t.state == Cycle(|t.log|)
      && forall i :: 0 <= i < |t.log| ==>
           t.log[i] == (Cycle(i), Cycle(i + 1)) == [(0, 1), (1, 2), (2, 0), (0, 1), (1, 3), (3, 0)][i % 6]
  {
    hide Run, Cycle, Init;
    RunInv(s, es);
    var t := Run(s, es).value;
    forall i | 0 <= i < |t.log|
      ensures t.log[i] == (Cycle(i), Cycle(i + 1)) == [(0, 1), (1, 2), (2, 0), (0, 1), (1, 3), (3, 0)][i % 6]
    {
      CycleStep(i);
    }
  }

  lemma CycleStep(i: nat)
    ensures (Cycle(i), Cycle(i + 1)) == [(0, 1), (1, 2), (2, 0), (0, 1), (1, 3), (3, 0)][i % 6]
  {
    assert (i + 1) % 6 == if i % 6 == 5 then 0 else i % 6 + 1;
  }

  /** No lost wakeup: when the mutex is free, the thread whose turn it is does not sleep, so it or
      the owner of the mutex can always take a step without a spurious wakeup. */
  lemma NoLostWakeup(s: State, es: seq<Event>)
    requires Init(s) && Run(s, es).Some?
    ensures var u := Run(s, es).value;
      && |u.m.pc| == THREADS && u.state < THREADS
      && (u.m.owner == None ==> u.m.pc[u.state] != Asleep && Enabled(u, Step(u.state)))
      && (u.m.owner != None ==> u.m.owner.value < THREADS && Enabled(u, Step(u.m.owner.value)))
  {
    RunInv(s, es);
    var u := Run(s, es).value;
    CycleChoice(|u.log|);
  }

  /** Someone has entered but not yet published. */
  function Entered(s: State): nat
  {
    if s.m.owner.Some? && s.m.owner.value < |s.m.pc| && s.m.pc[s.m.owner.value] in {Act, Publish} then 1 else 0
  }

  function Wakeups(es: seq<Event>): nat { Count(es, (e: Event) => e.Wakeup?) }

  lemma StepRank(s: State, e: Event)
    requires Inv(s) && Enabled(s, e)
    ensures var u := Next(s, e);
      TotalRank(u.m.pc, 4) + 1 <=
        TotalRank(s.m.pc, 4) + (if e.Wakeup? then 3 else 0)
          + 15 * (|u.log| + Entered(u) - |s.log| - Entered(s))
  {
    hide Cycle, TotalRank;
    var u := Next(s, e);
    if e.Step? && s.m.pc[e.t] == Notify {
      NotifyRank(s.m, e.t, u.m.pc);
    } else {
      RankUpdate(s.m.pc, 4, e.t, u.m.pc[e.t]);
    }
  }

  /** Progress: a run of N steps, S of them spurious wakeups, has made at least
      (N - 3S - 23) / 15 transitions, so no schedule keeps the machine busy without advancing it. */
  lemma {:induction false} ProgressBound(s: State, es: seq<Event>)
    requires Init(s) && Run(s, es).Some?
    ensures var u := Run(s, es).value;
      && |es| + TotalRank(u.m.pc, 4) <= 8 + 3 * Wakeups(es) + 15 * (|u.log| + Entered(u))
      && 15 * |u.log| >= |es| - 3 * Wakeups(es) - 23
    decreases |es|
  {
    hide Inv, Next, Enabled, Entered;
    if es == [] {
      assert TotalRank([Lock, Lock, Lock, Lock], 4) == 8 && Entered(s) == 0 by { RankAtStart(s); }
    } else {
      var es', e := es[..|es| - 1], es[|es| - 1];
      ProgressBound(s, es');
      RunInv(s, es');
      StepRank(Run(s, es').value, e);
      assert es == es' + [e];
      CountAppend(es', [e], (e: Event) => e.Wakeup?);
      EnteredBound(Run(s, es).value);
    }
  }

  lemma EnteredBound(s: State)
    ensures Entered(s) <= 1
  {
  }

  lemma RankAtStart(s: State)
    requires Init(s)
    ensures TotalRank([Lock, Lock, Lock, Lock], 4) == 8 && Entered(s) == 0
  {
    assert TotalRank([Lock], 4) == 2;
    assert [Lock, Lock][1..] == [Lock];
    assert [Lock, Lock, Lock][1..] == [Lock, Lock];
    assert [Lock, Lock, Lock, Lock][1..] == [Lock, Lock, Lock];
  }
}
