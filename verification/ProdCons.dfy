/** The producer and the consumer that hand over one product at a time, woken by signal only. */
module ProdCons {
  import opened Common
  import opened Monitors

  const PRODUCER: nat := 0
  const CONSUMER: nat := 1

  datatype State = State(
    m: Monitor,
    state: nat,          // 1 while a product is waiting to be consumed
    product: nat,
    made: seq<nat>,      // history: the values the producer announced
    used: seq<nat>)      // history: the values the consumer announced

  predicate Init(s: State)
  {
    s.m == Monitor(None, [Lock, Lock]) && s.state == 0 && s.product == 0 && s.made == s.used == []
  }

  datatype Event = Step(t: nat) | Notifies(t: nat, woken: set<nat>) | Wakeup(t: nat)

  predicate Enabled(s: State, e: Event)
  {
    && |s.m.pc| == 2 && e.t < 2
    && match e
       case Step(t) => Ready(s.m, t) && s.m.pc[t] != Notify
       case Notifies(t, woken) => CanSignal(s.m, t, woken)
       case Wakeup(t) => s.m.pc[t] == Asleep
  }

  /** The producer waits while state is 1, the consumer while it is 0. */
  predicate MustWait(t: nat, state: nat)
  {
    if t == PRODUCER then state == 1 else state == 0
  }

  function Next(s: State, e: Event): State
    requires Enabled(s, e)
  {
    match e
    case Wakeup(t) => s.(m := Spurious(s.m, t))
    case Notifies(t, woken) => s.(m := Signal(s.m, t, woken))
    case Step(t) =>
      match s.m.pc[t]
      case Lock => s.(m := Acquire(s.m, t))
      case Relock => s.(m := Acquire(s.m, t))
      case Check => s.(m := if MustWait(t, s.state) then Sleep(s.m, t) else Move(s.m, t, Act))
      case Act =>
        var u := s.(m := Move(s.m, t, Publish));
        if t == PRODUCER then u.(product := s.product + 1, made := s.made + [s.product + 1])
        else u.(used := s.used + [s.product])
      case Publish => s.(m := Move(s.m, t, Notify), state := if t == PRODUCER then 1 else 0)
      case Unlock => s.(m := Release(s.m, t))
      case After => s.(m := Move(s.m, t, Lock))
  }

  function Run(s: State, es: seq<Event>): Option<State>
    decreases |es|
  {
    if es == [] then Some(s)
    else
      match Run(s, es[..|es| - 1])
      case None => None
      case Some(m) => if Enabled(m, es[|es| - 1]) then Some(Next(m, es[|es| - 1])) else None
  }

  // -------------------------------------------------------------- invariant

  predicate CountsUp(s: seq<nat>)
  {
    forall i :: 0 <= i < |s| ==> s[i] == i + 1
  }

  /** What has been produced and not yet consumed, from state and the two program counters. */
  function Waiting(s: State): int
    requires |s.m.pc| == 2
  {
    s.state + (if s.m.pc[PRODUCER] == Publish then 1 else 0) - (if s.m.pc[CONSUMER] == Publish then 1 else 0)
  }

  /** A thread whose guard has opened is asleep only while the other is about to signal. */
  predicate NobodyForgotten(s: State)
    requires |s.m.pc| == 2
  {
    forall t :: 0 <= t < 2 && s.m.pc[t] == Asleep && !MustWait(t, s.state) ==> s.m.pc[1 - t] == Notify
  }

  predicate Inv(s: State)
  {
    && |s.m.pc| == 2 && Exclusive(s.m)
    && s.state <= 1
    && (s.m.pc[PRODUCER] in {Act, Publish} ==> s.state == 0)
    && (s.m.pc[CONSUMER] in {Act, Publish} ==> s.state == 1)
    && s.product == |s.made| == |s.used| + Waiting(s)
    && CountsUp(s.made) && CountsUp(s.used)
    && NobodyForgotten(s)
  }

  lemma StepExclusive(s: State, e: Event)
    requires Exclusive(s.m) && Enabled(s, e)
    ensures |Next(s, e).m.pc| == 2 && Exclusive(Next(s, e).m)
  {
    var t := e.t;
    match e
    case Wakeup(_) => MoveExclusive(s.m, t, Relock);
    case Notifies(_, woken) => NotifyExclusive(s.m, t, woken);
    case Step(_) =>
      match s.m.pc[t]
      case Lock => AcquireExclusive(s.m, t);
      case Relock => AcquireExclusive(s.m, t);
      case Check => GiveUpExclusive(s.m, t); MoveExclusive(s.m, t, Act);
      case Act => MoveExclusive(s.m, t, Publish);
      case Publish => MoveExclusive(s.m, t, Notify);
      case Unlock => GiveUpExclusive(s.m, t);
      case After => MoveExclusive(s.m, t, Lock);
  }

  lemma StepAwake(s: State, e: Event)
    requires Inv(s) && Enabled(s, e)
    ensures |Next(s, e).m.pc| == 2 && NobodyForgotten(Next(s, e))
  {
    hide CountsUp;
    var u := Next(s, e);
    if e.Notifies? && s.m.pc[1 - e.t] == Asleep {
      var i :| i in e.woken;
      assert i == 1 - e.t;
      assert u.m.pc[1 - e.t] == Relock;
    }
  }

  lemma StepCounts(s: State, e: Event)
    requires Inv(s) && Enabled(s, e)
    ensures var u := Next(s, e);
      && |u.m.pc| == 2 && u.state <= 1
      && (u.m.pc[PRODUCER] in {Act, Publish} ==> u.state == 0)
      && (u.m.pc[CONSUMER] in {Act, Publish} ==> u.state == 1)
      && u.product == |u.made| == |u.used| + Waiting(u)
      && CountsUp(u.made) && CountsUp(u.used)
  {
    hide NobodyForgotten;
  }

  lemma StepInv(s: State, e: Event)
    requires Inv(s) && Enabled(s, e)
    ensures Inv(Next(s, e))
  {
    hide Enabled, Next, NobodyForgotten, Exclusive, Waiting;
    StepExclusive(s, e);
    StepAwake(s, e);
    StepCounts(s, e);
  }

  lemma InitInv(s: State)
    requires Init(s)
    ensures Inv(s)
  {
  }

  lemma {:induction false} RunInv(s: State, es: seq<Event>)
    requires Init(s) && Run(s, es).Some?
    ensures Inv(Run(s, es).value)
    decreases |es|
  {
    hide Inv, Next, Enabled, Init;
    if es == [] {
      InitInv(s);
    } else {
      RunInv(s, es[..|es| - 1]);
      StepInv(Run(s, es[..|es| - 1]).value, es[|es| - 1]);
    }
  }

  // ------------------------------------------------------------- properties

  /** The values produced are 1, 2, 3, ... and so are the values consumed; each product is consumed
      once before the next is made. */
  lemma ConsumedInOrder(s: State, es: seq<Event>)
    requires Init(s) && Run(s, es).Some?
    ensures var u := Run(s, es).value;
      && (forall i :: 0 <= i < |u.made| ==> u.made[i] == i + 1)
      && (forall i :: 0 <= i < |u.used| ==> u.used[i] == i + 1)
      && |u.used| <= |u.made| <= |u.used| + 1
      && |u.m.pc| == 2
      && (u.m.pc[PRODUCER] == Act ==> |u.made| == |u.used|)
      && (u.m.pc[CONSUMER] == Act ==> |u.made| == |u.used| + 1)
  {
    RunInv(s, es);
  }

  /** One signal at a time is enough: the threads never sleep together, and in every reachable state
      one of them can take a step of its own. */
  lemma NeverDeadlocks(s: State, es: seq<Event>)
    requires Init(s) && Run(s, es).Some?
    ensures var u := Run(s, es).value;
      && |u.m.pc| == 2
      && !(u.m.pc[PRODUCER] == Asleep && u.m.pc[CONSUMER] == Asleep)
      && exists t :: 0 <= t < 2 && CanMove(u, t)
  {
    RunInv(s, es);
    var u := Run(s, es).value;
    var t := if u.m.owner.Some? then u.m.owner.value else if u.m.pc[PRODUCER] == Asleep then CONSUMER else PRODUCER;
    if u.m.pc[t] == Notify {
      var woken := set i | 0 <= i < 2 && u.m.pc[i] == Asleep;
      if i: nat :| i < 2 && u.m.pc[i] == Asleep {
        assert i in woken;
      }
      assert Enabled(u, Notifies(t, woken));
    } else {
      assert Enabled(u, Step(t));
    }
    assert CanMove(u, t);
  }

  /** Thread t has a step that is not a spurious wakeup. */
  ghost predicate CanMove(s: State, t: nat)
  {
    Enabled(s, Step(t)) || exists woken :: Enabled(s, Notifies(t, woken))
  }

  function Wakeups(es: seq<Event>): nat { Count(es, (e: Event) => e.Wakeup?) }

  /** Rounds entered: the announcements made plus a guard just passed. */
  function Rounds(s: State): nat
    requires |s.m.pc| == 2
  {
    |s.made| + |s.used| + (if s.m.pc[PRODUCER] == Act || s.m.pc[CONSUMER] == Act then 1 else 0)
  }

  lemma StepRank(s: State, e: Event)
    requires Inv(s) && Enabled(s, e)
    ensures var u := Next(s, e);
      && |u.m.pc| == 2
      && TotalRank(u.m.pc, 2) + 1 <= TotalRank(s.m.pc, 2) + (if e.Wakeup? then 3 else 0) + 11 * (Rounds(u) - Rounds(s))
  {
    hide TotalRank;
    var u := Next(s, e);
    if e.Notifies? {
      NotifyRank(s.m, e.t, u.m.pc);
    } else {
      RankUpdate(s.m.pc, 2, e.t, u.m.pc[e.t]);
    }
  }

  /** Progress: a run of N steps, S of them spurious wakeups, has consumed at least
      (N - 3S - 26) / 22 products. */
  lemma {:induction false} ProgressBound(s: State, es: seq<Event>)
    requires Init(s) && Run(s, es).Some?
    ensures var u := Run(s, es).value;
      && |u.m.pc| == 2
      && |es| + TotalRank(u.m.pc, 2) <= 4 + 3 * Wakeups(es) + 11 * Rounds(u)
      && 22 * |u.used| >= |es| - 3 * Wakeups(es) - 26
    decreases |es|
  {
    hide Inv, Next, Enabled, Rounds;
    if es == [] {
      RankAtStart(s);
    } else {
      var es', e := es[..|es| - 1], es[|es| - 1];
      ProgressBound(s, es');
      RunInv(s, es');
      RunInv(s, es);
      StepRank(Run(s, es').value, e);
      assert es == es' + [e];
      CountAppend(es', [e], (e: Event) => e.Wakeup?);
    }
    RoundsBound(s, es);
  }

  lemma RoundsBound(s: State, es: seq<Event>)
    requires Init(s) && Run(s, es).Some?
    ensures var u := Run(s, es).value; |u.m.pc| == 2 && Rounds(u) <= 2 * |u.used| + 2
  {
    hide Run;
    RunInv(s, es);
  }

  lemma RankAtStart(s: State)
    requires Init(s)
    ensures TotalRank(s.m.pc, 2) == 4 && Rounds(s) == 0
  {
    assert TotalRank([Lock], 2) == 2;
    assert [Lock, Lock][1..] == [Lock];
  }
}
