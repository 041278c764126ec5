/** The same threads without the mutex: loads and stores of different threads interleave freely. */
module RacyCounters {
  import opened Common

  datatype Pc =
    | ReadLeft | Compare | RepairLoad | RepairStore
    | WorkLoad | WorkStore | Load1 | Store1 | Load2 | Store2
    | Cancelled(between: bool)   // whether it stopped between its two increments

  datatype Thread = Thread(pc: Pc, left: int, reg: int)

  datatype State = State(
    threads: seq<Thread>,
    var1: int, var2: int, var3: int,
    stored1: nat, stored2: nat, stored3: nat)   // history: increment stores completed

  function Start(n: nat): State
  {
    State(seq(n, i => Thread(ReadLeft, 0, 0)), 0, 0, 0, 0, 0, 0)
  }

  datatype Event = Step(t: nat) | Cancel(t: nat)

  predicate Enabled(s: State, e: Event)
  {
    e.t < |s.threads| && !s.threads[e.t].pc.Cancelled?
  }

  /** Between storing var1 and storing var2. */
  predicate Between(me: Thread)
  {
    match me.pc
    case Load2 => true
    case Store2 => true
    case Cancelled(b) => b
    case _ => false
  }

  /** What a thread's next access does to the thread. */
  function Moved(s: State, me: Thread): Thread
    requires !me.pc.Cancelled?
  {
    match me.pc
    case ReadLeft => me.(left := s.var1, pc := Compare)
    case Compare => me.(pc := if me.left != s.var2 then RepairLoad else WorkLoad)
    case RepairLoad => me.(reg := s.var2, pc := RepairStore)
    case RepairStore => me.(pc := WorkLoad)
    case WorkLoad => me.(reg := s.var3, pc := WorkStore)
    case WorkStore => me.(pc := Load1)
    case Load1 => me.(reg := s.var1, pc := Store1)
    case Store1 => me.(pc := Load2)
    case Load2 => me.(reg := s.var2, pc := Store2)
    case Store2 => me.(pc := ReadLeft)
  }

  function Next(s: State, e: Event): State
    requires Enabled(s, e)
  {
    var t := e.t;
    var me := s.threads[t];
    if e.Cancel? then s.(threads := s.threads[t := me.(pc := Cancelled(Between(me)))])
    else
      var u := s.(threads := s.threads[t := Moved(s, me)]);
      match me.pc
      case RepairStore => u.(var1 := me.reg)
      case WorkStore => u.(var3 := me.reg + 1, stored3 := s.stored3 + 1)
      case Store1 => u.(var1 := me.reg + 1, stored1 := s.stored1 + 1)
      case Store2 => u.(var2 := me.reg + 1, stored2 := s.stored2 + 1)
      case _ => u
  }

  function Run(s: State, es: seq<Event>): Option<State>
    decreases |es|
  {
    if es == [] then Some(s)
    else
      match Run(s, es[..|es| - 1])
      case None => None
      case Some(m) => if Enabled(m, es[|es| - 1]) then Some(Next(m, es[|es| - 1])) else None
  }

  // -------------------------------------------------------------- invariant

  function CountBetween(threads: seq<Thread>): nat { Count(threads, Between) }

  /** A value on its way to a counter is no more than the increments stored so far. */
  predicate InFlight(s: State, me: Thread)
  {
    match me.pc
    case WorkStore => 0 <= me.reg <= s.stored3
    case Store1 => 0 <= me.reg <= s.stored1
    case Store2 => 0 <= me.reg <= s.stored2
    case RepairStore => 0 <= me.reg <= s.stored2
    case _ => true
  }

  predicate Inv(s: State)
  {
    && 0 <= s.var1 <= s.stored1 && 0 <= s.var2 <= s.stored2 && 0 <= s.var3 <= s.stored3
    && s.stored1 == s.stored2 + CountBetween(s.threads)
    && forall t :: 0 <= t < |s.threads| ==> InFlight(s, s.threads[t])
  }

  lemma StepInv(s: State, e: Event)
    requires Inv(s) && Enabled(s, e)
    ensures Inv(Next(s, e)) && |Next(s, e).threads| == |s.threads|
  {
    hide CountBetween;
    var u := Next(s, e);
    BetweenUpdate(s.threads, e.t, u.threads[e.t]);
    forall t | 0 <= t < |u.threads|
      ensures InFlight(u, u.threads[t])
    {
      assert InFlight(s, s.threads[t]);
      assert InFlight(s, s.threads[e.t]);
    }
  }

  lemma BetweenUpdate(threads: seq<Thread>, t: nat, me: Thread)
    requires t < |threads|
    ensures CountBetween(threads[t := me])
      == CountBetween(threads) - (if Between(threads[t]) then 1 else 0) + (if Between(me) then 1 else 0)
  {
    CountUpdate(threads, t, me, Between);
  }

  lemma {:induction false} RunInv(n: nat, es: seq<Event>)
    requires Run(Start(n), es).Some?
    ensures Inv(Run(Start(n), es).value)
    ensures |Run(Start(n), es).value.threads| == n
    decreases |es|
  {
    hide Next, Enabled;
    if es == [] {
      CountZero(Start(n).threads, Between);
    } else {
      RunInv(n, es[..|es| - 1]);
      StepInv(Run(Start(n), es[..|es| - 1]).value, es[|es| - 1]);
    }
  }

  // ------------------------------------------------------------- properties

  /** For n threads and any interleaving, races only lose updates: neither counter exceeds the
      increments stored into it, repairs included, and the two numbers of stores are n apart at most. */
  lemma RacesOnlyLose(n: nat, es: seq<Event>)
    requires Run(Start(n), es).Some?
    ensures var u := Run(Start(n), es).value;
      && 0 <= u.var1 <= u.stored1 && 0 <= u.var2 <= u.stored2 && 0 <= u.var3 <= u.stored3
      && u.stored2 <= u.stored1 <= u.stored2 + n
  {
    RunInv(n, es);
    CountAtMostLength(Run(Start(n), es).value.threads, Between);
  }

  predicate Exact(s: State) { s.var1 == s.stored1 && s.var2 == s.stored2 && s.var3 == s.stored3 }

  /** What a thread with nobody to race against knows. */
  predicate Alone(s: State)
  {
    && |s.threads| == 1
    && Exact(s)
    && s.var1 == s.var2 + (if Between(s.threads[0]) then 1 else 0)
    && match s.threads[0].pc
       case Compare => s.threads[0].left == s.var1
       case RepairLoad => false
       case RepairStore => false
       case WorkStore => s.threads[0].reg == s.var3
       case Store1 => s.threads[0].reg == s.var1
       case Store2 => s.threads[0].reg == s.var2
       case _ => true
  }

  lemma {:induction false} SingleThreadExact(es: seq<Event>)
    requires Run(Start(1), es).Some?
    ensures Alone(Run(Start(1), es).value)
    decreases |es|
  {
    if es == [] {
    } else {
      SingleThreadExact(es[..|es| - 1]);
    }
  }

  lemma Extend(s: State, es: seq<Event>, t: nat, m: State)
    requires Run(s, es) == Some(m) && Enabled(m, Step(t))
    ensures Run(s, es + [Step(t)]) == Some(Next(m, Step(t)))
  {
    assert (es + [Step(t)])[..|es|] == es;
  }

  /** Threads 0 and 1 stand at the same point with nothing stored into var1 or var2 yet. */
  predicate SideBySide(m: State, n: nat, pc: Pc)
  {
    && n >= 2 && |m.threads| == n
    && m.threads[0].pc == m.threads[1].pc == pc
    && m.var1 == m.var2 == 0 && m.stored1 == 0
    && (pc == Compare ==> m.threads[0].left == m.threads[1].left == 0)
    && (pc == Store1 ==> m.threads[0].reg == m.threads[1].reg == 0)
  }

  /** The way from the head of the loop to storing var1 when the counters are found equal. */
  function Onward(pc: Pc): Pc
  {
    match pc
    case ReadLeft => Compare
    case Compare => WorkLoad
    case WorkLoad => WorkStore
    case WorkStore => Load1
    case _ => Store1
  }

  /** Both take one access: first thread 0, then thread 1. */
  lemma Together(n: nat, es: seq<Event>, m: State, pc: Pc) returns (es': seq<Event>, m': State)
    requires Run(Start(n), es) == Some(m) && SideBySide(m, n, pc)
    requires pc in {ReadLeft, Compare, WorkLoad, WorkStore, Load1}
    ensures Run(Start(n), es') == Some(m') && SideBySide(m', n, Onward(pc))
  {
    hide Run;
    Extend(Start(n), es, 0, m);
    var half := Next(m, Step(0));
    Extend(Start(n), es + [Step(0)], 1, half);
    es', m' := es + [Step(0)] + [Step(1)], Next(half, Step(1));
  }

  /** Two threads that load var1 before either stores it lose an increment. */
  lemma TwoThreadsLose(n: nat) returns (es: seq<Event>)
    requires n >= 2
    ensures Run(Start(n), es).Some? && !Exact(Run(Start(n), es).value)
  {
    var m := Start(n);
    es := [];
    assert Run(m, es) == Some(m) && SideBySide(m, n, ReadLeft);
    hide Run, SideBySide, Next, Enabled;
    es, m := Together(n, es, m, ReadLeft);
    es, m := Together(n, es, m, Compare);
    es, m := Together(n, es, m, WorkLoad);
    es, m := Together(n, es, m, WorkStore);
    es, m := Together(n, es, m, Load1);
    es, m := BothStore(n, es, m);
  }

  lemma BothStore(n: nat, es: seq<Event>, m: State) returns (es': seq<Event>, m': State)
    requires Run(Start(n), es) == Some(m) && SideBySide(m, n, Store1)
    ensures Run(Start(n), es') == Some(m') && !Exact(m')
  {
    hide Run;
    Extend(Start(n), es, 0, m);
    var half := Next(m, Step(0));
    Extend(Start(n), es + [Step(0)], 1, half);
    es', m' := es + [Step(0)] + [Step(1)], Next(half, Step(1));
    assert m'.var1 == 1 && m'.stored1 == 2;
  }

  ghost predicate AlwaysExact(n: nat)
  {
    forall es :: Run(Start(n), es).Some? ==> Exact(Run(Start(n), es).value)
  }

  lemma {:induction false} NobodyRuns(es: seq<Event>)
    requires Run(Start(0), es).Some?
    ensures Run(Start(0), es).value == Start(0)
    decreases |es|
  {
    if es == [] {
    } else {
      NobodyRuns(es[..|es| - 1]);
    }
  }

  /** The counters always equal the increments made if and only if there is at most one thread. */
  lemma ExactIffAtMostOneThread(n: nat)
    ensures AlwaysExact(n) <==> n <= 1
  {
    if n >= 2 {
      var es := TwoThreadsLose(n);
    } else {
      forall es | Run(Start(n), es).Some?
        ensures Exact(Run(Start(n), es).value)
      {
        if n == 0 {
          NobodyRuns(es);
        } else {
          SingleThreadExact(es);
        }
      }
    }
  }

  // --------------------------------------------------------------- progress

  predicate IsStep(e: Event) { e.Step? }

  function Steps(es: seq<Event>): nat { Count(es, IsStep) }

  /** How far a thread has got in its round; a cancelled one is taken to have been at its end. */
  function Position(me: Thread): nat
  {
    match me.pc
    case ReadLeft => 0
    case Compare => 1
    case RepairLoad => 2
    case RepairStore => 3
    case WorkLoad => 4
    case WorkStore => 5
    case Load1 => 6
    case Store1 => 7
    case Load2 => 8
    case Store2 => 9
    case Cancelled(_) => 9
  }

  function Positions(threads: seq<Thread>): (sum: nat)
    ensures sum <= 9 * |threads|
  {
    if threads == [] then 0 else Position(threads[0]) + Positions(threads[1..])
  }

  lemma {:induction false} PositionsUpdate(threads: seq<Thread>, t: nat, me: Thread)
    requires t < |threads|
    ensures Positions(threads[t := me]) == Positions(threads) - Position(threads[t]) + Position(me)
  {
    if t == 0 {
      assert threads[0 := me][1..] == threads[1..];
    } else {
      assert threads[t := me][1..] == threads[1..][t - 1 := me];
      PositionsUpdate(threads[1..], t - 1, me);
    }
  }

  lemma StepCounted(s: State, e: Event)
    requires Enabled(s, e)
    ensures var u := Next(s, e);
      10 * s.stored2 + Positions(s.threads) + (if e.Step? then 1 else 0) <= 10 * u.stored2 + Positions(u.threads)
  {
    hide Positions;
    PositionsUpdate(s.threads, e.t, Next(s, e).threads[e.t]);
  }

  /** Rounds are made: n threads that have taken N steps have stored var2 at least (N - 9n) / 10 times. */
  lemma {:induction false} ProgressBound(n: nat, es: seq<Event>)
    requires Run(Start(n), es).Some?
    ensures var u := Run(Start(n), es).value;
      && Steps(es) <= 10 * u.stored2 + Positions(u.threads)
      && Steps(es) <= 10 * u.stored2 + 9 * n
    decreases |es|
  {
    hide Next, Enabled, Positions;
    if es == [] {
    } else {
      var es', e := es[..|es| - 1], es[|es| - 1];
      ProgressBound(n, es');
      StepCounted(Run(Start(n), es').value, e);
      assert es == es' + [e];
      CountAppend(es', [e], IsStep);
    }
    RunInv(n, es);
  }

  lemma Go(s: State, es: seq<Event>, m: State, t: nat) returns (es': seq<Event>, m': State)
    requires Run(s, es) == Some(m) && Enabled(m, Step(t))
    ensures es' == es + [Step(t)] && m' == Next(m, Step(t)) && Run(s, es') == Some(m')
  {
    Extend(s, es, t, m);
    es', m' := es + [Step(t)], Next(m, Step(t));
  }

  /** From any state whatever in which it is at the head of its loop, a thread nobody interferes with levels
      the counters if they differ, counts its work, and raises both: the round ends with var1 == var2. */
  lemma RoundFromAnyState(s: State, t: nat) returns (es: seq<Event>, m: State)
    requires t < |s.threads| && s.threads[t].pc == ReadLeft
    ensures Run(s, es) == Some(m) && forall e :: e in es ==> e == Step(t)
    ensures |m.threads| == |s.threads| && m.threads[t].pc == ReadLeft
    ensures m.var1 == m.var2 == s.var2 + 1 && m.var3 == s.var3 + 1
  {
    hide Run;
    assert Run(s, []) == Some(s) by { RunNothing(s); }
    es, m := Go(s, [], s, t);
    es, m := Go(s, es, m, t);
    if m.threads[t].pc == RepairLoad {
      es, m := Go(s, es, m, t);
      es, m := Go(s, es, m, t);
    }
    assert m.var1 == m.var2 == s.var2 && m.var3 == s.var3 && m.threads[t].pc == WorkLoad;
    es, m := Increments(s, es, m, t);
  }

  lemma RunNothing(s: State)
    ensures Run(s, []) == Some(s)
  {
  }

  lemma Increments(s: State, es: seq<Event>, m: State, t: nat) returns (es': seq<Event>, m': State)
    requires Run(s, es) == Some(m) && t < |m.threads| && m.threads[t].pc == WorkLoad
    requires forall e :: e in es ==> e == Step(t)
    ensures Run(s, es') == Some(m') && forall e :: e in es' ==> e == Step(t)
    ensures |m'.threads| == |m.threads| && m'.threads[t].pc == ReadLeft
    ensures m'.var1 == m.var1 + 1 && m'.var2 == m.var2 + 1 && m'.var3 == m.var3 + 1
  {
    hide Run;
    es', m' := Go(s, es, m, t);
    es', m' := Go(s, es', m', t);
    es', m' := Go(s, es', m', t);
    es', m' := Go(s, es', m', t);
    es', m' := Go(s, es', m', t);
    es', m' := Go(s, es', m', t);
  }

  // ---------------------------------------------------------------- program

  /** The globals and threads of the program, updated in place. */
  class Counters {
    var threads: seq<Thread>
    var var1: int
    var var2: int
    var var3: int
    ghost var stored1: nat
    ghost var stored2: nat
    ghost var stored3: nat

    ghost function Snapshot(): State
      reads this
    {
      State(threads, var1, var2, var3, stored1, stored2, stored3)
    }

    constructor (n: nat)
      ensures Snapshot() == Start(n)
    {
      threads := seq(n, i => Thread(ReadLeft, 0, 0));
      var1, var2, var3 := 0, 0, 0;
      stored1, stored2, stored3 := 0, 0, 0;
    }

    /** Thread t executes its next access; false when it has been cancelled. */
    method StepThread(t: nat) returns (ok: bool)
      modifies this
      ensures ok == Enabled(old(Snapshot()), Step(t))
      ensures Snapshot() == if ok then Next(old(Snapshot()), Step(t)) else old(Snapshot())
    {
      if t >= |threads| {
        return false;
      }
      var me := threads[t];
      ok := true;
      match me.pc {
        case ReadLeft => me := me.(left := var1, pc := Compare);
        case Compare =>
          if me.left != var2 {
            me := me.(pc := RepairLoad);
          } else {
            me := me.(pc := WorkLoad);
          }
        case RepairLoad => me := me.(reg := var2, pc := RepairStore);
        case RepairStore => var1, me := me.reg, me.(pc := WorkLoad);
        case WorkLoad => me := me.(reg := var3, pc := WorkStore);
        case WorkStore => var3, stored3, me := me.reg + 1, stored3 + 1, me.(pc := Load1);
        case Load1 => me := me.(reg := var1, pc := Store1);
        case Store1 => var1, stored1, me := me.reg + 1, stored1 + 1, me.(pc := Load2);
        case Load2 => me := me.(reg := var2, pc := Store2);
        case Store2 => var2, stored2, me := me.reg + 1, stored2 + 1, me.(pc := ReadLeft);
        case Cancelled(_) => return false;
      }
      threads := threads[t := me];
    }

    /** pthread_cancel takes effect on thread t, wherever it is. */
    method CancelThread(t: nat) returns (ok: bool)
      modifies this
      ensures ok == (t < |old(threads)| && !old(threads)[t].pc.Cancelled?)
      ensures ok == Enabled(old(Snapshot()), Cancel(t))
      ensures Snapshot() == if ok then Next(old(Snapshot()), Cancel(t)) else old(Snapshot())
    {
      ok := t < |threads| && !threads[t].pc.Cancelled?;
      if ok {
        var me := threads[t];
        threads := threads[t := me.(pc := Cancelled(Between(me)))];
      }
    }

    /** Under any schedule updates are only ever lost. */
    method Interleave(schedule: seq<Event>) returns (ghost taken: seq<Event>)
      requires Snapshot() == Start(|threads|)
      modifies this
      ensures Run(old(Snapshot()), taken) == Some(Snapshot())
      ensures Run(old(Snapshot()), schedule).Some? ==> taken == schedule
      ensures 0 <= var1 <= stored1 && 0 <= var2 <= stored2 && 0 <= var3 <= stored3
      ensures stored2 <= stored1 <= stored2 + |old(threads)|
      ensures |old(threads)| == 1 ==> var1 == stored1 && var2 == stored2
    {
      hide Enabled, Next, Start;
      taken := [];
      ghost var start, count := Snapshot(), |threads|;
      for n := 0 to |schedule|
        invariant Run(start, taken) == Some(Snapshot())
        invariant Run(start, schedule[..n]).Some? ==> taken == schedule[..n]
      {
        var e := schedule[n];
        assert schedule[..n + 1] == schedule[..n] + [e] && schedule[..n + 1][..n] == schedule[..n];
        var ok;
        if e.Step? {
          ok := StepThread(e.t);
        } else {
          ok := CancelThread(e.t);
        }
        if ok {
          assert (taken + [e])[..|taken|] == taken;
          taken := taken + [e];
        }
      }
      assert schedule[..|schedule|] == schedule;
      RacesOnlyLose(count, taken);
      if count == 1 {
        SingleThreadExact(taken);
      }
    }
  }
}
