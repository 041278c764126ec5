/** Any number of threads that keep two counters equal under a mutex, and may be cancelled anywhere.

    Each increment is a load and a store. Cancellation is asynchronous: it can stop a thread between
    any two accesses, and a thread stopped inside the critical section leaves the mutex locked. */
module MutexCounters {
  import opened Common

  datatype Pc =
    | Lock | ReadLeft | Compare | RepairLoad | RepairStore
    | WorkLoad | WorkStore | Load1 | Store1 | Load2 | Store2 | Unlock
    | Cancelled

  datatype Thread = Thread(pc: Pc, left: int, reg: int)

  datatype State = State(
    owner: Option<nat>, threads: seq<Thread>,
    var1: int, var2: int, var3: int,
    stored1: nat, stored2: nat, repairs: nat)   // history: completed increments, repairs

  predicate Init(s: State)
  {
    && s.owner == None
    && (forall t :: 0 <= t < |s.threads| ==> s.threads[t].pc == Lock)
    && s.var1 == s.var2 == s.var3 == 0
    && s.stored1 == s.stored2 == s.repairs == 0
  }

  datatype Event = Step(t: nat) | Cancel(t: nat)

  predicate Enabled(s: State, e: Event)
  {
    && e.t < |s.threads| && s.threads[e.t].pc != Cancelled
    && (e.Step? && s.threads[e.t].pc == Lock ==> s.owner == None)
  }

  function Goto(s: State, t: nat, pc: Pc): State
    requires t < |s.threads|
  {
    s.(threads := s.threads[t := s.threads[t].(pc := pc)])
  }

  function Load(s: State, t: nat, value: int, pc: Pc): State
    requires t < |s.threads|
  {
    s.(threads := s.threads[t := s.threads[t].(reg := value, pc := pc)])
  }

  function Next(s: State, e: Event): State
    requires Enabled(s, e)
  {
    var t := e.t;
    var me := s.threads[t];
    if e.Cancel? then Goto(s, t, Cancelled)
    else
      match me.pc
      case Lock => Goto(s, t, ReadLeft).(owner := Some(t))
      case ReadLeft => s.(threads := s.threads[t := me.(left := s.var1, pc := Compare)])
      case Compare => Goto(s, t, if me.left != s.var2 then RepairLoad else WorkLoad)
      case RepairLoad => Load(s, t, s.var2, RepairStore)
      case RepairStore => Goto(s, t, WorkLoad).(var1 := me.reg, repairs := s.repairs + 1)
      case WorkLoad => Load(s, t, s.var3, WorkStore)
      case WorkStore => Goto(s, t, Load1).(var3 := me.reg + 1)
      case Load1 => Load(s, t, s.var1, Store1)
      case Store1 => Goto(s, t, Load2).(var1 := me.reg + 1, stored1 := s.stored1 + 1)
      case Load2 => Load(s, t, s.var2, Store2)
      case Store2 => Goto(s, t, Unlock).(var2 := me.reg + 1, stored2 := s.stored2 + 1)
      case Unlock => Goto(s, t, Lock).(owner := None)
  }

  function Run(s: State, es: seq<Event>): Option<State>
    decreases |es|
  {
    if es == [] then Some(s)
    else
      match Run(s, es[..|es| - 1])
      case None => None
      case Some(m) => if Enabled(m, es[|es| - 1]) then Some(Next(m, es[|es| - 1])) else None
  }

  // -------------------------------------------------------------- invariant

  predicate Inside(pc: Pc) { pc !in {Lock, Cancelled} }

  /** Nobody is inside without owning the mutex, and an owner that is not inside was cancelled there. */
  predicate Exclusive(s: State)
  {
    && (forall t :: 0 <= t < |s.threads| && Inside(s.threads[t].pc) ==> s.owner == Some(t))
    && (s.owner.Some? ==> s.owner.value < |s.threads| && s.threads[s.owner.value].pc != Lock)
  }

  /** What the thread that holds the mutex knows at each point. */
  predicate HolderKnows(s: State, me: Thread)
  {
    match me.pc
    case ReadLeft => Level(s)
    case Compare => Level(s) && me.left == s.var1
    case RepairLoad => false
    case RepairStore => false
    case WorkLoad => Level(s)
    case WorkStore => Level(s) && me.reg == s.var3
    case Load1 => s.var1 == s.var2 == s.var3 - 1
    case Store1 => s.var1 == s.var2 == s.var3 - 1 == me.reg
    case Load2 => s.var2 + 1 == s.var1 == s.var3
    case Store2 => s.var2 + 1 == s.var1 == s.var3 && me.reg == s.var2
    case Unlock => Level(s)
    case Lock => false
    case Cancelled => s.var2 <= s.var1 <= s.var3 <= s.var2 + 1
  }

  /** All three counters stand at the same number of rounds. */
  predicate Level(s: State) { s.var1 == s.var2 == s.var3 }

  predicate Inv(s: State)
  {
    && Exclusive(s)
    && (if s.owner == None then Level(s) else HolderKnows(s, s.threads[s.owner.value]))
    && s.var1 == s.stored1 && s.var2 == s.stored2 && s.repairs == 0
  }

  lemma InitInv(s: State)
    requires Init(s)
    ensures Inv(s)
  {
  }

  lemma StepInv(s: State, e: Event)
    requires Inv(s) && Enabled(s, e)
    ensures Inv(Next(s, e)) && |Next(s, e).threads| == |s.threads|
  {
  }

  lemma {:induction false} RunInv(s: State, es: seq<Event>)
    requires Inv(s) && Run(s, es).Some?
    ensures Inv(Run(s, es).value)
    ensures |Run(s, es).value.threads| == |s.threads|
    decreases |es|
  {
    hide Inv, Next, Enabled;
    if es == [] {
    } else {
      RunInv(s, es[..|es| - 1]);
      StepInv(Run(s, es[..|es| - 1]).value, es[|es| - 1]);
    }
  }

  // ------------------------------------------------------------- properties

  /** For any number of threads, any interleaving and any cancellations: the counters, var3 included,
      differ by at most the round in progress, var1 and var2 equal the increments completed on them, nobody ever takes
      the repair branch, and whenever the mutex is free the counters are equal. */
  lemma CountersAgree(s: State, es: seq<Event>)
    requires Init(s) && Run(s, es).Some?
    ensures var u := Run(s, es).value;
      && u.var2 <= u.var1 <= u.var3 <= u.var2 + 1
      && u.var1 == u.stored1 && u.var2 == u.stored2
      && u.repairs == 0
      && (forall t :: 0 <= t < |u.threads| ==> u.threads[t].pc !in {RepairLoad, RepairStore})
      && (u.owner == None ==> u.var1 == u.var2 == u.var3)
  {
    InitInv(s);
    RunInv(s, es);
  }

  /** The mutex is held by a thread that was cancelled. */
  predicate Orphaned(s: State)
  {
    s.owner.Some? && s.owner.value < |s.threads| && s.threads[s.owner.value].pc == Cancelled
  }

  /** After a cancellation that leaves the mutex locked, nothing any thread does changes the counters. */
  lemma {:induction false} OrphanedForever(s: State, es: seq<Event>)
    requires Inv(s) && Orphaned(s) && Run(s, es).Some?
    ensures var u := Run(s, es).value;
      && u.var1 == s.var1 && u.var2 == s.var2 && u.var3 == s.var3
      && u.owner == s.owner && Orphaned(u)
    decreases |es|
  {
    if es == [] {
    } else {
      OrphanedForever(s, es[..|es| - 1]);
      RunInv(s, es[..|es| - 1]);
    }
  }

  ghost predicate SomeoneCanStep(s: State)
  {
    exists t :: Enabled(s, Step(t))
  }

  /** It does happen, at any point of a round: cancelling the holder leaves the mutex locked. */
  lemma CancelledHolderOrphans(s: State, es: seq<Event>, u: State, t: nat)
    requires Init(s) && Run(s, es) == Some(u)
    requires t < |u.threads| && u.owner == Some(t) && u.threads[t].pc != Cancelled
    ensures Run(s, es + [Cancel(t)]).Some? && Orphaned(Run(s, es + [Cancel(t)]).value)
  {
    assert (es + [Cancel(t)])[..|es|] == es;
  }

  /** The program is stuck exactly when every thread is cancelled or a cancelled one holds the mutex. */
  lemma StuckIff(s: State, es: seq<Event>)
    requires Init(s) && Run(s, es).Some?
    ensures var u := Run(s, es).value;
      !SomeoneCanStep(u) <==>
        Orphaned(u) || (forall t :: 0 <= t < |u.threads| ==> u.threads[t].pc == Cancelled)
  {
    InitInv(s);
    RunInv(s, es);
    var u := Run(s, es).value;
    if u.owner.Some? {
      if !Orphaned(u) {
        assert Enabled(u, Step(u.owner.value));
      }
    } else if t :| 0 <= t < |u.threads| && u.threads[t].pc != Cancelled {
      assert Enabled(u, Step(t));
    }
  }

  // --------------------------------------------------------------- progress

  predicate IsStep(e: Event) { e.Step? }

  function Steps(es: seq<Event>): nat { Count(es, IsStep) }

  /** How far the round in progress has got; after storing var2, one step short of the next round. */
  function Position(pc: Pc): int
  {
    match pc
    case ReadLeft => 1
    case Compare => 2
    case WorkLoad => 3
    case WorkStore => 4
    case Load1 => 5
    case Store1 => 6
    case Load2 => 7
    case Store2 => 8
    case Unlock => -1
    case _ => 0
  }

  /** Rounds of ten steps, and the part of one that is in progress. */
  predicate StepsAccounted(s: State, n: int)
  {
    if s.owner == None then n == 10 * s.var2
    else if s.owner.value < |s.threads| && s.threads[s.owner.value].pc != Cancelled then
      n == 10 * s.var2 + Position(s.threads[s.owner.value].pc)
    else n <= 10 * s.var2 + 8
  }

  lemma StepCounted(s: State, e: Event, n: int)
    requires Inv(s) && Enabled(s, e) && StepsAccounted(s, n)
    ensures StepsAccounted(Next(s, e), if e.Step? then n + 1 else n)
  {
  }

  lemma {:induction false} RunCounted(s: State, es: seq<Event>)
    requires Init(s) && Run(s, es).Some?
    ensures StepsAccounted(Run(s, es).value, Steps(es))
    decreases |es|
  {
    hide Inv, Next, Enabled, StepsAccounted, Init;
    if es == [] {
      StartCounted(s);
    } else {
      var es', e := es[..|es| - 1], es[|es| - 1];
      RunCounted(s, es');
      InitInv(s);
      RunInv(s, es');
      StepCounted(Run(s, es').value, e, Steps(es'));
      assert es == es' + [e];
      CountAppend(es', [e], IsStep);
    }
  }

  lemma StartCounted(s: State)
    requires Init(s)
    ensures StepsAccounted(s, 0)
  {
  }

  /** Rounds are made: in every run the threads take at most 10 * var2 + 8 steps, cancelled threads
      included, so a run of N steps has made at least (N - 8) / 10 rounds. */
  lemma ProgressBound(s: State, es: seq<Event>)
    requires Init(s) && Run(s, es).Some?
    ensures Steps(es) <= 10 * Run(s, es).value.var2 + 8
    ensures Run(s, es).value.owner == None ==> Steps(es) == 10 * Run(s, es).value.var2
  {
    hide Run, Steps;
    RunCounted(s, es);
  }

  /** Thread t has the mutex all the way from u until just before the end of the run. */
  predicate HeldThroughout(u: State, es: seq<Event>, t: nat)
  {
    forall k :: 0 <= k < |es| ==> Run(u, es[..k]).Some? && Run(u, es[..k]).value.owner == Some(t)
  }

  /** Inside a round: var2 is still what it was until its store. */
  predicate InRound(s: State, t: nat, base: int)
  {
    && t < |s.threads| && s.owner == Some(t)
    && (s.threads[t].pc != Cancelled ==> s.var2 == base + (if s.threads[t].pc == Unlock then 1 else 0))
  }

  lemma RoundStep(s: State, t: nat, base: int, e: Event)
    requires Inv(s) && Enabled(s, e) && InRound(s, t, base)
    ensures var v := Next(s, e);
      if v.owner == None then v.var1 == v.var2 == v.var3 == base + 1 else InRound(v, t, base)
  {
  }

  /** A thread that has taken the mutex raises each of the three counters by exactly one before it gives
      it up, whatever the others do meanwhile. */
  lemma {:induction false} RoundRaisesByOne(u: State, es: seq<Event>, t: nat)
    requires Inv(u) && t < |u.threads| && u.owner == Some(t) && u.threads[t].pc == ReadLeft
    requires Run(u, es).Some? && HeldThroughout(u, es, t)
    ensures var v := Run(u, es).value;
      if v.owner == None then v.var1 == u.var1 + 1 && v.var2 == u.var2 + 1 && v.var3 == u.var3 + 1
      else InRound(v, t, u.var2)
    decreases |es|
  {
    if es == [] {
    } else {
      hide Inv, Next, Enabled, InRound;
      var es' := es[..|es| - 1];
      assert forall k :: 0 <= k < |es'| ==> es'[..k] == es[..k];
      RoundRaisesByOne(u, es', t);
      RunInv(u, es');
      RoundStep(Run(u, es').value, t, u.var2, es[|es| - 1]);
      LevelAtStart(u, t);
    }
  }

  lemma LevelAtStart(u: State, t: nat)
    requires Inv(u) && t < |u.threads| && u.owner == Some(t) && u.threads[t].pc == ReadLeft
    ensures u.var1 == u.var2 == u.var3
  {
  }

  lemma Go(s: State, es: seq<Event>, m: State, t: nat) returns (es': seq<Event>, m': State)
    requires Run(s, es) == Some(m) && Enabled(m, Step(t))
    ensures es' == es + [Step(t)] && m' == Next(m, Step(t)) && Run(s, es') == Some(m')
  {
    es', m' := es + [Step(t)], Next(m, Step(t));
    assert es'[..|es|] == es;
  }

  /** From any state whatever in which it finds the mutex free, a thread left to itself makes a whole round:
      it levels the counters if they differ, counts its work, and raises both. */
  lemma RoundFromAnyState(s: State, t: nat) returns (es: seq<Event>, m: State)
    requires t < |s.threads| && s.threads[t].pc == Lock && s.owner == None
    ensures Run(s, es) == Some(m) && forall e :: e in es ==> e == Step(t)
    ensures m.owner == None && |m.threads| == |s.threads| && m.threads[t].pc == Lock
    ensures m.var1 == m.var2 == s.var2 + 1 && m.var3 == s.var3 + 1
  {
    hide Run;
    assert Run(s, []) == Some(s) by { RunNothing(s); }
    es, m := Go(s, [], s, t);
    es, m := Go(s, es, m, t);
    es, m := Go(s, es, m, t);
    if m.threads[t].pc == RepairLoad {
      es, m := Go(s, es, m, t);
      es, m := Go(s, es, m, t);
    }
    assert m.var1 == m.var2 == s.var2 && m.var3 == s.var3 && m.threads[t].pc == WorkLoad;
    es, m := Increments(s, es, m, t);
  }

  lemma RunNothing(s: State)
    ensures Run(s, []) == Some(s)
  {
  }

  lemma Increments(s: State, es: seq<Event>, m: State, t: nat) returns (es': seq<Event>, m': State)
    requires Run(s, es) == Some(m) && t < |m.threads| && m.threads[t].pc == WorkLoad
    requires forall e :: e in es ==> e == Step(t)
    ensures Run(s, es') == Some(m') && forall e :: e in es' ==> e == Step(t)
    ensures m'.owner == None && |m'.threads| == |m.threads| && m'.threads[t].pc == Lock
    ensures m'.var1 == m.var1 + 1 && m'.var2 == m.var2 + 1 && m'.var3 == m.var3 + 1
  {
    hide Run;
    es', m' := Go(s, es, m, t);
    es', m' := Go(s, es', m', t);
    es', m' := Go(s, es', m', t);
    es', m' := Go(s, es', m', t);
    es', m' := Go(s, es', m', t);
    es', m' := Go(s, es', m', t);
    es', m' := Go(s, es', m', t);
  }

  // ---------------------------------------------------------------- program

  /** The globals and threads of the program, updated in place. */
  class Counters {
    var owner: Option<nat>
    var threads: seq<Thread>
    var var1: int
    var var2: int
    var var3: int
    ghost var stored1: nat
    ghost var stored2: nat
    ghost var repairs: nat

    ghost function Snapshot(): State
      reads this
    {
      State(owner, threads, var1, var2, var3, stored1, stored2, repairs)
    }

    constructor (n: nat)
      ensures Init(Snapshot()) && |threads| == n
    {
      owner, threads := None, seq(n, i => Thread(Lock, 0, 0));
      var1, var2, var3 := 0, 0, 0;
      stored1, stored2, repairs := 0, 0, 0;
    }

    /** Thread t executes its next access; false when it is cancelled or the mutex is taken. */
    method StepThread(t: nat) returns (ok: bool)
      modifies this
      ensures ok == Enabled(old(Snapshot()), Step(t))
      ensures Snapshot() == if ok then Next(old(Snapshot()), Step(t)) else old(Snapshot())
    {
      if t >= |threads| {
        return false;
      }
      var me := threads[t];
      ok := true;
      match me.pc {
        case Lock =>
          if owner != None {
            return false;
          }
          owner, me := Some(t), me.(pc := ReadLeft);
        case ReadLeft => me := me.(left := var1, pc := Compare);
        case Compare =>
          if me.left != var2 {
            me := me.(pc := RepairLoad);
          } else {
            me := me.(pc := WorkLoad);
          }
        case RepairLoad => me := me.(reg := var2, pc := RepairStore);
        case RepairStore => var1, repairs, me := me.reg, repairs + 1, me.(pc := WorkLoad);
        case WorkLoad => me := me.(reg := var3, pc := WorkStore);
        case WorkStore => var3, me := me.reg + 1, me.(pc := Load1);
        case Load1 => me := me.(reg := var1, pc := Store1);
        case Store1 => var1, stored1, me := me.reg + 1, stored1 + 1, me.(pc := Load2);
        case Load2 => me := me.(reg := var2, pc := Store2);
        case Store2 => var2, stored2, me := me.reg + 1, stored2 + 1, me.(pc := Unlock);
        case Unlock => owner, me := None, me.(pc := Lock);
        case Cancelled => return false;
      }
      threads := threads[t := me];
    }

    /** pthread_cancel takes effect on thread t, wherever it is. */
    method CancelThread(t: nat) returns (ok: bool)
      modifies this
      ensures ok == (t < |old(threads)| && old(threads)[t].pc != Cancelled)
      ensures ok == Enabled(old(Snapshot()), Cancel(t))
      ensures Snapshot() == if ok then Next(old(Snapshot()), Cancel(t)) else old(Snapshot())
    {
      ok := t < |threads| && threads[t].pc != Cancelled;
      if ok {
        threads := threads[t := threads[t].(pc := Cancelled)];
      }
    }

    /** Under any schedule of steps and cancellations the counters stay together. */
    method Interleave(schedule: seq<Event>) returns (ghost taken: seq<Event>)
      requires Init(Snapshot())
      modifies this
      ensures Run(old(Snapshot()), taken) == Some(Snapshot())
      ensures Run(old(Snapshot()), schedule).Some? ==> taken == schedule
      ensures var2 <= var1 <= var3 <= var2 + 1 && var1 == stored1 && var2 == stored2 && repairs == 0
    {
      hide Enabled, Next;
      taken := [];
      ghost var start := Snapshot();
      for n := 0 to |schedule|
        invariant Run(start, taken) == Some(Snapshot())
        invariant Run(start, schedule[..n]).Some? ==> taken == schedule[..n]
      {
        var e := schedule[n];
        assert schedule[..n + 1] == schedule[..n] + [e] && schedule[..n + 1][..n] == schedule[..n];
        var ok;
        if e.Step? {
          ok := StepThread(e.t);
        } else {
          ok := CancelThread(e.t);
        }
        if ok {
          assert (taken + [e])[..|taken|] == taken;
          taken := taken + [e];
        }
      }
      assert schedule[..|schedule|] == schedule;
      CountersAgree(start, taken);
    }
  }
}
