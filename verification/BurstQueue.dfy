/** Draining a message queue: a sender puts a burst of numbered messages into a bounded queue while the
    receiver waits for the first one, makes the queue non-blocking and reads until it is empty.

    The flag belongs to the queue description both threads use, so from the switch on the sender no
    longer waits for room either: a send into a full queue fails. A signal can interrupt either thread
    while it waits: the receiver on an empty queue, which then goes on as if it had received something, and
    the sender on a full one, which then goes on to the next message. */
module BurstQueue {
  import opened Common

  datatype Pc = WaitFirst | SwitchMode | Draining | Stopped

  datatype State = State(
    burst: nat, capacity: nat,
    next: nat,               // the sender's loop counter
    queue: seq<nat>, nonblock: bool,
    pc: Pc, drained: nat,
    sent: seq<nat>, failed: nat,       // history: messages accepted, sends that failed
    received: seq<nat>, gotFirst: bool,
    atStop: nat)                       // history: messages accepted when the drain ended

  function Start(burst: nat, capacity: nat): State
  {
    State(burst, capacity, 0, [], false, WaitFirst, 0, [], 0, [], false, 0)
  }

  datatype Event =
    | Send | SendRefused | SendInterrupted
    | ReceiveFirst | FirstInterrupted | Switch
    | DrainOne | DrainEmpty | DrainInterrupted

  predicate Enabled(s: State, e: Event)
  {
    match e
    case Send => s.next < s.burst && |s.queue| < s.capacity
    case SendRefused => s.next < s.burst && |s.queue| >= s.capacity && s.nonblock
    case SendInterrupted => s.next < s.burst && |s.queue| >= s.capacity && !s.nonblock
    case ReceiveFirst => s.pc == WaitFirst && s.queue != []
    case FirstInterrupted => s.pc == WaitFirst && s.queue == []
    case Switch => s.pc == SwitchMode
    case DrainOne => s.pc == Draining && s.queue != []
    case DrainEmpty => s.pc == Draining && s.queue == []
    case DrainInterrupted => s.pc == Draining
  }

  function Next(s: State, e: Event): State
    requires Enabled(s, e)
  {
    match e
    case Send => s.(next := s.next + 1, queue := s.queue + [s.next], sent := s.sent + [s.next])
    case SendRefused => s.(next := s.next + 1, failed := s.failed + 1)
    case SendInterrupted => s.(next := s.next + 1, failed := s.failed + 1)
    case ReceiveFirst =>
      s.(queue := s.queue[1..], received := s.received + [s.queue[0]], gotFirst := true, pc := SwitchMode)
    case FirstInterrupted => s.(pc := SwitchMode)
    case Switch => s.(nonblock := true, pc := Draining)
    case DrainOne =>
      s.(queue := s.queue[1..], received := s.received + [s.queue[0]], drained := s.drained + 1)
    case DrainEmpty => s.(pc := Stopped, atStop := |s.sent|)
    case DrainInterrupted => s
  }

  function Run(s: State, es: seq<Event>): Option<State>
    decreases |es|
  {
    if es == [] then Some(s)
    else
      match Run(s, es[..|es| - 1])
      case None => None
      case Some(m) => if Enabled(m, es[|es| - 1]) then Some(Next(m, es[|es| - 1])) else None
  }

  // -------------------------------------------------------------- invariant

  predicate Ascending(s: seq<nat>, bound: nat)
  {
    && (forall i, j :: 0 <= i < j < |s| ==> s[i] < s[j])
    && (forall i :: 0 <= i < |s| ==> s[i] < bound)
  }

  predicate Inv(s: State)
  {
    && s.sent == s.received + s.queue
    && Ascending(s.sent, s.next)
    && s.next == |s.sent| + s.failed <= s.burst
    && |s.queue| <= s.capacity
    && |s.received| == s.drained + (if s.gotFirst then 1 else 0)
    && (s.pc == WaitFirst ==> !s.gotFirst && s.drained == 0)
    && (s.nonblock <==> s.pc == Draining || s.pc == Stopped)
    && (s.pc == WaitFirst && s.failed > 0 ==> |s.queue| == s.capacity)
    && (s.pc == Stopped ==> s.atStop == |s.received|)
  }

  lemma AscendingSnoc(s: seq<nat>, next: nat)
    requires Ascending(s, next)
    ensures Ascending(s, next + 1) && Ascending(s + [next], next + 1)
  {
  }

  lemma SenderStep(s: State, e: Event)
    requires Inv(s) && Enabled(s, e) && !ByReceiver(e)
    ensures Inv(Next(s, e))
  {
    hide Ascending;
    AscendingSnoc(s.sent, s.next);
  }

  lemma ReceiverKeeps(s: State, e: Event)
    requires Inv(s) && Enabled(s, e) && ByReceiver(e)
    ensures Inv(Next(s, e))
  {
    hide Ascending;
    if e == ReceiveFirst || e == DrainOne {
      assert s.queue == [s.queue[0]] + s.queue[1..];
    }
  }

  lemma StepInv(s: State, e: Event)
    requires Inv(s) && Enabled(s, e)
    ensures Inv(Next(s, e))
    ensures Next(s, e).burst == s.burst && Next(s, e).capacity == s.capacity
  {
    hide Inv;
    if ByReceiver(e) {
      ReceiverKeeps(s, e);
    } else {
      SenderStep(s, e);
    }
  }

  lemma {:induction false} RunInv(burst: nat, capacity: nat, es: seq<Event>)
    requires Run(Start(burst, capacity), es).Some?
    ensures var t := Run(Start(burst, capacity), es).value;
      Inv(t) && t.burst == burst && t.capacity == capacity
    decreases |es|
  {
    hide Enabled, Next;
    if es == [] {
    } else {
      RunInv(burst, capacity, es[..|es| - 1]);
      StepInv(Run(Start(burst, capacity), es[..|es| - 1]).value, es[|es| - 1]);
    }
  }

  // ------------------------------------------------------------- properties

  /** In every interleaving the messages received followed by those still queued are exactly the
      messages accepted, in the order sent; the first message and the drained ones together are the
      messages received, and never more than the burst. */
  lemma NothingLostInQueue(burst: nat, capacity: nat, es: seq<Event>)
    requires Run(Start(burst, capacity), es).Some?
    ensures var t := Run(Start(burst, capacity), es).value;
      && t.received + t.queue == t.sent
      && (forall i, j :: 0 <= i < j < |t.sent| ==> t.sent[i] < t.sent[j])
      && |t.sent| + t.failed == t.next <= burst
      && (if t.gotFirst then 1 else 0) + t.drained == |t.received| <= burst
  {
    RunInv(burst, capacity, es);
  }

  lemma {:induction false} AscendingBelow(s: seq<nat>, i: nat)
    requires i < |s| && forall x, y :: 0 <= x < y < |s| ==> s[x] < s[y]
    ensures s[i] >= i
  {
    if i == 0 {
    } else {
      AscendingBelow(s, i - 1);
    }
  }

  lemma {:induction false} AscendingAbove(s: seq<nat>, bound: nat, i: nat)
    requires Ascending(s, bound) && i < |s|
    ensures s[i] + |s| <= bound + i
    decreases |s| - i
  {
    if i == |s| - 1 {
    } else {
      AscendingAbove(s, bound, i + 1);
    }
  }

  lemma {:induction false} FailureNeedsOverfullBurst(burst: nat, capacity: nat, es: seq<Event>)
    requires burst <= capacity && Run(Start(burst, capacity), es).Some?
    ensures Run(Start(burst, capacity), es).value.failed == 0
    decreases |es|
  {
    if es == [] {
    } else {
      RunInv(burst, capacity, es[..|es| - 1]);
      FailureNeedsOverfullBurst(burst, capacity, es[..|es| - 1]);
    }
  }

  /** A burst that fits the queue is delivered as it was sent: what was received and what is queued are
      the messages 0, 1, 2, ... up to the sender's counter. */
  lemma FittingBurstInOrder(burst: nat, capacity: nat, es: seq<Event>)
    requires burst <= capacity && Run(Start(burst, capacity), es).Some?
    ensures var t := Run(Start(burst, capacity), es).value;
      && |t.received + t.queue| == t.next
      && forall i :: 0 <= i < t.next ==> (t.received + t.queue)[i] == i
  {
    RunInv(burst, capacity, es);
    FailureNeedsOverfullBurst(burst, capacity, es);
    var t := Run(Start(burst, capacity), es).value;
    forall i | 0 <= i < t.next
      ensures t.sent[i] == i
    {
      AscendingBelow(t.sent, i);
      AscendingAbove(t.sent, t.next, i);
    }
  }

  lemma Extend(s: State, es: seq<Event>, m: State, e: Event) returns (es': seq<Event>, m': State)
    requires Run(s, es) == Some(m) && Enabled(m, e)
    ensures es' == es + [e] && m' == Next(m, e) && Run(s, es') == Some(m')
  {
    es', m' := es + [e], Next(m, e);
    assert es'[..|es|] == es;
  }

  /** The sender puts k messages into the queue. */
  lemma {:induction false} SendMany(s: State, es: seq<Event>, m: State, k: nat)
      returns (es': seq<Event>, m': State)
    requires Run(s, es) == Some(m) && m.next + k <= m.burst && |m.queue| + k <= m.capacity
    ensures Run(s, es') == Some(m')
    ensures m' == m.(next := m.next + k, queue := m'.queue, sent := m'.sent) && |m'.queue| == |m.queue| + k
    ensures FirstUndisturbed(es) ==> FirstUndisturbed(es')
    ensures SenderUndisturbed(es) ==> SenderUndisturbed(es')
  {
    if k == 0 {
      es', m' := es, m;
    } else {
      es', m' := SendMany(s, es, m, k - 1);
      es', m' := Extend(s, es', m', Send);
    }
  }

  /** A run in which no signal ends the receiver's wait for the first message. */
  predicate FirstUndisturbed(es: seq<Event>) { FirstInterrupted !in es }

  /** A run in which no signal ends the sender's wait for room. */
  predicate SenderUndisturbed(es: seq<Event>) { SendInterrupted !in es }

  /** Without the first signal the queue is switched only after a first message. */
  lemma {:induction false} SwitchedAfterFirst(burst: nat, capacity: nat, es: seq<Event>)
    requires Run(Start(burst, capacity), es).Some? && FirstUndisturbed(es)
    ensures var t := Run(Start(burst, capacity), es).value; t.pc != WaitFirst ==> t.gotFirst
    decreases |es|
  {
    if es == [] {
    } else {
      SwitchedAfterFirst(burst, capacity, es[..|es| - 1]);
      assert es[|es| - 1] != FirstInterrupted;
    }
  }

  lemma {:induction false} NothingThroughNoQueue(burst: nat, es: seq<Event>)
    requires Run(Start(burst, 0), es).Some? && FirstUndisturbed(es)
    ensures var t := Run(Start(burst, 0), es).value;
      t.pc == WaitFirst && (SenderUndisturbed(es) ==> t.failed == 0)
    decreases |es|
  {
    if es == [] {
    } else {
      NothingThroughNoQueue(burst, es[..|es| - 1]);
      RunInv(burst, 0, es[..|es| - 1]);
    }
  }

  /** With the first message out of the queue there is room for one more than the queue holds. */
  lemma {:induction false} FirstMakesRoom(burst: nat, capacity: nat, es: seq<Event>)
    requires burst <= capacity + 1 && Run(Start(burst, capacity), es).Some?
    requires FirstUndisturbed(es) && SenderUndisturbed(es)
    ensures Run(Start(burst, capacity), es).value.failed == 0
    decreases |es|
  {
    if es == [] {
    } else {
      var es' := es[..|es| - 1];
      FirstMakesRoom(burst, capacity, es');
      RunInv(burst, capacity, es');
      SwitchedAfterFirst(burst, capacity, es');
      assert es[|es| - 1] != SendInterrupted;
    }
  }

  /** No interleaving makes a send fail, whatever waits are interrupted. */
  ghost predicate NeverFails(burst: nat, capacity: nat)
  {
    forall es :: Run(Start(burst, capacity), es).Some? ==> Run(Start(burst, capacity), es).value.failed == 0
  }

  /** The same for the runs in which at most the sender is interrupted. */
  ghost predicate NeverFailsAfterFirst(burst: nat, capacity: nat)
  {
    forall es :: Run(Start(burst, capacity), es).Some? && FirstUndisturbed(es) ==>
      Run(Start(burst, capacity), es).value.failed == 0
  }

  /** The same for the runs in which at most the receiver is interrupted. */
  ghost predicate NeverFailsBySignal(burst: nat, capacity: nat)
  {
    forall es :: Run(Start(burst, capacity), es).Some? && SenderUndisturbed(es) ==>
      Run(Start(burst, capacity), es).value.failed == 0
  }

  /** The same for the runs in which neither is. */
  ghost predicate NeverFailsUndisturbed(burst: nat, capacity: nat)
  {
    forall es :: Run(Start(burst, capacity), es).Some? && FirstUndisturbed(es) && SenderUndisturbed(es) ==>
      Run(Start(burst, capacity), es).value.failed == 0
  }

  /** A signal before the first message lets the receiver switch the queue before any room was made. */
  lemma SignalToReceiverFails(burst: nat, capacity: nat) returns (es: seq<Event>)
    requires burst > capacity
    ensures Run(Start(burst, capacity), es).Some? && SenderUndisturbed(es)
    ensures Run(Start(burst, capacity), es).value.failed > 0
  {
    hide Run;
    var s := Start(burst, capacity);
    var m := s;
    assert Run(s, []) == Some(s) by { RunNothing(s); }
    es, m := Extend(s, [], s, FirstInterrupted);
    es, m := Extend(s, es, m, Switch);
    es, m := SendMany(s, es, m, capacity);
    es, m := Extend(s, es, m, SendRefused);
  }

  /** A signal while the sender waits for room costs it the message. */
  lemma SignalToSenderFails(burst: nat, capacity: nat) returns (es: seq<Event>)
    requires burst > capacity
    ensures Run(Start(burst, capacity), es).Some? && FirstUndisturbed(es)
    ensures Run(Start(burst, capacity), es).value.failed > 0
  {
    hide Run;
    var s := Start(burst, capacity);
    var m := s;
    assert Run(s, []) == Some(s) by { RunNothing(s); }
    es, m := SendMany(s, [], s, capacity);
    es, m := Extend(s, es, m, SendInterrupted);
  }

  lemma RunNothing(s: State)
    ensures Run(s, []) == Some(s)
  {
  }

  /** If a signal may end the wait for the first message, or the sender's wait for room, or either, then
      no send ever fails if and only if the burst fits into the queue. */
  lemma NeverFailsIff(burst: nat, capacity: nat)
    ensures NeverFails(burst, capacity) <==> burst <= capacity
    ensures NeverFailsAfterFirst(burst, capacity) <==> burst <= capacity
    ensures NeverFailsBySignal(burst, capacity) <==> burst <= capacity
  {
    hide Run;
    if burst <= capacity {
      forall es | Run(Start(burst, capacity), es).Some?
        ensures Run(Start(burst, capacity), es).value.failed == 0
      {
        FailureNeedsOverfullBurst(burst, capacity, es);
      }
    } else {
      var es := SignalToReceiverFails(burst, capacity);
      var es' := SignalToSenderFails(burst, capacity);
    }
  }

  /** If no signal does, one message more is safe, the one the receiver has taken out before it makes the
      switch; through a queue without room nothing is ever sent, so nothing fails. */
  lemma NeverFailsUndisturbedIff(burst: nat, capacity: nat)
    ensures NeverFailsUndisturbed(burst, capacity) <==> burst <= capacity + 1 || capacity == 0
  {
    if burst <= capacity + 1 || capacity == 0 {
      forall es | Run(Start(burst, capacity), es).Some? && FirstUndisturbed(es) && SenderUndisturbed(es)
        ensures Run(Start(burst, capacity), es).value.failed == 0
      {
        if capacity == 0 {
          NothingThroughNoQueue(burst, es);
        } else {
          FirstMakesRoom(burst, capacity, es);
        }
      }
    } else {
      var s := Start(burst, capacity);
      var es, m := SendMany(s, [], s, capacity);
      es, m := Extend(s, es, m, ReceiveFirst);
      es, m := Extend(s, es, m, Switch);
      es, m := Extend(s, es, m, Send);
      es, m := Extend(s, es, m, SendRefused);
      assert m.failed > 0;
    }
  }

  /** The drain ends only when it sees the queue empty: it has then received everything accepted so
      far, and what is queued afterwards was sent later. */
  lemma StopsWhenEmpty(burst: nat, capacity: nat, es: seq<Event>)
    requires Run(Start(burst, capacity), es).Some?
    ensures var t := Run(Start(burst, capacity), es).value;
      t.pc == Stopped ==>
        && t.atStop <= |t.sent|
        && t.received == t.sent[..t.atStop] && t.queue == t.sent[t.atStop..]
  {
    RunInv(burst, capacity, es);
  }

  /** The sender may be slower than the drain, which then misses the rest of the burst. */
  lemma DrainMayStopEarly(burst: nat, capacity: nat) returns (es: seq<Event>)
    requires burst >= 2 && capacity >= 1
    ensures Run(Start(burst, capacity), es).Some? && FirstUndisturbed(es)
    ensures var t := Run(Start(burst, capacity), es).value; t.pc == Stopped && t.received == [0]
  {
    var s := Start(burst, capacity);
    var m := s;
    es := [];
    es, m := Extend(s, es, m, Send);
    es, m := Extend(s, es, m, ReceiveFirst);
    es, m := Extend(s, es, m, Switch);
    es, m := Extend(s, es, m, DrainEmpty);
  }

  /** Every drain that ends has received the whole burst. */
  ghost predicate DrainsAll(burst: nat, capacity: nat)
  {
    forall es | Run(Start(burst, capacity), es).Some? ::
      var t := Run(Start(burst, capacity), es).value;
      t.pc == Stopped ==> |t.received| == burst
  }

  ghost predicate DrainsAllAfterFirst(burst: nat, capacity: nat)
  {
    forall es | Run(Start(burst, capacity), es).Some? && FirstUndisturbed(es) ::
      var t := Run(Start(burst, capacity), es).value;
      t.pc == Stopped ==> |t.received| == burst
  }

  /** Draining gets the whole burst for certain only when there is at most one message to get (or none
      can pass): for anything longer the outcome depends on how fast the sender is. If the wait for the
      first message may be interrupted, not even one is certain. */
  lemma DrainsAllIff(burst: nat, capacity: nat)
    ensures DrainsAllAfterFirst(burst, capacity) <==> burst <= 1 || capacity == 0
    ensures DrainsAll(burst, capacity) <==> burst == 0
  {
    if burst <= 1 || capacity == 0 {
      forall es | Run(Start(burst, capacity), es).Some? && FirstUndisturbed(es)
          && Run(Start(burst, capacity), es).value.pc == Stopped
        ensures |Run(Start(burst, capacity), es).value.received| == burst
      {
        RunInv(burst, capacity, es);
        SwitchedAfterFirst(burst, capacity, es);
        if capacity == 0 {
          NothingThroughNoQueue(burst, es);
        }
      }
    } else {
      var es := DrainMayStopEarly(burst, capacity);
    }
    if burst == 0 {
      forall es | Run(Start(burst, capacity), es).Some?
        ensures |Run(Start(burst, capacity), es).value.received| == 0
      {
        RunInv(burst, capacity, es);
      }
    } else {
      var s := Start(burst, capacity);
      var es, m := Extend(s, [], s, FirstInterrupted);
      es, m := Extend(s, es, m, Switch);
      es, m := Extend(s, es, m, DrainEmpty);
      assert |m.received| == 0;
    }
  }

  predicate ByReceiver(e: Event) { e !in {Send, SendRefused, SendInterrupted} }

  function ReceiverSteps(es: seq<Event>): nat { Count(es, ByReceiver) }

  function Interruptions(es: seq<Event>): nat { Count(es, (e: Event) => e == DrainInterrupted) }

  function Phase(pc: Pc): nat
  {
    match pc
    case WaitFirst => 0
    case SwitchMode => 1
    case Draining => 2
    case Stopped => 3
  }

  lemma ReceiverStep(s: State, e: Event)
    requires Enabled(s, e)
    ensures var t := Next(s, e);
      && |s.received| + Phase(s.pc) + (if ByReceiver(e) && e != DrainInterrupted then 1 else 0)
          <= |t.received| + Phase(t.pc)
      && t.next == s.next + (if ByReceiver(e) then 0 else 1)
  {
  }

  lemma {:induction false} ReceiverStepsCounted(burst: nat, capacity: nat, es: seq<Event>)
    requires Run(Start(burst, capacity), es).Some?
    ensures var t := Run(Start(burst, capacity), es).value;
      && ReceiverSteps(es) <= |t.received| + Interruptions(es) + Phase(t.pc)
      && |es| == ReceiverSteps(es) + t.next
    decreases |es|
  {
    hide Enabled, Next, Phase;
    if es == [] {
    } else {
      var es', e := es[..|es| - 1], es[|es| - 1];
      ReceiverStepsCounted(burst, capacity, es');
      ReceiverStep(Run(Start(burst, capacity), es').value, e);
      assert es == es' + [e];
      CountAppend(es', [e], ByReceiver);
      CountAppend(es', [e], (x: Event) => x == DrainInterrupted);
    }
  }

  /** The drain terminates: the receiver takes at most burst + 3 steps besides the interrupted reads,
      and until it has stopped it can always take one unless it waits for the first message. */
  lemma DrainTerminates(burst: nat, capacity: nat, es: seq<Event>)
    requires Run(Start(burst, capacity), es).Some?
    ensures ReceiverSteps(es) <= burst + Interruptions(es) + 3
    ensures var t := Run(Start(burst, capacity), es).value;
      && (t.pc == SwitchMode ==> Enabled(t, Switch))
      && (t.pc == Draining ==> Enabled(t, DrainOne) || Enabled(t, DrainEmpty))
  {
    RunInv(burst, capacity, es);
    ReceiverStepsCounted(burst, capacity, es);
  }

  // ---------------------------------------------------- the program comes to its end

  /** Both threads are done, so that the join returns. */
  predicate Finished(s: State) { s.next == s.burst && s.pc == Stopped }

  /** Some thread can move by itself, without being interrupted. */
  ghost predicate CanMove(s: State)
  {
    exists e :: e !in {FirstInterrupted, DrainInterrupted, SendInterrupted} && Enabled(s, e)
  }

  ghost predicate NeverStuck(burst: nat, capacity: nat)
  {
    forall es :: Run(Start(burst, capacity), es).Some? ==>
      Finished(Run(Start(burst, capacity), es).value) || CanMove(Run(Start(burst, capacity), es).value)
  }

  lemma SomebodyMoves(s: State)
    requires Inv(s) && s.burst >= 1 && s.capacity >= 1 && !Finished(s)
    ensures CanMove(s)
  {
    if s.pc == SwitchMode {
      assert Enabled(s, Switch);
    } else if s.pc == Draining {
      assert Enabled(s, DrainOne) || Enabled(s, DrainEmpty);
    } else if s.pc == WaitFirst && s.queue != [] {
      assert Enabled(s, ReceiveFirst);
    } else {
      assert Enabled(s, Send) || Enabled(s, SendRefused);
    }
  }

  /** The whole program ends: it takes at most 2 * burst + 3 steps besides interrupted reads, and until
      both threads are done one of them can move, if and only if there is a message to send and room in
      the queue to send it. */
  lemma BothThreadsEndIff(burst: nat, capacity: nat)
    ensures NeverStuck(burst, capacity) <==> burst >= 1 && capacity >= 1
    ensures forall es :: Run(Start(burst, capacity), es).Some? ==> |es| <= 2 * burst + 3 + Interruptions(es)
  {
    forall es | Run(Start(burst, capacity), es).Some?
      ensures |es| <= 2 * burst + 3 + Interruptions(es)
      ensures burst >= 1 && capacity >= 1 ==>
        Finished(Run(Start(burst, capacity), es).value) || CanMove(Run(Start(burst, capacity), es).value)
    {
      RunInv(burst, capacity, es);
      ReceiverStepsCounted(burst, capacity, es);
      var t := Run(Start(burst, capacity), es).value;
      if burst >= 1 && capacity >= 1 && !Finished(t) {
        SomebodyMoves(t);
      }
    }
    if burst == 0 || capacity == 0 {
      assert Run(Start(burst, capacity), []) == Some(Start(burst, capacity));
      assert !CanMove(Start(burst, capacity));
    }
  }

  // ---------------------------------------------------------------- program

  /** The queue and both threads of the program, updated in place. */
  class Programs {
    const burst: nat
    const capacity: nat
    var next: nat
    var queue: seq<nat>
    var nonblock: bool
    var pc: Pc
    var drained: nat
    ghost var sent: seq<nat>
    ghost var failed: nat
    ghost var received: seq<nat>
    ghost var gotFirst: bool
    ghost var atStop: nat

    ghost function Snapshot(): State
      reads this
    {
      State(burst, capacity, next, queue, nonblock, pc, drained, sent, failed, received, gotFirst, atStop)
    }

    constructor (burst: nat, capacity: nat)
      ensures Snapshot() == Start(burst, capacity)
    {
      this.burst, this.capacity := burst, capacity;
      next, queue, nonblock, pc, drained := 0, [], false, WaitFirst, 0;
      sent, failed, received, gotFirst, atStop := [], 0, [], false, 0;
    }

    /** One round of the sender's loop: mq_send succeeds, fails, or waits (and then ok is false) unless a
        signal ends the wait. */
    method SendNext(interrupted: bool) returns (ok: bool, e: Event)
      modifies this
      ensures ok ==> !ByReceiver(e) && Enabled(old(Snapshot()), e) && (e == SendInterrupted ==> interrupted)
      ensures !ok ==> old(next) >= burst || (|old(queue)| >= capacity && !old(nonblock) && !interrupted)
      ensures Snapshot() == if ok then Next(old(Snapshot()), e) else old(Snapshot())
    {
      ok, e := true, Send;
      if next >= burst || (|queue| >= capacity && !nonblock && !interrupted) {
        return false, e;
      }
      if |queue| < capacity {
        queue := queue + [next];
        sent := sent + [next];
      } else {
        e := if nonblock then SendRefused else SendInterrupted;
        failed := failed + 1;
      }
      next := next + 1;
    }

    /** One step of the receiver; a signal may interrupt the call it makes. */
    method ReceiveNext(interrupted: bool) returns (ok: bool, e: Event)
      modifies this
      ensures ok ==> ByReceiver(e) && Enabled(old(Snapshot()), e)
      ensures ok && e in {FirstInterrupted, DrainInterrupted} ==> interrupted
      ensures old(pc) == Draining && interrupted ==> ok && e == DrainInterrupted
      ensures !ok ==> old(pc) == Stopped || (old(pc) == WaitFirst && old(queue) == [] && !interrupted)
      ensures Snapshot() == if ok then Next(old(Snapshot()), e) else old(Snapshot())
    {
      ok, e := true, Switch;
      match pc
      case WaitFirst =>
        if queue != [] {
          received, gotFirst := received + [queue[0]], true;
          queue, pc, e := queue[1..], SwitchMode, ReceiveFirst;
        } else if interrupted {
          pc, e := SwitchMode, FirstInterrupted;
        } else {
          ok := false;
        }
      case SwitchMode => nonblock, pc := true, Draining;
      case Draining =>
        if interrupted {
          e := DrainInterrupted;
        } else if queue == [] {
          pc, e, atStop := Stopped, DrainEmpty, |sent|;
        } else {
          received := received + [queue[0]];
          queue, drained, e := queue[1..], drained + 1, DrainOne;
        }
      case Stopped => ok := false;
    }

    /** Under any schedule of the two threads and any interruptions, nothing in the queue is lost; and every
        possible run is made as scheduled. */
    method Interleave(schedule: seq<Event>) returns (ghost taken: seq<Event>)
      requires Snapshot() == Start(burst, capacity)
      modifies this
      ensures Run(Start(burst, capacity), taken) == Some(Snapshot())
      ensures Run(Start(burst, capacity), schedule).Some? ==> taken == schedule
      ensures received + queue == sent && |received| <= burst
    {
      taken := [];
      for n := 0 to |schedule|
        invariant Run(Start(burst, capacity), taken) == Some(Snapshot())
        invariant Run(Start(burst, capacity), schedule[..n]).Some? ==> taken == schedule[..n]
      {
        var e := schedule[n];
        assert schedule[..n + 1] == schedule[..n] + [e] && schedule[..n + 1][..n] == schedule[..n];
        var ok;
        ok, e := Try(e);
        if ok {
          assert (taken + [e])[..|taken|] == taken;
          taken := taken + [e];
        }
      }
      assert schedule[..|schedule|] == schedule;
      NothingLostInQueue(burst, capacity, taken);
    }

    /** The thread that e belongs to takes a step, interrupted if e is an interruption. */
    method Try(e: Event) returns (ok: bool, done: Event)
      modifies this
      ensures ok ==> Enabled(old(Snapshot()), done)
      ensures Snapshot() == if ok then Next(old(Snapshot()), done) else old(Snapshot())
      ensures Enabled(old(Snapshot()), e) ==> ok && done == e
    {
      var interrupted := e in {FirstInterrupted, DrainInterrupted, SendInterrupted};
      if ByReceiver(e) {
        ok, done := ReceiveNext(interrupted);
      } else {
        ok, done := SendNext(interrupted);
      }
    }
  }
}
