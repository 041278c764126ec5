/** The shared-memory ring: one producer process, one consumer process, two counting semaphores.

    Every access to shared memory or to a semaphore is a step of its own, and a 64-bit slot is
    written and read in two halves, so a torn read is something the model could exhibit. The names of
    the semaphores appear one after the other and head and tail are set only after both exist. */
module ShmRing {
  import opened Common

  const HALF: nat := 0x1_0000_0000
  const WRAP: nat := 0x1_0000_0000_0000_0000

  datatype Cell = Cell(low: nat, high: nat)

  function Split(n: nat): Cell { Cell(n % HALF, n / HALF) }

  function Join(c: Cell): nat { c.low + HALF * c.high }

  /** uint64_t arithmetic: the n-th value of a counter that starts at 0 and wraps. */
  function Wrapped(n: nat): nat { Rem(n, WRAP) }

  datatype ProducerPc =
    | OpenProd | OpenCons | SetHead | SetTail
    | WaitSpace | WriteLow | WriteHigh | Advance | PostItem
    | Finished

  datatype ConsumerPc =
    | FindProd | FindCons
    | WaitItem | ReadLow | ReadHigh | Retire | PostSpace
    | Left

  datatype State = State(
    buffer: seq<Cell>, head: nat, tail: nat,
    prodNamed: bool, consNamed: bool, semProd: nat, semCons: nat,
    p: ProducerPc, counter: nat,
    c: ConsumerPc, value: Cell,
    produced: nat,   // history: how often head was advanced
    log: seq<nat>)   // history: the values the consumer took

  /** Shared memory may hold anything before the producer initialises head and tail. */
  predicate Init(s: State)
  {
    && |s.buffer| > 0
    && !s.prodNamed && !s.consNamed && s.semProd == s.semCons == 0
    && s.p == OpenProd && s.c == FindProd
    && s.produced == 0 && s.log == []
  }

  datatype Event = ProducerStep | ProducerStop | ConsumerStep | ConsumerStop

  predicate Enabled(s: State, e: Event)
  {
    |s.buffer| > 0 &&
    match e
    case ProducerStep =>
      && s.p != Finished
      && (s.p == WaitSpace ==> s.semProd > 0)
      && (s.p in {WriteLow, WriteHigh} ==> s.head < |s.buffer|)
    case ProducerStop => s.p == WaitSpace
    case ConsumerStep =>
      && s.c != Left
      && (s.c == WaitItem ==> s.semCons > 0)
      && (s.c in {ReadLow, ReadHigh} ==> s.tail < |s.buffer|)
    case ConsumerStop => s.c == WaitItem
  }

  function Next(s: State, e: Event): State
    requires Enabled(s, e)
  {
    match e
    case ProducerStep => ProducerNext(s)
    case ProducerStop => s.(p := Finished, prodNamed := false, consNamed := false)
    case ConsumerStep => ConsumerNext(s)
    case ConsumerStop => s.(c := Left)
  }

  function ProducerNext(s: State): State
    requires Enabled(s, ProducerStep)
  {
    match s.p
    case OpenProd => s.(prodNamed := true, semProd := |s.buffer|, p := OpenCons)
    case OpenCons => s.(consNamed := true, semCons := 0, p := SetHead)
    case SetHead => s.(head := 0, p := SetTail)
    case SetTail => s.(tail := 0, counter := 0, p := WaitSpace)
    case WaitSpace => s.(semProd := s.semProd - 1, p := WriteLow)
    case WriteLow => s.(buffer := s.buffer[s.head := s.buffer[s.head].(low := s.counter % HALF)], p := WriteHigh)
    case WriteHigh => s.(buffer := s.buffer[s.head := s.buffer[s.head].(high := s.counter / HALF)], p := Advance)
    case Advance =>
      s.(head := Rem(s.head + 1, |s.buffer|), counter := Rem(s.counter + 1, WRAP),
         produced := s.produced + 1, p := PostItem)
    case PostItem => s.(semCons := s.semCons + 1, p := WaitSpace)
  }

  function ConsumerNext(s: State): State
    requires Enabled(s, ConsumerStep)
  {
    match s.c
    case FindProd => s.(c := if s.prodNamed then FindCons else Left)
    case FindCons => s.(c := if s.consNamed then WaitItem else Left)
    case WaitItem => s.(semCons := s.semCons - 1, c := ReadLow)
    case ReadLow => s.(value := s.value.(low := s.buffer[s.tail].low), c := ReadHigh)
    case ReadHigh => s.(value := s.value.(high := s.buffer[s.tail].high), c := Retire)
    case Retire => s.(tail := Rem(s.tail + 1, |s.buffer|), log := s.log + [Join(s.value)], c := PostSpace)
    case PostSpace => s.(semProd := s.semProd + 1, c := WaitItem)
  }

  /** Execute a schedule; None when it asks for a step that is not possible. */
  function Run(s: State, es: seq<Event>): Option<State>
    decreases |es|
  {
    if es == [] then Some(s)
    else
      match Run(s, es[..|es| - 1])
      case None => None
      case Some(m) => if Enabled(m, es[|es| - 1]) then Some(Next(m, es[|es| - 1])) else None
  }

  // -------------------------------------------------------------- invariant

  predicate Initialising(s: State) { s.p in {OpenProd, OpenCons, SetHead, SetTail} }

  /** The producer holds a space token from its wait to its post; the consumer an item token. */
  function ProducerHolds(s: State): nat { if s.p in {WriteLow, WriteHigh, Advance, PostItem} then 1 else 0 }

  function ConsumerHolds(s: State): nat { if s.c in {ReadLow, ReadHigh, Retire, PostSpace} then 1 else 0 }

  /** Items in the ring, read off the semaphore and the two program counters. */
  function Size(s: State): nat
  {
    s.semCons + (if s.p == PostItem then 1 else 0) + (if s.c in {ReadLow, ReadHigh, Retire} then 1 else 0)
  }

  predicate Tokens(s: State)
  {
    s.semProd + s.semCons + ProducerHolds(s) + ConsumerHolds(s) == |s.buffer|
  }

  predicate Startup(s: State)
  {
    && s.semCons == 0 && s.produced == 0 && s.log == []
    && s.c in {FindProd, FindCons, WaitItem, Left}
    && (s.p != OpenProd ==> s.semProd == |s.buffer|)
    && (s.p == OpenProd ==> !s.prodNamed)
    && (s.p in {OpenProd, OpenCons} ==> !s.consNamed)
    && (s.c == FindCons ==> s.p != OpenProd)
    && (s.c == WaitItem ==> s.p !in {OpenProd, OpenCons})
    && (s.p == SetTail ==> s.head == 0)
    && (s.p != OpenProd ==> s.prodNamed)
    && (s.p in {SetHead, SetTail} ==> s.consNamed)
  }

  /** Slot of the k-th item. */
  function Slot(s: State, k: nat): nat
    requires |s.buffer| > 0
  {
    Rem(k, |s.buffer|)
  }

  predicate ItemsInPlace(s: State)
    requires |s.buffer| > 0
  {
    forall k :: |s.log| <= k < s.produced ==> s.buffer[Slot(s, k)] == Split(Wrapped(k))
  }

  predicate Running(s: State)
  {
    && |s.buffer| > 0
    && Tokens(s)
    && s.produced == |s.log| + Size(s)
    && s.head == Slot(s, s.produced) && s.tail == Slot(s, |s.log|)
    && s.counter == Wrapped(s.produced)
    && ItemsInPlace(s)
    && (s.p == WriteHigh ==> s.buffer[s.head].low == s.counter % HALF)
    && (s.p == Advance ==> s.buffer[s.head] == Split(s.counter))
    && (s.c == ReadHigh ==> s.value.low == Split(Wrapped(|s.log|)).low)
    && (s.c == Retire ==> s.value == Split(Wrapped(|s.log|)))
    && (s.c == PostSpace ==> |s.log| > 0)
    && (s.prodNamed <==> s.p != Finished) && (s.consNamed <==> s.p != Finished)
  }

  predicate Inv(s: State)
  {
    && |s.buffer| > 0
    && (if Initialising(s) then Startup(s) else Running(s))
    && (forall i :: 0 <= i < |s.log| ==> s.log[i] == Wrapped(i))
  }

  lemma InitInv(s: State)
    requires Init(s)
    ensures Inv(s)
  {
  }

  lemma SplitJoin(n: nat)
    ensures Join(Split(n)) == n
  {
  }

  /** The slot being filled is none of the slots that hold items. */
  lemma FreshSlot(s: State, k: nat)
    requires Running(s) && s.p in {WriteLow, WriteHigh}
    requires |s.log| <= k < s.produced
    ensures Slot(s, k) != s.head
  {
    hide Rem;
    SlotsDiffer(k, s.produced, |s.buffer|);
  }

  lemma ProducerWrites(s: State)
    requires Running(s) && s.p in {WriteLow, WriteHigh}
    ensures Enabled(s, ProducerStep) && Running(Next(s, ProducerStep))
  {
    hide Rem;
    var t := Next(s, ProducerStep);
    forall k | |t.log| <= k < t.produced
      ensures t.buffer[Slot(t, k)] == Split(Wrapped(k))
    {
      FreshSlot(s, k);
      assert s.buffer[Slot(s, k)] == Split(Wrapped(k));
    }
    if s.c in {ReadLow, ReadHigh} {
      FreshSlot(s, |s.log|);
    }
  }

  lemma ProducerAdvances(s: State)
    requires Running(s) && s.p == Advance
    ensures Running(Next(s, ProducerStep))
  {
    hide Rem;
    var t := Next(s, ProducerStep);
    SlotOffset(s.produced, 1, |s.buffer|);
    SlotOffset(s.produced, 1, WRAP);
    forall k | |t.log| <= k < t.produced
      ensures t.buffer[Slot(t, k)] == Split(Wrapped(k))
    {
      if k < s.produced {
        assert s.buffer[Slot(s, k)] == Split(Wrapped(k));
      }
    }
  }

  lemma ConsumerReads(s: State)
    requires Running(s) && s.c in {ReadLow, ReadHigh}
    ensures Enabled(s, ConsumerStep) && Running(Next(s, ConsumerStep))
  {
    hide Rem;
    var t := Next(s, ConsumerStep);
    assert s.buffer[Slot(s, |s.log|)] == Split(Wrapped(|s.log|));
    assert forall k :: |t.log| <= k < t.produced ==> s.buffer[Slot(s, k)] == Split(Wrapped(k));
    assert forall k :: Slot(t, k) == Slot(s, k);
  }

  lemma ConsumerRetires(s: State)
    requires Running(s) && s.c == Retire
    ensures Running(Next(s, ConsumerStep))
    ensures Next(s, ConsumerStep).log == s.log + [Wrapped(|s.log|)]
  {
    hide Rem;
    var t := Next(s, ConsumerStep);
    SlotOffset(|s.log|, 1, |s.buffer|);
    SplitJoin(Wrapped(|s.log|));
    forall k | |t.log| <= k < t.produced
      ensures t.buffer[Slot(t, k)] == Split(Wrapped(k))
    {
      assert s.buffer[Slot(s, k)] == Split(Wrapped(k));
    }
  }

  lemma ItemsKept(s: State, t: State)
    requires |s.buffer| > 0 && ItemsInPlace(s)
    requires t.buffer == s.buffer && t.log == s.log && t.produced == s.produced
    ensures ItemsInPlace(t)
  {
    hide Rem;
    forall k | |t.log| <= k < t.produced
      ensures t.buffer[Slot(t, k)] == Split(Wrapped(k))
    {
      assert s.buffer[Slot(s, k)] == Split(Wrapped(k));
    }
  }

  lemma StartupStep(s: State, e: Event)
    requires |s.buffer| > 0 && Initialising(s) && Startup(s) && Enabled(s, e)
    ensures Inv(Next(s, e))
  {
    hide Rem;
    SlotZero(|s.buffer|);
    SlotZero(WRAP);
  }

  lemma ProducerKeepsRunning(s: State)
    requires Running(s) && !Initialising(s) && Enabled(s, ProducerStep)
    ensures Running(Next(s, ProducerStep))
  {
    hide Rem;
    if s.p in {WriteLow, WriteHigh} {
      ProducerWrites(s);
    } else if s.p == Advance {
      ProducerAdvances(s);
    } else {
      ItemsKept(s, Next(s, ProducerStep));
    }
  }

  lemma ConsumerKeepsRunning(s: State)
    requires Running(s) && !Initialising(s) && Enabled(s, ConsumerStep)
    ensures Running(Next(s, ConsumerStep))
  {
    hide Rem;
    if s.c in {ReadLow, ReadHigh} {
      ConsumerReads(s);
    } else if s.c == Retire {
      ConsumerRetires(s);
    } else {
      ItemsKept(s, Next(s, ConsumerStep));
    }
  }

  lemma StopKeepsRunning(s: State, e: Event)
    requires Running(s) && !Initialising(s) && Enabled(s, e) && (e == ProducerStop || e == ConsumerStop)
    ensures Running(Next(s, e))
  {
    hide Rem;
    ItemsKept(s, Next(s, e));
  }

  /** Only retiring an item extends the log, by the value that is due. */
  lemma LogStep(s: State, e: Event)
    requires !Initialising(s) && Running(s) && Enabled(s, e)
    ensures Next(s, e).log == s.log || Next(s, e).log == s.log + [Wrapped(|s.log|)]
  {
    hide Rem, ItemsInPlace;
    SplitJoin(Wrapped(|s.log|));
  }

  lemma ShapeKept(s: State, e: Event)
    requires Enabled(s, e)
    ensures |Next(s, e).buffer| == |s.buffer|
    ensures !Initialising(s) ==> !Initialising(Next(s, e))
  {
    hide Rem;
  }

  lemma StepInv(s: State, e: Event)
    requires Inv(s) && Enabled(s, e)
    ensures Inv(Next(s, e)) && |Next(s, e).buffer| == |s.buffer|
  {
    hide Rem, Running, Startup, Next, Enabled;
    ShapeKept(s, e);
    if Initialising(s) {
      StartupStep(s, e);
    } else {
      LogStep(s, e);
      match e
      case ProducerStep => ProducerKeepsRunning(s);
      case ConsumerStep => ConsumerKeepsRunning(s);
      case ProducerStop => StopKeepsRunning(s, e);
      case ConsumerStop => StopKeepsRunning(s, e);
    }
  }

  lemma {:induction false} RunInv(s: State, es: seq<Event>)
    requires Init(s) && Run(s, es).Some?
    ensures Inv(Run(s, es).value)
    ensures |Run(s, es).value.buffer| == |s.buffer|
    decreases |es|
  {
    hide Inv, Next, Enabled, Init;
    if es == [] {
      InitInv(s);
    } else {
      RunInv(s, es[..|es| - 1]);
      StepInv(Run(s, es[..|es| - 1]).value, es[|es| - 1]);
    }
  }

  // ------------------------------------------------------------- properties

  /** The queue the ring stands for, read from the slots, the semaphore and the program counters. */
  function Queue(s: State): (q: seq<nat>)
    requires |s.buffer| > 0
    ensures |q| == Size(s)
  {
    seq<nat>(Size(s), (i: nat) => Join(s.buffer[Rem(s.tail + i, |s.buffer|)]))
  }

  /** The ring holds the values that follow those already consumed. */
  lemma QueueContents(s: State)
    requires Inv(s)
    ensures s.produced == |s.log| + |Queue(s)|
    ensures |Queue(s)| <= |s.buffer|
    ensures forall i :: 0 <= i < |Queue(s)| ==> Queue(s)[i] == Wrapped(|s.log| + i)
  {
    hide Rem;
    if !Initialising(s) {
      forall i | 0 <= i < Size(s)
        ensures Queue(s)[i] == Wrapped(|s.log| + i)
      {
        SlotOffset(|s.log|, i, |s.buffer|);
        assert s.buffer[Slot(s, |s.log| + i)] == Split(Wrapped(|s.log| + i));
        SplitJoin(Wrapped(|s.log| + i));
      }
    }
  }

  /** Which steps move items, and what the other fields do meanwhile. */
  lemma StepEffect(s: State, e: Event)
    requires Inv(s) && Enabled(s, e)
    ensures var t := Next(s, e);
      && |t.buffer| == |s.buffer|
      && t.produced == s.produced + (if e == ProducerStep && s.p == Advance then 1 else 0)
      && t.log == s.log + (if e == ConsumerStep && s.c == Retire then [Join(s.value)] else [])
      && (e == ProducerStep && s.p == Advance ==> Size(s) < |s.buffer| && s.counter == Wrapped(s.produced))
      && (e == ConsumerStep && s.c == Retire ==> Size(s) > 0 && Join(s.value) == Wrapped(|s.log|))
  {
    hide Rem;
    SplitJoin(Wrapped(|s.log|));
  }

  /** Each step of either process is a step of a bounded first-in first-out queue, or none at all:
      advancing head puts the counter in at the back, retiring a slot takes the value that was read
      out at the front. */
  lemma StepRefinesQueue(s: State, e: Event)
    requires Inv(s) && Enabled(s, e)
    ensures |Next(s, e).buffer| == |s.buffer|
    ensures var t := Next(s, e);
      if e == ProducerStep && s.p == Advance then
        |Queue(s)| < |s.buffer| && Queue(t) == Queue(s) + [s.counter] && t.log == s.log
      else if e == ConsumerStep && s.c == Retire then
        Queue(s) != [] && Join(s.value) == Queue(s)[0] && Queue(t) == Queue(s)[1..] && t.log == s.log + [Queue(s)[0]]
      else Queue(t) == Queue(s) && t.log == s.log
  {
    hide Rem, Inv, Queue, Next, Enabled, Wrapped;
    StepEffect(s, e);
    StepInv(s, e);
    QueueContents(s);
    QueueContents(Next(s, e));
  }

  /** In every interleaving, for every capacity, the consumer has read 0, 1, 2, ... (modulo 2^64):
      nothing lost, repeated or torn. What is still in the ring continues that sequence, and the
      backlog never exceeds the capacity. */
  lemma DeliveredInOrder(s: State, es: seq<Event>)
    requires Init(s) && Run(s, es).Some?
    ensures var t := Run(s, es).value;
      && |t.buffer| == |s.buffer| && |Queue(t)| <= |s.buffer|
      && t.produced == |t.log| + |Queue(t)|
      && (forall i :: 0 <= i < |t.log| ==> t.log[i] == i % 0x1_0000_0000_0000_0000)
      && (forall i :: 0 <= i < |Queue(t)| ==> Queue(t)[i] == (|t.log| + i) % 0x1_0000_0000_0000_0000)
  {
    hide Queue, Run;
    RunInv(s, es);
    QueueContents(Run(s, es).value);
  }

  /** The slot each process works on between its wait and its post. */
  function ProducerSlot(s: State): nat
    requires |s.buffer| > 0
  {
    if s.p == PostItem then Rem(s.head + (|s.buffer| - 1), |s.buffer|) else s.head
  }

  function ConsumerSlot(s: State): nat
    requires |s.buffer| > 0
  {
    if s.c == PostSpace then Rem(s.tail + (|s.buffer| - 1), |s.buffer|) else s.tail
  }

  lemma PreviousSlot(k: nat, n: nat)
    requires k > 0 && n > 0
    ensures Rem(Rem(k, n) + (n - 1), n) == Rem(k - 1, n)
  {
    SlotOffset(k, n - 1, n);
    SlotLap(k - 1, n);
  }

  lemma SlotsApart(s: State)
    requires Running(s) && ProducerHolds(s) == ConsumerHolds(s) == 1
    ensures ProducerSlot(s) != ConsumerSlot(s)
  {
    hide Rem, ItemsInPlace;
    var i := if s.c == PostSpace then |s.log| - 1 else |s.log|;
    var j := if s.p == PostItem then s.produced - 1 else s.produced;
    if s.c == PostSpace {
      PreviousSlot(|s.log|, |s.buffer|);
    }
    if s.p == PostItem {
      PreviousSlot(s.produced, |s.buffer|);
    }
    assert ConsumerSlot(s) == Rem(i, |s.buffer|);
    assert ProducerSlot(s) == Rem(j, |s.buffer|);
    SlotsDiffer(i, j, |s.buffer|);
  }

  /** While both processes are between wait and post they work on different slots. */
  lemma SlotsNeverShared(s: State, es: seq<Event>)
    requires Init(s) && Run(s, es).Some?
    ensures var t := Run(s, es).value;
      |t.buffer| > 0 && (ProducerHolds(t) == ConsumerHolds(t) == 1 ==> ProducerSlot(t) != ConsumerSlot(t))
  {
    hide Rem, Run, Running;
    RunInv(s, es);
    var t := Run(s, es).value;
    if ProducerHolds(t) == ConsumerHolds(t) == 1 {
      SlotsApart(t);
    }
  }

  /** Tokens are conserved, so as long as neither process has left one of them can move. */
  lemma NeverDeadlocks(s: State, es: seq<Event>)
    requires Init(s) && Run(s, es).Some?
    ensures var t := Run(s, es).value;
      && (!Initialising(t) ==> t.semProd + t.semCons + ProducerHolds(t) + ConsumerHolds(t) == |s.buffer|)
      && (t.p != Finished && t.c != Left ==> Enabled(t, ProducerStep) || Enabled(t, ConsumerStep))
      && (t.p in {WriteLow, WriteHigh} ==> t.head < |t.buffer|)
      && (t.c in {ReadLow, ReadHigh} ==> t.tail < |t.buffer|)
  {
    hide Rem;
    RunInv(s, es);
  }

  /** A consumer finds each semaphore exactly while the producer has created and not yet removed it: the
      first while the producer is past its first sem_open, the second while it is past both. */
  lemma ConsumerNeedsProducer(s: State, es: seq<Event>)
    requires Init(s) && Run(s, es).Some?
    ensures var t := Run(s, es).value;
      && (t.c == FindProd ==>
            && Enabled(t, ConsumerStep)
            && Next(t, ConsumerStep).c == if t.p !in {OpenProd, Finished} then FindCons else Left)
      && (t.c == FindCons ==>
            && Enabled(t, ConsumerStep)
            && Next(t, ConsumerStep).c == if t.p !in {OpenProd, OpenCons, Finished} then WaitItem else Left)
  {
    hide Rem, Run, ItemsInPlace, Tokens;
    RunInv(s, es);
  }

  // --------------------------------------------------------------- progress

  /** Steps the producer has taken, from its program counter and the items it produced. */
  function ProducerSteps(s: State): int
  {
    match s.p
    case OpenProd => 0
    case OpenCons => 1
    case SetHead => 2
    case SetTail => 3
    case WaitSpace => 4 + 5 * s.produced
    case WriteLow => 5 + 5 * s.produced
    case WriteHigh => 6 + 5 * s.produced
    case Advance => 7 + 5 * s.produced
    case PostItem => 3 + 5 * s.produced
    case Finished => 5 + 5 * s.produced
  }

  function ConsumerSteps(s: State): int
  {
    var m := |s.log|;
    match s.c
    case FindProd => 0
    case FindCons => 1
    case WaitItem => 2 + 5 * m
    case ReadLow => 3 + 5 * m
    case ReadHigh => 4 + 5 * m
    case Retire => 5 + 5 * m
    case PostSpace => 1 + 5 * m
    case Left => 3 + 5 * m
  }

  lemma ProducerCounts(s: State, e: Event)
    requires Inv(s) && Enabled(s, e) && (e == ProducerStep || e == ProducerStop)
    ensures var t := Next(s, e);
      ProducerSteps(s) + 1 <= ProducerSteps(t) && ConsumerSteps(t) == ConsumerSteps(s)
  {
    hide Rem, ItemsInPlace, Tokens;
  }

  lemma ConsumerCounts(s: State, e: Event)
    requires Inv(s) && Enabled(s, e) && (e == ConsumerStep || e == ConsumerStop)
    ensures var t := Next(s, e);
      ConsumerSteps(s) + 1 <= ConsumerSteps(t) && ProducerSteps(t) == ProducerSteps(s)
  {
    hide Rem, ItemsInPlace, Tokens;
  }

  lemma {:induction false} StepsCounted(s: State, es: seq<Event>)
    requires Init(s) && Run(s, es).Some?
    ensures var t := Run(s, es).value; |es| <= ProducerSteps(t) + ConsumerSteps(t)
    decreases |es|
  {
    hide Inv, Enabled, Next, ProducerSteps, ConsumerSteps;
    if es == [] {
      assert ProducerSteps(s) == 0 && ConsumerSteps(s) == 0 by { StepsAtStart(s); }
    } else {
      var es' := es[..|es| - 1];
      StepsCounted(s, es');
      RunInv(s, es');
      var m, e := Run(s, es').value, es[|es| - 1];
      if e == ProducerStep || e == ProducerStop {
        ProducerCounts(m, e);
      } else {
        ConsumerCounts(m, e);
      }
    }
  }

  lemma StepsAtStart(s: State)
    requires Init(s)
    ensures ProducerSteps(s) == ConsumerSteps(s) == 0
  {
  }

  /** Progress: with five steps to each cycle and capacity B, a run of N steps in which neither
      process has left has consumed more than (N - 5(B + 1) - 5) / 10 items. */
  lemma ProgressBound(s: State, es: seq<Event>)
    requires Init(s) && Run(s, es).Some?
    ensures var t := Run(s, es).value;
      t.p != Finished && t.c != Left ==> 10 * |t.log| > |es| - 5 * (|s.buffer| + 1) - 5
  {
    hide Rem;
    hide Run, ItemsInPlace;
    StepsCounted(s, es);
    RunInv(s, es);
  }

  // ------------------------------------------------------- any number of items

  /** One more step of a run that is being put together. */
  lemma Go(s: State, es: seq<Event>, m: State, e: Event) returns (es': seq<Event>, m': State)
    requires Init(s) && Run(s, es) == Some(m) && Enabled(m, e)
    ensures Run(s, es') == Some(m') && m' == Next(m, e) && Inv(m) && Inv(m')
    ensures |m'.buffer| == |s.buffer|
  {
    hide Inv, Enabled, Next, Init;
    es', m' := es + [e], Next(m, e);
    assert es'[..|es|] == es;
    RunInv(s, es);
    RunInv(s, es');
  }

  /** Both processes are at the head of their loops and the ring is empty. */
  predicate Resting(m: State)
  {
    m.p == WaitSpace && m.c == WaitItem && m.semCons == 0 && m.semProd > 0
  }

  lemma BothOpen(s: State) returns (es: seq<Event>, m: State)
    requires Init(s)
    ensures Run(s, es) == Some(m) && Resting(m) && m.log == []
  {
    hide Run, Inv, Rem;
    assert Run(s, []) == Some(s) by { RunNothing(s); }
    es, m := Go(s, [], s, ProducerStep);
    es, m := Go(s, es, m, ProducerStep);
    es, m := Go(s, es, m, ProducerStep);
    es, m := Go(s, es, m, ProducerStep);
    es, m := Go(s, es, m, ConsumerStep);
    es, m := Go(s, es, m, ConsumerStep);
  }

  lemma RunNothing(s: State)
    ensures Run(s, []) == Some(s)
  {
  }

  lemma InBounds(m: State)
    requires Inv(m) && !Initialising(m)
    ensures m.head < |m.buffer| && m.tail < |m.buffer|
  {
  }

  /** The producer puts one item into the empty ring. */
  lemma ProduceOne(s: State, es: seq<Event>, m: State) returns (es': seq<Event>, m': State)
    requires Init(s) && Run(s, es) == Some(m) && Resting(m)
    ensures Run(s, es') == Some(m') && Inv(m')
    ensures m'.p == WaitSpace && m'.c == WaitItem && m'.semCons == 1 && m'.semProd == m.semProd - 1
    ensures m'.log == m.log
  {
    hide Run, Inv, Rem, Init;
    RunInv(s, es);
    InBounds(m);
    assert |m.buffer| > 0;
    es', m' := Go(s, es, m, ProducerStep);
    es', m' := Go(s, es', m', ProducerStep);
    es', m' := Go(s, es', m', ProducerStep);
    es', m' := Go(s, es', m', ProducerStep);
    es', m' := Go(s, es', m', ProducerStep);
  }

  /** The consumer takes it out. */
  lemma ConsumeOne(s: State, es: seq<Event>, m: State) returns (es': seq<Event>, m': State)
    requires Init(s) && Run(s, es) == Some(m)
    requires m.p == WaitSpace && m.c == WaitItem && m.semCons == 1
    ensures Run(s, es') == Some(m') && Resting(m') && |m'.log| == |m.log| + 1
  {
    hide Run, Inv, Rem, Init;
    RunInv(s, es);
    InBounds(m);
    assert |m.buffer| > 0;
    es', m' := Go(s, es, m, ConsumerStep);
    es', m' := Go(s, es', m', ConsumerStep);
    es', m' := Go(s, es', m', ConsumerStep);
    es', m' := Go(s, es', m', ConsumerStep);
    es', m' := Go(s, es', m', ConsumerStep);
  }

  /** Both processes get going: for every capacity and every k there is a run that has consumed k items, with
      both still at work. */
  lemma {:induction false} AnyNumberConsumed(s: State, k: nat) returns (es: seq<Event>, m: State)
    requires Init(s)
    ensures Run(s, es) == Some(m) && |m.log| == k && m.p == WaitSpace && m.c == WaitItem && Resting(m)
  {
    hide Init, Run;
    if k == 0 {
      es, m := BothOpen(s);
    } else {
      es, m := AnyNumberConsumed(s, k - 1);
      es, m := ProduceOne(s, es, m);
      es, m := ConsumeOne(s, es, m);
    }
  }
}
