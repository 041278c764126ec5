/** The two ring programs as they run: shared memory, semaphores and each process's locals are one
    mutable object, every method is one access made by one process, and a schedule interleaves them. */
module ShmProcesses {
  import opened Common
  import Ring = ShmRing

  class Processes {
    var buffer: array<Ring.Cell>
    var head: nat
    var tail: nat
    var prodNamed: bool
    var consNamed: bool
    var semProd: nat
    var semCons: nat
    var p: Ring.ProducerPc
    var counter: nat
    var c: Ring.ConsumerPc
    var value: Ring.Cell
    ghost var produced: nat
    ghost var log: seq<nat>

    ghost function Snapshot(): Ring.State
      reads this, buffer
    {
      Ring.State(buffer[..], head, tail, prodNamed, consNamed, semProd, semCons, p, counter, c, value, produced, log)
    }

    /** A fresh segment of any contents, before either process has started. */
    constructor (size: nat, contents: array<Ring.Cell>, head0: nat, tail0: nat)
      requires contents.Length == size > 0
      ensures buffer == contents && Snapshot().buffer == contents[..] && Ring.Init(Snapshot())
    {
      buffer, head, tail := contents, head0, tail0;
      prodNamed, consNamed, semProd, semCons := false, false, 0, 0;
      p, counter, c, value := Ring.OpenProd, 0, Ring.FindProd, Ring.Cell(0, 0);
      produced, log := 0, [];
    }

    /** One access by the producer before its loop. */
    method InitialiseStep()
      requires |Snapshot().buffer| > 0 && Ring.Initialising(Snapshot())
      modifies this
      ensures buffer == old(buffer)
      ensures Ring.Enabled(old(Snapshot()), Ring.ProducerStep)
      ensures Snapshot() == Ring.Next(old(Snapshot()), Ring.ProducerStep)
    {
      hide Rem, Ring.ConsumerNext;
      match p
      case OpenProd => prodNamed, semProd, p := true, buffer.Length, Ring.OpenCons;
      case OpenCons => consNamed, semCons, p := true, 0, Ring.SetHead;
      case SetHead => head, p := 0, Ring.SetTail;
      case SetTail => tail, counter, p := 0, 0, Ring.WaitSpace;
    }

    /** Store one half of the counter into the slot at head. */
    method StoreHalf() returns (ok: bool)
      requires |Snapshot().buffer| > 0 && (p == Ring.WriteLow || p == Ring.WriteHigh)
      modifies this, buffer
      ensures buffer == old(buffer)
      ensures ok == Ring.Enabled(old(Snapshot()), Ring.ProducerStep)
      ensures Snapshot() == if ok then Ring.Next(old(Snapshot()), Ring.ProducerStep) else old(Snapshot())
    {
      hide Rem, Ring.ConsumerNext;
      ok := head < buffer.Length;
      if ok {
        if p == Ring.WriteLow {
          buffer[head] := buffer[head].(low := counter % Ring.HALF);
          p := Ring.WriteHigh;
        } else {
          buffer[head] := buffer[head].(high := counter / Ring.HALF);
          p := Ring.Advance;
        }
      }
    }

    /** Advance head and the counter. */
    method NextSlot()
      requires |Snapshot().buffer| > 0 && p == Ring.Advance
      modifies this
      ensures buffer == old(buffer)
      ensures Ring.Enabled(old(Snapshot()), Ring.ProducerStep)
      ensures Snapshot() == Ring.Next(old(Snapshot()), Ring.ProducerStep)
    {
      hide Rem, Ring.ConsumerNext;
      head := Rem(head + 1, buffer.Length);
      counter := Rem(counter + 1, Ring.WRAP);
      produced := produced + 1;
      p := Ring.PostItem;
    }

    /** One access by the producer; false when it is blocked or has ended. */
    method ProducerStep() returns (ok: bool)
      requires |Snapshot().buffer| > 0
      modifies this, buffer
      ensures buffer == old(buffer)
      ensures ok == Ring.Enabled(old(Snapshot()), Ring.ProducerStep)
      ensures Snapshot() == if ok then Ring.Next(old(Snapshot()), Ring.ProducerStep) else old(Snapshot())
    {
      hide Rem, Ring.ConsumerNext;
      ok := true;
      match p
      case WaitSpace =>
        if semProd == 0 {
          return false;
        }
        semProd, p := semProd - 1, Ring.WriteLow;
      case WriteLow => ok := StoreHalf();
      case WriteHigh => ok := StoreHalf();
      case Advance => NextSlot();
      case PostItem => semCons, p := semCons + 1, Ring.WaitSpace;
      case Finished => return false;
      case _ => InitialiseStep();
    }

    /** Load one half of the slot at tail. */
    method LoadHalf() returns (ok: bool)
      requires |Snapshot().buffer| > 0 && (c == Ring.ReadLow || c == Ring.ReadHigh)
      modifies this
      ensures buffer == old(buffer)
      ensures ok == Ring.Enabled(old(Snapshot()), Ring.ConsumerStep)
      ensures Snapshot() == if ok then Ring.Next(old(Snapshot()), Ring.ConsumerStep) else old(Snapshot())
    {
      hide Rem, Ring.ProducerNext;
      ok := tail < buffer.Length;
      if ok {
        if c == Ring.ReadLow {
          value, c := value.(low := buffer[tail].low), Ring.ReadHigh;
        } else {
          value, c := value.(high := buffer[tail].high), Ring.Retire;
        }
      }
    }

    /** One access by the consumer; false when it is blocked or has ended. */
    method ConsumerStep() returns (ok: bool)
      requires |Snapshot().buffer| > 0
      modifies this
      ensures buffer == old(buffer)
      ensures ok == Ring.Enabled(old(Snapshot()), Ring.ConsumerStep)
      ensures Snapshot() == if ok then Ring.Next(old(Snapshot()), Ring.ConsumerStep) else old(Snapshot())
    {
      hide Rem, Ring.ProducerNext;
      ok := true;
      match c
      case FindProd => c := if prodNamed then Ring.FindCons else Ring.Left;
      case FindCons => c := if consNamed then Ring.WaitItem else Ring.Left;
      case WaitItem =>
        if semCons == 0 {
          return false;
        }
        semCons, c := semCons - 1, Ring.ReadLow;
      case ReadLow => ok := LoadHalf();
      case ReadHigh => ok := LoadHalf();
      case Retire =>
        tail := Rem(tail + 1, buffer.Length);
        log := log + [Ring.Join(value)];
        c := Ring.PostSpace;
      case PostSpace => semProd, c := semProd + 1, Ring.WaitItem;
      case Left => return false;
    }

    /** A termination request seen at the head of either loop. */
    method Stop(e: Ring.Event) returns (ok: bool)
      requires |Snapshot().buffer| > 0 && (e == Ring.ProducerStop || e == Ring.ConsumerStop)
      modifies this
      ensures buffer == old(buffer)
      ensures ok == if e == Ring.ProducerStop then old(p) == Ring.WaitSpace else old(c) == Ring.WaitItem
      ensures ok == Ring.Enabled(old(Snapshot()), e)
      ensures Snapshot() == if ok then Ring.Next(old(Snapshot()), e) else old(Snapshot())
    {
      ok := if e == Ring.ProducerStop then p == Ring.WaitSpace else c == Ring.WaitItem;
      if ok {
        if e == Ring.ProducerStop {
          p, prodNamed, consNamed := Ring.Finished, false, false;
        } else {
          c := Ring.Left;
        }
      }
    }

    /** Run both processes under any schedule, passing over requests that are not possible: whatever
        the schedule, what the consumer has read is 0, 1, 2, ...; and every possible run is made as scheduled. */
    method Interleave(schedule: seq<Ring.Event>) returns (ghost taken: seq<Ring.Event>)
      requires Ring.Init(Snapshot())
      modifies this, buffer
      ensures Ring.Run(old(Snapshot()), taken) == Some(Snapshot())
      ensures Ring.Run(old(Snapshot()), schedule).Some? ==> taken == schedule
      ensures forall i :: 0 <= i < |log| ==> log[i] == i % 0x1_0000_0000_0000_0000
    {
      hide Rem, Ring.Enabled, Ring.Next;
      taken := [];
      ghost var start := Snapshot();
      for n := 0 to |schedule|
        invariant buffer == old(buffer) && |start.buffer| == buffer.Length > 0
        invariant Ring.Run(start, taken) == Some(Snapshot())
        invariant Ring.Run(start, schedule[..n]).Some? ==> taken == schedule[..n]
      {
        var e := schedule[n];
        assert schedule[..n + 1] == schedule[..n] + [e] && schedule[..n + 1][..n] == schedule[..n];
        var ok;
        match e {
          case ProducerStep => ok := ProducerStep();
          case ConsumerStep => ok := ConsumerStep();
          case ProducerStop => ok := Stop(e);
          case ConsumerStop => ok := Stop(e);
        }
        if ok {
          assert (taken + [e])[..|taken|] == taken;
          taken := taken + [e];
        }
      }
      assert schedule[..|schedule|] == schedule;
      Ring.DeliveredInOrder(start, taken);
    }
  }
}
