/** How much a socket has to hold.

    A client can see to it that the lock is never stuck on its account by reading all it was sent before it
    asks for anything more. The module shows that this is enough if and only if a socket holds at least as
    much as the device. */
module SocketSizes {
  import opened Common
  import opened Device
  import opened CommandStream
  import opened Sessions
  import opened SessionBlocking
  import SessionFlags

  // ------------------------------------------------------------------ large enough

  function Unread(s: State, i: nat): int
    requires i < |s.links|
  {
    |s.links[i].wire| - s.links[i].got
  }

  /** Nothing is unread when a session starts on a command, and then no more than the reply to READ. */
  predicate Manageable(s: State, i: nat)
  {
    && i < |s.sessions| == |s.links|
    && match s.sessions[i]
       case Absent => Unread(s, i) <= 0
       case Wants(op) => IsCommand(op) ==> Unread(s, i) <= 0
       case Inside(op, Sending(reply, rest)) => Unread(s, i) + |rest| <= CAPACITY
       case Inside(op, w) => op.Read? && !w.Done? ==> Unread(s, i) <= 0
       case _ => true
  }

  lemma OthersManageable(s: State, e: Event, i: nat)
    requires Enabled(s, e) && Manageable(s, i) && i != e.i
    ensures Manageable(Next(s, e), i)
  {
    hide Parse, Micro, Ready, CString, Render;
  }

  lemma ReplyFits(d: Device)
    requires WellFormed(d)
    ensures |Render(ReadReply(d))| <= CAPACITY
  {
  }

  lemma ProceedManageable(s: State, e: Event)
    requires Enabled(s, e) && Manageable(s, e.i) && e.Proceed?
    ensures Manageable(Next(s, e), e.i)
  {
    hide Render, Room;
    ReplyFits(s.dev);
  }

  lemma OwnManageable(s: State, e: Event)
    requires Enabled(s, e) && Manageable(s, e.i)
    requires e.Receive? ==> AllRead(s, e.i)
    ensures Manageable(Next(s, e), e.i)
  {
    hide Parse, Micro, Ready, CString, Render;
    if e.Proceed? {
      ProceedManageable(s, e);
    }
  }

  lemma {:induction false} RunManageable(s: State, es: seq<Event>, i: nat)
    requires Init(s) && i < |s.sessions| && Run(s, es).Some? && Polite(s, es)
    ensures Manageable(Run(s, es).value, i)
    decreases |es|
  {
    hide Enabled, Next, Manageable;
    if es == [] {
      StartManageable(s, i);
    } else {
      var es', e := es[..|es| - 1], es[|es| - 1];
      RunManageable(s, es', i);
      if e.i == i {
        OwnManageable(Run(s, es').value, e);
      } else {
        OthersManageable(Run(s, es').value, e, i);
      }
    }
  }

  lemma StartManageable(s: State, i: nat)
    requires Init(s) && i < |s.sessions|
    ensures Manageable(s, i)
  {
  }

  lemma LargeSocketsNeverStuck(s: State, es: seq<Event>)
    requires Init(s) && Run(s, es).Some? && Polite(s, es) && s.window >= CAPACITY
    ensures !LockStuck(Run(s, es).value)
  {
    hide Run, Init, Polite, LockStuck;
    RunSizes(s, es);
    LockStuckIff(s, es);
    var u := Run(s, es).value;
    if ReaderBlocked(u) {
      RunManageable(s, es, u.lock.value);
    }
  }

  // --------------------------------------------------------------------- too small

  lemma StartAlone(s: State) returns (es: seq<Event>, m: State)
    requires Init(s) && |s.sessions| >= 1
    ensures Run(s, es) == Some(m) && Polite(s, es)
    ensures Poised(m) && m.lock == None && m.sessions[0] == Idle && AllRead(m, 0)
    ensures m.dev.size == 0 && m.window == s.window
  {
    hide Run;
    RunNothing(s);
    es, m := Go(s, [], s, Arrive(0));
    es, m := Go(s, es, m, Take(0));
    es, m := Go(s, es, m, Proceed(0));
    es, m := Go(s, es, m, Proceed(0));
    es, m := Go(s, es, m, Release(0));
  }

  /** The client reads its answer as it is written. */
  lemma {:induction false} ReadAnswer(s: State, es: seq<Event>, m: State) returns (es': seq<Event>, m': State)
    requires Run(s, es) == Some(m) && Polite(s, es) && m.window >= 1
    requires Poised(m) && m.sessions[0].Answering? && AllRead(m, 0)
    ensures Run(s, es') == Some(m') && Polite(s, es') && OnlyFirst(m, m')
    ensures m'.sessions[0] == Idle && AllRead(m', 0) && m'.dev == m.dev && m'.lock == m.lock
    decreases |m.sessions[0].rest|
  {
    hide Run, Polite;
    es', m' := Go(s, es, m, Send(0));
    if m.sessions[0].rest != [] {
      es', m' := Go(s, es', m', ClientReads(0, 1));
      es', m' := ReadAnswer(s, es', m');
    }
  }

  lemma WriteIsUnderstood()
    ensures Parse(CString("WRITE x")) == Some(Write("x"))
  {
    hide Parse;
    CommandRoundTripIff(Write("x"));
    assert OneRecv(Command(Write("x"))) == "WRITE x";
  }

  /** The client asks to write one byte, and its session gets the lock. */
  lemma AskToWrite(s: State, es: seq<Event>, m: State) returns (es': seq<Event>, m': State)
    requires Run(s, es) == Some(m) && Polite(s, es)
    requires Poised(m) && m.lock == None && m.sessions[0] == Idle && AllRead(m, 0)
    ensures Run(s, es') == Some(m') && Polite(s, es') && OnlyFirst(m, m')
    ensures m'.sessions[0] == Inside(Write("x"), Begin) && AllRead(m', 0)
    ensures m'.dev == m.dev && m'.lock == Some(0) && m'.order != []
  {
    hide Run, Polite, Parse, CString;
    WriteIsUnderstood();
    es', m' := Go(s, es, m, Receive(0, "WRITE x"));
    es', m' := Go(s, es', m', Take(0));
  }

  /** The byte goes into the device. */
  lemma StoreByte(s: State, es: seq<Event>, m: State) returns (es': seq<Event>, m': State)
    requires Run(s, es) == Some(m) && Polite(s, es) && m.dev.size < CAPACITY
    requires Poised(m) && m.lock == Some(0) && m.order != []
    requires m.sessions[0] == Inside(Write("x"), Begin) && AllRead(m, 0)
    ensures Run(s, es') == Some(m') && Polite(s, es') && OnlyFirst(m, m')
    ensures m'.sessions[0].Answering? && AllRead(m', 0)
    ensures m'.dev.size == m.dev.size + 1 && m'.lock == None
  {
    hide Run, Polite, Parse, CString, Render;
    es', m' := Go(s, es, m, Proceed(0));
    es', m' := Go(s, es', m', Proceed(0));
    assert m'.sessions[0].work == Copy(0, 1);
    es', m' := Go(s, es', m', Proceed(0));
    es', m' := Go(s, es', m', Proceed(0));
    es', m' := Go(s, es', m', Release(0));
  }

  /** Session 0 fills the device byte by byte. */
  lemma {:induction false} FillDevice(s: State, es: seq<Event>, m: State, n: nat)
      returns (es': seq<Event>, m': State)
    requires Run(s, es) == Some(m) && Polite(s, es) && m.window >= 1 && m.dev.size <= n <= CAPACITY
    requires Poised(m) && m.lock == None && m.sessions[0] == Idle && AllRead(m, 0)
    ensures Run(s, es') == Some(m') && Polite(s, es') && OnlyFirst(m, m') && m'.dev.size == n
    ensures m'.lock == None && m'.sessions[0] == Idle && AllRead(m', 0)
    decreases n - m.dev.size
  {
    hide Run, Polite, Enabled, Next;
    if m.dev.size == n {
      es', m' := es, m;
    } else {
      es', m' := AskToWrite(s, es, m);
      es', m' := StoreByte(s, es', m');
      es', m' := ReadAnswer(s, es', m');
      es', m' := FillDevice(s, es', m', n);
    }
  }

  /** The contents do not fit the socket: reading them gets the lock stuck. */
  lemma SmallSocketsStuck(s: State) returns (es: seq<Event>)
    requires Init(s) && |s.sessions| >= 1 && s.window < CAPACITY
    ensures Run(s, es).Some? && Polite(s, es) && LockStuck(Run(s, es).value)
  {
    hide Run, Polite, Enabled, Next, LockStuck, Init;
    var m;
    es, m := StartAlone(s);
    if s.window >= 1 {
      es, m := FillDevice(s, es, m, s.window + 1);
    }
    es, m := AskToRead(s, es, m);
    var reply := ReadReply(m.dev);
    es, m := BeginToSend(s, es, m);
    assert |Render(reply)| > m.window;
    var left;
    es, m, left := WriteOut(s, es, m, reply, Render(reply));
    assert left != [];
    LockStuckIff(s, es);
  }

  // ------------------------------------------------------------------- the condition

  /** With n clients that all read what they were sent before they ask again, the lock is never stuck. */
  ghost predicate NeverStuckIfPolite(n: nat, window: nat)
  {
    forall s, es | Init(s) && |s.sessions| == n && s.window == window && Run(s, es).Some? && Polite(s, es) ::
      !LockStuck(Run(s, es).value)
  }

  /** Reading everything before asking again keeps the lock from getting stuck if and only if a socket holds
      what the device does (or there is no client at all). */
  lemma PoliteNeverStuckIff(n: nat, window: nat)
    ensures NeverStuckIfPolite(n, window) <==> window >= 4096 || n == 0
  {
    hide Run, Polite, Init, LockStuck;
    if window >= CAPACITY || n == 0 {
      forall s, es | Init(s) && |s.sessions| == n && s.window == window && Run(s, es).Some? && Polite(s, es)
        ensures !LockStuck(Run(s, es).value)
      {
        if n == 0 {
          NobodyStuck(s, es);
        } else {
          LargeSocketsNeverStuck(s, es);
        }
      }
    } else {
      var s := SessionFlags.StartState(n, window);
      var es := SmallSocketsStuck(s);
    }
  }

  lemma NobodyStuck(s: State, es: seq<Event>)
    requires Init(s) && |s.sessions| == 0 && Run(s, es).Some?
    ensures !LockStuck(Run(s, es).value)
  {
    RunSizes(s, es);
  }
}
