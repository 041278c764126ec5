/** When the lock of the device is stuck.

    READ writes its reply into the client's socket while it holds the lock. If the client does not read
    what it is sent, the socket fills up, the write blocks, and nobody else gets the lock any more. The
    module shows that this is the only way to be stuck, that it really happens, that it lasts until the
    client reads, and that reading is all it takes. */
module SessionBlocking {
  import opened Common
  import opened Device
  import opened CommandStream
  import opened Sessions

  /** The session holds the lock or waits for it. */
  predicate NeedsLock(me: Session) { me.Wants? || me.Inside? }

  predicate Moves(s: State, i: nat)
  {
    Enabled(s, Take(i)) || Enabled(s, Proceed(i)) || Enabled(s, Release(i))
  }

  /** Some sessions need the lock, and none of them can take a step. */
  ghost predicate LockStuck(s: State)
  {
    && (exists i :: 0 <= i < |s.sessions| && NeedsLock(s.sessions[i]))
    && (forall i :: 0 <= i < |s.sessions| && NeedsLock(s.sessions[i]) ==> !Moves(s, i))
  }

  /** The holder is writing the reply to READ, and its client leaves no room for it. */
  predicate ReaderBlocked(s: State)
  {
    && s.lock.Some? && s.lock.value < |s.sessions| == |s.links|
    && s.sessions[s.lock.value].Inside? && s.sessions[s.lock.value].op.Read?
    && Blocked(s, s.lock.value)
  }

  lemma HolderMoves(d0: Device, s: State)
    requires Inv(d0, s) && |s.links| == |s.sessions| && s.lock.Some?
    ensures Moves(s, s.lock.value) <==> !ReaderBlocked(s)
  {
    hide Apply, Complete, Replay, Ops, LastArrival, RepliesHonest, WellFormed;
  }

  /** The lock is stuck if and only if its holder is sending the contents to a client that leaves no room
      for them; in particular a free lock never is, and nothing but READ can block it. */
  lemma LockStuckIff(s: State, es: seq<Event>)
    requires Init(s) && Run(s, es).Some?
    ensures LockStuck(Run(s, es).value) <==> ReaderBlocked(Run(s, es).value)
  {
    hide Run, Apply, Complete, Replay, Ops, LastArrival, RepliesHonest, Ready, Micro;
    RunInv(s, es);
    RunSizes(s, es);
    var u := Run(s, es).value;
    if u.lock.Some? {
      HolderMoves(s.dev, u);
    } else {
      forall i | 0 <= i < |u.sessions| && NeedsLock(u.sessions[i])
        ensures Moves(u, i)
      {
        assert Enabled(u, Take(i));
      }
    }
  }

  // ------------------------------------------------------------ it lasts

  /** Client h does not read in this stretch of a run. */
  predicate NeverReads(es: seq<Event>, h: nat)
  {
    forall e: Event :: e in es ==> !(e.ClientReads? && e.i == h)
  }

  /** Nobody who needs the lock has got anywhere since u. */
  predicate StillStuck(u: State, v: State)
  {
    && v.dev == u.dev && v.lock == u.lock && v.order == u.order && v.window == u.window
    && |v.sessions| == |u.sessions| && |v.links| == |u.links|
    && ReaderBlocked(u) && ReaderBlocked(v)
    && v.links[u.lock.value] == u.links[u.lock.value]
    && (forall i :: 0 <= i < |u.sessions| && NeedsLock(u.sessions[i]) ==> v.sessions[i] == u.sessions[i])
  }

  lemma StuckStep(d0: Device, u: State, v: State, e: Event)
    requires Inv(d0, v) && StillStuck(u, v) && Enabled(v, e)
    requires !(e.ClientReads? && e.i == u.lock.value)
    ensures StillStuck(u, Next(v, e))
  {
    hide Apply, Complete, Replay, Ops, LastArrival, RepliesHonest, Ready, Micro, DeviceOnTrack, Parse;
    var h := u.lock.value;
    assert v.sessions[h].Inside? && !v.sessions[h].work.Done?;
    assert !e.Take? && !e.Release?;
    assert !e.Proceed?;
  }

  /** Until that client reads, whatever else happens, the device stays locked and unchanged, and everybody
      who waits for the lock goes on waiting. */
  lemma {:induction false} StuckUntilRead(d0: Device, u: State, es: seq<Event>)
    requires Inv(d0, u) && ReaderBlocked(u) && Run(u, es).Some?
    requires NeverReads(es, u.lock.value)
    ensures Inv(d0, Run(u, es).value) && StillStuck(u, Run(u, es).value)
    decreases |es|
  {
    hide Inv, Enabled, Next, ReaderBlocked;
    if es == [] {
    } else {
      var es', e := es[..|es| - 1], es[|es| - 1];
      assert e in es && forall x :: x in es' ==> x in es;
      StuckUntilRead(d0, u, es');
      StuckStep(d0, u, Run(u, es').value, e);
      StepInv(d0, Run(u, es').value, e);
    }
  }

  // ------------------------------------------------------ reading is all it takes

  predicate ByHolder(e: Event, h: nat)
  {
    e.i == h && (e.Proceed? || e.Release? || e.ClientReads?)
  }

  /** One step on the way to the release: the holder's, or its client's reading. */
  lemma HolderStep(d0: Device, s: State, h: nat) returns (e: Event)
    requires Inv(d0, s) && |s.links| == |s.sessions| && s.window >= 1 && s.lock == Some(h)
    ensures ByHolder(e, h) && Enabled(s, e)
    ensures e.ClientReads? <==> ReaderBlocked(s)
    ensures e.ClientReads? ==> !ReaderBlocked(Next(s, e))
  {
    hide Apply, Complete, Replay, Ops, LastArrival, RepliesHonest, WellFormed, Micro;
    HolderMoves(d0, s);
    if ReaderBlocked(s) {
      e := ClientReads(h, |s.links[h].wire| - s.links[h].got);
    } else if Enabled(s, Proceed(h)) {
      e := Proceed(h);
    } else {
      e := Release(h);
    }
  }

  /** How far the holder is from the release. */
  function Distance(s: State): (nat, nat, nat)
  {
    if s.lock == None || s.lock.value >= |s.sessions| || !s.sessions[s.lock.value].Inside? then (0, 0, 0)
    else
      var w := s.sessions[s.lock.value].work;
      (Stage(w), BytesLeft(w), if ReaderBlocked(s) then 1 else 0)
  }

  predicate Less(a: (nat, nat, nat), b: (nat, nat, nat))
  {
    a.0 < b.0 || (a.0 == b.0 && (a.1 < b.1 || (a.1 == b.1 && a.2 < b.2)))
  }

  lemma HolderStepCloser(d0: Device, s: State, h: nat, e: Event)
    requires Inv(d0, s) && |s.links| == |s.sessions| && s.lock == Some(h)
    requires ByHolder(e, h) && Enabled(s, e)
    requires e.ClientReads? ==> ReaderBlocked(s) && !ReaderBlocked(Next(s, e))
    ensures var u := Next(s, e);
      && |u.links| == |u.sessions| && u.window == s.window
      && (u.lock == None || (u.lock == Some(h) && Less(Distance(u), Distance(s))))
  {
    hide Apply, Complete, Replay, Ops, LastArrival, RepliesHonest, WellFormed, DeviceOnTrack;
  }

  lemma {:induction false} ReleaseFrom(d0: Device, u: State, es: seq<Event>, m: State, h: nat)
      returns (es': seq<Event>, m': State)
    requires Run(u, es) == Some(m) && Inv(d0, m) && |m.links| == |m.sessions| && m.window >= 1
    requires m.lock == None || m.lock == Some(h)
    requires forall e :: e in es ==> ByHolder(e, h)
    ensures Run(u, es') == Some(m') && m'.lock == None
    ensures forall e :: e in es' ==> ByHolder(e, h)
    decreases m.lock.Some?, Distance(m).0, Distance(m).1, Distance(m).2
  {
    hide Inv, Enabled, Next, Distance, ReaderBlocked, Run;
    if m.lock == None {
      es', m' := es, m;
    } else {
      var e := HolderStep(d0, m, h);
      HolderStepCloser(d0, m, h, e);
      StepInv(d0, m, e);
      es', m' := Extend(u, es, m, e);
      es', m' := ReleaseFrom(d0, u, es', m', h);
    }
  }

  /** From wherever the lock is held, steps of the holder and reading by its client are enough to have it
      released. */
  lemma LockCanBeReleased(s: State, es: seq<Event>) returns (es': seq<Event>)
    requires Init(s) && Run(s, es).Some? && s.window >= 1 && Run(s, es).value.lock.Some?
    ensures var u := Run(s, es).value;
      && (forall e :: e in es' ==> ByHolder(e, u.lock.value))
      && Run(u, es').Some? && Run(u, es').value.lock == None
  {
    hide Inv, Enabled, Next, Distance;
    RunInv(s, es);
    RunSizes(s, es);
    var u := Run(s, es).value;
    var m;
    es', m := ReleaseFrom(s.dev, u, [], u, u.lock.value);
  }

  // ----------------------------------------------------------- it happens

  /** Every client has read all it was sent before it asks for anything more. */
  ghost predicate Polite(s: State, es: seq<Event>)
    decreases |es|
  {
    es == [] ||
      var es', e := es[..|es| - 1], es[|es| - 1];
      Polite(s, es') && (e.Receive? ==> Run(s, es').Some? && AllRead(Run(s, es').value, e.i))
  }

  predicate AllRead(s: State, i: nat)
  {
    i < |s.links| && s.links[i].got == |s.links[i].wire|
  }

  /** One more step of a run that is being put together. */
  lemma Go(s: State, es: seq<Event>, m: State, e: Event) returns (es': seq<Event>, m': State)
    requires Run(s, es) == Some(m) && Enabled(m, e)
    ensures m' == Next(m, e) && Run(s, es') == Some(m')
    ensures Polite(s, es) && (e.Receive? ==> AllRead(m, e.i)) ==> Polite(s, es')
  {
    hide Enabled, Next;
    es', m' := Extend(s, es, m, e);
    assert es'[..|es|] == es;
  }

  /** The device can be read, and only session 0 is at work on it. */
  predicate Poised(m: State)
  {
    && |m.sessions| == |m.links| && |m.sessions| >= 1
    && WellFormed(m.dev) && m.dev.perm == ReadWrite
  }

  /** All that stays the same while session 0 is served. */
  predicate OnlyFirst(m: State, m': State)
  {
    && Poised(m') && m'.window == m.window
    && |m'.sessions| == |m.sessions| >= 1 && m'.sessions[1..] == m.sessions[1..]
  }

  function ReadReply(d: Device): (reply: Reply)
    requires WellFormed(d)
    ensures reply.Text? || reply.Empty?
    ensures Render(reply) != [] && |Render(reply)| >= d.size
  {
    assert Render(Empty) == "<buffer empty>\n";
    if d.size > 0 then Text(Contents(d)) else Empty
  }

  lemma ReadIsUnderstood()
    ensures Parse(CString("READ\n")) == Some(Read)
  {
    hide Parse;
    CommandRoundTripIff(Read);
    assert OneRecv(Command(Read)) == "READ\n";
  }

  /** Session 0 asks for the contents and gets the lock. */
  lemma AskToRead(s: State, es: seq<Event>, m: State) returns (es': seq<Event>, m': State)
    requires Run(s, es) == Some(m) && Poised(m) && m.lock == None && m.sessions[0] == Idle
    ensures Run(s, es') == Some(m') && OnlyFirst(m, m') && m'.lock == Some(0) && m'.order != []
    ensures m'.sessions[0] == Inside(Read, Begin) && m'.links == m.links && m'.dev == m.dev
    ensures Polite(s, es) && AllRead(m, 0) ==> Polite(s, es')
  {
    hide Run, Parse, CString, Render, Polite;
    ReadIsUnderstood();
    es', m' := Go(s, es, m, Receive(0, "READ\n"));
    es', m' := Go(s, es', m', Take(0));
  }

  /** It looks at the device and begins to write the reply. */
  lemma BeginToSend(s: State, es: seq<Event>, m: State) returns (es': seq<Event>, m': State)
    requires Run(s, es) == Some(m) && Poised(m) && m.lock == Some(0)
    requires m.sessions[0] == Inside(Read, Begin)
    ensures Run(s, es') == Some(m') && OnlyFirst(m, m') && m'.lock == Some(0) && m'.order == m.order
    ensures m'.sessions[0] == Inside(Read, Sending(ReadReply(m.dev), Render(ReadReply(m.dev))))
    ensures m'.links == m.links && m'.dev == m.dev
    ensures Polite(s, es) ==> Polite(s, es')
  {
    hide Run, Render, Polite;
    es', m' := Go(s, es, m, Proceed(0));
    es', m' := Go(s, es', m', Proceed(0));
  }

  /** Session 0 writes until its reply is out or the socket is full. */
  lemma {:induction false} WriteOut(s: State, es: seq<Event>, m: State, reply: Reply, rest: string)
      returns (es': seq<Event>, m': State, left: string)
    requires Run(s, es) == Some(m) && Poised(m) && m.lock == Some(0)
    requires (reply.Text? || reply.Empty?) && m.sessions[0] == Inside(Read, Sending(reply, rest))
    ensures Run(s, es') == Some(m') && OnlyFirst(m, m') && m'.lock == Some(0) && m'.order == m.order
    ensures m'.sessions[0] == Inside(Read, Sending(reply, left))
    ensures left == [] || Blocked(m', 0)
    ensures |left| < |rest| ==> HasRoom(m, 0) && |m'.links[0].wire| <= m.links[0].got + m.window
    ensures |left| <= |rest| && |m'.links[0].wire| == |m.links[0].wire| + |rest| - |left|
    ensures m'.links[0].got == m.links[0].got
    ensures Polite(s, es) ==> Polite(s, es')
    decreases |rest|
  {
    hide Run, Polite;
    if rest == [] || Blocked(m, 0) {
      es', m', left := es, m, rest;
    } else {
      es', m' := Go(s, es, m, Proceed(0));
      es', m', left := WriteOut(s, es', m', reply, rest[1..]);
    }
  }

  /** The reply is out: session 0 gives the lock up. */
  lemma FinishRead(s: State, es: seq<Event>, m: State, reply: Reply) returns (es': seq<Event>, m': State)
    requires Run(s, es) == Some(m) && Poised(m) && m.lock == Some(0) && m.order != []
    requires (reply.Text? || reply.Empty?) && m.sessions[0] == Inside(Read, Sending(reply, []))
    ensures Run(s, es') == Some(m') && OnlyFirst(m, m') && m'.lock == None && m'.sessions[0] == Idle
    ensures m'.links == m.links
  {
    hide Run, Polite;
    es', m' := Go(s, es, m, Proceed(0));
    es', m' := Go(s, es', m', Release(0));
  }

  /** Session 0 goes on asking for the contents without reading any reply. */
  lemma {:induction false} FillSocket(s: State, es: seq<Event>, m: State) returns (es': seq<Event>, m': State)
    requires Run(s, es) == Some(m) && Poised(m) && m.lock == None && m.sessions[0] == Idle
    ensures Run(s, es') == Some(m') && OnlyFirst(m, m') && ReaderBlocked(m') && m'.lock == Some(0)
    decreases if HasRoom(m, 0) then m.links[0].got + m.window - |m.links[0].wire| else 0
  {
    hide Run, Enabled, Next;
    es', m' := AskToRead(s, es, m);
    var reply := ReadReply(m'.dev);
    es', m' := BeginToSend(s, es', m');
    var left;
    es', m', left := WriteOut(s, es', m', reply, Render(reply));
    if left == [] {
      es', m' := FinishRead(s, es', m', reply);
      es', m' := FillSocket(s, es', m');
    }
  }

  /** A client that keeps asking for the contents and never reads a reply locks the other one out, however
      much the sockets hold: from some point on every run in which the first client still does not read
      leaves the second one waiting to be connected. */
  lemma SilentReaderLocksOut(s: State) returns (es: seq<Event>)
    requires Init(s) && |s.sessions| >= 2
    ensures Run(s, es).Some? && LockStuck(Run(s, es).value)
    ensures var u := Run(s, es).value;
      forall es' | Run(u, es').Some? && NeverReads(es', 0) ::
        var v := Run(u, es').value;
        |v.sessions| > 1 && v.sessions[1] == Wants(Connect)
  {
    hide Run, Enabled, Next, Inv, Blocked;
    var m;
    es, m := Begins(s);
    assert m.sessions[1..][0] == Wants(Connect);
    es, m := FillSocket(s, es, m);
    assert m.sessions[1] == m.sessions[1..][0];
    LockStuckIff(s, es);
    RunInv(s, es);
    forall es' | Run(m, es').Some? && NeverReads(es', 0)
      ensures |Run(m, es').value.sessions| > 1 && Run(m, es').value.sessions[1] == Wants(Connect)
    {
      StuckUntilRead(s.dev, m, es');
    }
  }

  lemma Begins(s: State) returns (es: seq<Event>, m: State)
    requires Init(s) && |s.sessions| >= 2
    ensures Run(s, es) == Some(m) && Poised(m) && m.lock == None && m.sessions[0] == Idle
    ensures |m.sessions| >= 2 && m.sessions[1] == Wants(Connect)
  {
    hide Run;
    RunNothing(s);
    es, m := Extend(s, [], s, Arrive(0));
    es, m := Extend(s, es, m, Arrive(1));
    es, m := SwitchFlags(s, es, m, 0);
  }
}
