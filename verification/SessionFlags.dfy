/** When the BUSY flag says what it seems to say: that somebody is connected. */
module SessionFlags {
  import opened Common
  import opened Device
  import opened Sessions

  predicate SomebodyLive(s: State)
  {
    exists i :: 0 <= i < |s.sessions| && Live(s.sessions[i])
  }

  /** With up to n sessions BUSY tells, whenever the lock is free, whether anybody is connected. */
  ghost predicate BusyExact(n: nat)
  {
    forall s, es | Init(s) && |s.sessions| == n && Run(s, es).Some? ::
      var u := Run(s, es).value;
      u.lock == None ==> (u.dev.busy <==> SomebodyLive(u))
  }

  /** The session is connected, and not yet on its way out inside the lock. */
  predicate Staying(me: Session) { Live(me) && !(me.Inside? && me.op.Disconnect?) }

  /** There is one session, and the last arrival is its own as long as it stays. */
  predicate Alone(s: State)
  {
    |s.sessions| == 1 && (LastArrival(s.order).Some? <==> Staying(s.sessions[0]))
  }

  lemma AloneStep(d0: Device, s: State, e: Event)
    requires Inv(d0, s) && Enabled(s, e) && Alone(s)
    ensures Alone(Next(s, e))
  {
    hide Inv, LastArrival, Parse, CString, Micro, Ready;
    if e.Receive? {
      ParseIsNoSwitch(CString(e.bytes));
    }
    if e.Take? {
      ArrivalAfterTake(s.order, e.i, s.sessions[e.i].op);
    }
    if e.Release? {
      HolderIsLast(d0, s, e.i);
    }
  }

  lemma {:induction false} RunAlone(s: State, es: seq<Event>)
    requires Init(s) && Run(s, es).Some? && |s.sessions| == 1
    ensures Alone(Run(s, es).value)
    decreases |es|
  {
    hide Enabled, Next, Inv, Alone;
    if es == [] {
      StartAlone(s);
    } else {
      var es', e := es[..|es| - 1], es[|es| - 1];
      RunAlone(s, es');
      RunInv(s, es');
      var m := Run(s, es').value;
      AloneStep(s.dev, m, e);
    }
  }

  lemma StartAlone(s: State)
    requires Init(s) && |s.sessions| == 1
    ensures Alone(s)
  {
  }

  lemma BusyExactAlone(s: State, es: seq<Event>)
    requires Init(s) && Run(s, es).Some? && |s.sessions| == 1 && Run(s, es).value.lock == None
    ensures var u := Run(s, es).value; u.dev.busy <==> SomebodyLive(u)
  {
    hide Run, Inv;
    BusyMeansLive(s, es);
    RunAlone(s, es);
    RunInv(s, es);
    var u := Run(s, es).value;
    NobodyInside(s.dev, u);
    if u.dev.busy {
      assert Live(u.sessions[0]);
    }
  }

  /** A device as the program starts with it, with n clients to come. */
  function StartState(n: nat, window: nat): (s: State)
    ensures Init(s) && |s.sessions| == n && s.window == window
  {
    State(Device(seq(CAPACITY, _ => NUL), 0, false, false, ReadWrite), None, seq(n, _ => Absent), window,
      seq(n, _ => Link("", 0)), [], [], [])
  }

  /** BUSY tells whether somebody is connected if and only if there is at most one client. */
  lemma BusyExactIff(n: nat)
    ensures BusyExact(n) <==> n <= 1
  {
    hide Run, Init;
    if n <= 1 {
      forall s, es | Init(s) && |s.sessions| == n && Run(s, es).Some? && Run(s, es).value.lock == None
        ensures var u := Run(s, es).value; u.dev.busy <==> SomebodyLive(u)
      {
        if n == 1 {
          BusyExactAlone(s, es);
        } else {
          BusyMeansLive(s, es);
          RunSizes(s, es);
        }
      }
    } else {
      var s := StartState(n, 0);
      var es := BusyClearedWhileConnected(s);
      assert SomebodyLive(Run(s, es).value);
    }
  }
}
