/** Client sessions interleaved on one device.

    A session's critical section is not one step: it tests the permission, reads and writes the flags
    word, copies a payload byte by byte, sends the contents byte by byte, and other sessions run in
    between, held off only by the lock. The module shows that every such interleaving amounts to running
    the operations one after another in the order in which the lock was taken.

    A reply is written into the socket of its client, which holds a bounded number of bytes that the
    client has not read yet; a write into a full socket blocks, for READ with the lock held. */
module Sessions {
  import opened Common
  import opened Device
  import opened CommandStream

  // ------------------------------------------------- one critical section

  datatype Work =
    | Begin
    | Checked                                // permission granted
    | FlagsRead(open: bool, busy: bool)      // flags loaded, not yet stored
    | Copy(k: nat, len: nat)                 // k of len bytes copied
    | Sending(reply: Reply, rest: string)    // READ writes its reply; rest is still to be written
    | Done(reply: Reply)

  /** Facts a critical section relies on about the device, which only its lock protects. */
  predicate Ready(d: Device, op: Op, w: Work)
  {
    && WellFormed(d)
    && match w
       case Begin => true
       case Checked => (op.Read? && d.perm != WriteOnly) || ((op.Write? || op.Clear?) && d.perm != ReadOnly)
       case FlagsRead(o, b) => (op.Connect? || op.Disconnect?) && o == d.open && b == d.busy
       case Copy(k, len) => op.Write? && len == Room(d, op.data) && k <= len
       case Sending(reply, _) => op.Read? && (reply.Text? || reply.Empty?)
       case Done(_) => true
  }

  /** One access inside the critical section. */
  function Micro(d: Device, op: Op, w: Work): (r: (Device, Work))
    requires Ready(d, op, w) && !w.Done?
    ensures Ready(r.0, op, r.1)
  {
    match w
    case Begin =>
      (match op
       case Connect => (d, FlagsRead(d.open, d.busy))
       case Disconnect => (d, FlagsRead(d.open, d.busy))
       case Read => (d, if d.perm == WriteOnly then Done(Denied) else Checked)
       case Write(_) => (d, if d.perm == ReadOnly then Done(Denied) else Checked)
       case Info => (d, Done(Status(d.size, Flags(d), d.perm)))
       case Clear => (d, if d.perm == ReadOnly then Done(Denied) else Checked)
       case SetPerm(p) => (d.(perm := p), Done(PermSet))
       case SetUnknownPerm => (d, Done(UnknownPerm)))
    case FlagsRead(o, _) =>
      if op.Connect? then (d.(open := true, busy := true), Done(Silence))
      else (d.(open := o, busy := false), Done(Silence))
    case Checked =>
      if op.Read? then
        var reply := if d.size > 0 then Text(Contents(d)) else Empty;
        (d, Sending(reply, Render(reply)))
      else if op.Clear? then (d.(size := 0), Done(Cleared))
      else (d, Copy(0, Room(d, op.data)))
    case Copy(k, len) =>
      if k < len then (d.(buffer := d.buffer[d.size + k := op.data[k]]), Copy(k + 1, len))
      else (d.(size := d.size + len), Done(Written(len)))
    case Sending(reply, rest) => (d, if rest != [] then Sending(reply, rest[1..]) else Done(reply))
  }

  function Stage(w: Work): nat
  {
    match w
    case Begin => 3
    case Checked => 2
    case Done(_) => 0
    case _ => 1
  }

  function BytesLeft(w: Work): nat
  {
    match w
    case Copy(k, len) => if k < len then len - k else 0
    case Sending(_, rest) => |rest|
    case _ => 0
  }

  /** Let the section run to its end with nobody interfering. */
  function Complete(d: Device, op: Op, w: Work): (Device, Reply)
    requires Ready(d, op, w)
    decreases Stage(w), BytesLeft(w)
  {
    if w.Done? then (d, w.reply)
    else
      var (d', w') := Micro(d, op, w);
      Complete(d', op, w')
  }

  /** Copying one byte and then the rest is copying them together. */
  lemma OverwriteStep(buffer: seq<char>, at: nat, data: string, k: nat, len: nat)
    requires k < len <= |data| && at + (len - k) <= |buffer|
    ensures Overwrite(buffer[at := data[k]], at + 1, data[k + 1..len]) == Overwrite(buffer, at, data[k..len])
  {
    assert data[k..len] == [data[k]] + data[k + 1..len];
  }

  lemma OverwriteNothing(buffer: seq<char>, at: nat)
    requires at <= |buffer|
    ensures Overwrite(buffer, at, []) == buffer
  {
  }

  lemma {:induction false} CopyCompletes(d: Device, op: Op, k: nat, len: nat)
    requires Ready(d, op, Copy(k, len))
    ensures Complete(d, op, Copy(k, len)) ==
      (d.(buffer := Overwrite(d.buffer, d.size + k, op.data[k..len]), size := d.size + len), Written(len))
    decreases len - k
  {
    hide Overwrite;
    if k < len {
      CopyCompletes(d.(buffer := d.buffer[d.size + k := op.data[k]]), op, k + 1, len);
      OverwriteStep(d.buffer, d.size + k, op.data, k, len);
    } else {
      assert op.data[k..len] == [];
      OverwriteNothing(d.buffer, d.size + k);
      assert Micro(d, op, Copy(k, len)) == (d.(size := d.size + len), Done(Written(len)));
    }
  }

  lemma {:induction false} SendingCompletes(d: Device, op: Op, reply: Reply, rest: string)
    requires Ready(d, op, Sending(reply, rest))
    ensures Complete(d, op, Sending(reply, rest)) == (d, reply)
    decreases |rest|
  {
    if rest == [] {
      assert Micro(d, op, Sending(reply, rest)) == (d, Done(reply));
    } else {
      SendingCompletes(d, op, reply, rest[1..]);
    }
  }

  /** Access by access, a critical section does what the operation is meant to do. */
  lemma CompleteIsApply(d: Device, op: Op)
    requires WellFormed(d)
    ensures Complete(d, op, Begin) == Apply(d, op)
  {
    hide Overwrite;
    if op.Write? && d.perm != ReadOnly {
      var len := Room(d, op.data);
      assert op.data[0..len] == op.data[..len];
      CopyCompletes(d, op, 0, len);
      assert Complete(d, op, Begin) == Complete(d, op, Checked);
      assert Complete(d, op, Checked) == Complete(d, op, Copy(0, len));
    } else {
      var (d', w') := Micro(d, op, Begin);
      assert Complete(d, op, Begin) == Complete(d', op, w');
      if !w'.Done? {
        var (d'', w'') := Micro(d', op, w');
        assert Complete(d', op, w') == Complete(d'', op, w'');
        if op.Read? {
          SendingCompletes(d'', op, w''.reply, w''.rest);
        }
      }
    }
  }

  // ------------------------------------------------------------- interleaving

  datatype Session =
    | Absent
    | Wants(op: Op)               // waiting for the lock
    | Inside(op: Op, work: Work)  // holding it
    | Answering(request: Option<Op>, reply: Reply, ticket: Option<nat>, rest: string)
    | Idle                        // in recv
    | Gone

  /** What the server learns from a client: that it is there, the bytes of one recv, that it is gone. */
  datatype Message = Hello | Bytes(bytes: string) | Bye

  /** A reply sent to a session, to which request (none if it was not understood); the ticket says which
      lock acquisition it answers. */
  datatype Answer = Answer(session: nat, request: Option<Op>, ticket: Option<nat>, reply: Reply)

  /** A client's socket: all that was ever written into it, and how much of that the client has read. */
  datatype Link = Link(wire: string, got: nat)

  datatype State = State(
    dev: Device, lock: Option<nat>, sessions: seq<Session>,
    window: nat,                     // how many unread bytes a socket holds
    links: seq<Link>,
    requests: seq<(nat, Message)>,   // history: what the sessions were told
    order: seq<(nat, Op)>,           // history: lock acquisitions
    answers: seq<Answer>)            // history: replies sent

  predicate Init(s: State)
  {
    && Fresh(s.dev) && s.lock == None && s.requests == [] && s.order == [] && s.answers == []
    && |s.links| == |s.sessions|
    && (forall i :: 0 <= i < |s.sessions| ==> s.sessions[i] == Absent)
    && (forall i :: 0 <= i < |s.links| ==> s.links[i] == Link("", 0))
  }

  datatype Event =
    | Arrive(i: nat) | Receive(i: nat, bytes: string) | HangUp(i: nat)
    | Take(i: nat) | Proceed(i: nat) | Release(i: nat) | Send(i: nat)
    | ClientReads(i: nat, n: nat)

  predicate HasRoom(s: State, i: nat)
    requires i < |s.links|
  {
    |s.links[i].wire| < s.links[i].got + s.window
  }

  /** The bytes a session is about to write and has not written yet. */
  function Unwritten(me: Session): string
  {
    match me
    case Answering(_, _, _, rest) => rest
    case Inside(_, Sending(_, rest)) => rest
    case _ => ""
  }

  /** The next step of a session is to write a byte, and the socket takes no more. */
  predicate Blocked(s: State, i: nat)
    requires i < |s.sessions| == |s.links|
  {
    Unwritten(s.sessions[i]) != [] && !HasRoom(s, i)
  }

  predicate Enabled(s: State, e: Event)
  {
    && e.i < |s.sessions| == |s.links|
    && var me := s.sessions[e.i];
       match e
       case Arrive(_) => me == Absent
       case Receive(_, bytes) => me == Idle && 0 < |bytes| <= RECV_MAX
       case HangUp(_) => me == Idle
       case Take(_) => me.Wants? && s.lock == None
       case Proceed(_) => me.Inside? && !me.work.Done? && Ready(s.dev, me.op, me.work) && !Blocked(s, e.i)
       case Release(_) => me.Inside? && me.work.Done? && s.order != []
       case Send(_) => me.Answering? && !Blocked(s, e.i)
       case ClientReads(i, n) => 0 < n && s.links[i].got + n <= |s.links[i].wire|
  }

  /** READ answers before it gives the lock up; the other commands answer afterwards. */
  predicate SentUnderLock(w: Work)
  {
    w.Done? && (w.reply.Text? || w.reply.Empty?)
  }

  function Set(s: State, i: nat, me: Session): State
    requires i < |s.sessions|
  {
    s.(sessions := s.sessions[i := me])
  }

  /** The session writes its next byte, if it has one to write. */
  function WriteByte(s: State, i: nat): seq<Link>
    requires i < |s.sessions| == |s.links|
  {
    var rest := Unwritten(s.sessions[i]);
    if rest == [] then s.links else s.links[i := s.links[i].(wire := s.links[i].wire + [rest[0]])]
  }

  function Told(s: State, i: nat, m: Message): seq<(nat, Message)>
  {
    s.requests + [(i, m)]
  }

  function AfterRelease(op: Op, w: Work, ticket: nat): Session
    requires w.Done?
  {
    match op
    case Connect => Idle
    case Disconnect => Gone
    case _ => if SentUnderLock(w) then Idle else Answering(Some(op), w.reply, Some(ticket), Render(w.reply))
  }

  function Next(s: State, e: Event): State
    requires Enabled(s, e)
  {
    var i := e.i;
    var me := s.sessions[i];
    match e
    case Arrive(_) => Set(s, i, Wants(Connect)).(requests := Told(s, i, Hello))
    case Receive(_, bytes) =>
      var u := s.(requests := Told(s, i, Bytes(bytes)));
      (match Parse(CString(bytes))
       case None => Set(u, i, Answering(None, UnknownCommand, None, Render(UnknownCommand)))
       case Some(op) => Set(u, i, Wants(op)))
    case HangUp(_) => Set(s, i, Wants(Disconnect)).(requests := Told(s, i, Bye))
    case Take(_) => Set(s, i, Inside(me.op, Begin)).(lock := Some(i), order := s.order + [(i, me.op)])
    case Proceed(_) =>
      var (d, w) := Micro(s.dev, me.op, me.work);
      var a := Answer(i, Some(me.op), Some(Ticket(s)), if w.Done? then w.reply else Silence);
      Set(s, i, Inside(me.op, w)).(dev := d, links := WriteByte(s, i),
        answers := if SentUnderLock(w) then s.answers + [a] else s.answers)
    case Release(_) => Set(s, i, AfterRelease(me.op, me.work, |s.order| - 1)).(lock := None)
    case Send(_) =>
      if me.rest != [] then Set(s, i, me.(rest := me.rest[1..])).(links := WriteByte(s, i))
      else Set(s, i, Idle).(answers := s.answers + [Answer(i, me.request, me.ticket, me.reply)])
    case ClientReads(_, n) => s.(links := s.links[i := s.links[i].(got := s.links[i].got + n)])
  }

  lemma SizesKept(s: State, e: Event)
    requires Enabled(s, e)
    ensures var u := Next(s, e);
      |u.sessions| == |u.links| == |s.sessions| && u.window == s.window
  {
    hide Parse, Micro, Ready, CString, Render;
  }

  /** The number of the latest lock acquisition. */
  function Ticket(s: State): nat
  {
    if s.order == [] then 0 else |s.order| - 1
  }

  function Run(s: State, es: seq<Event>): Option<State>
    decreases |es|
  {
    if es == [] then Some(s)
    else
      match Run(s, es[..|es| - 1])
      case None => None
      case Some(m) => if Enabled(m, es[|es| - 1]) then Some(Next(m, es[|es| - 1])) else None
  }

  lemma {:induction false} RunSizes(s: State, es: seq<Event>)
    requires Init(s) && Run(s, es).Some?
    ensures var u := Run(s, es).value;
      |u.sessions| == |u.links| == |s.sessions| && u.window == s.window
    decreases |es|
  {
    hide Enabled, Next;
    if es == [] {
    } else {
      RunSizes(s, es[..|es| - 1]);
      SizesKept(Run(s, es[..|es| - 1]).value, es[|es| - 1]);
    }
  }

  // -------------------------------------------------------------- invariant

  function Ops(order: seq<(nat, Op)>): (ops: seq<Op>)
    ensures |ops| == |order| && forall k :: 0 <= k < |ops| ==> ops[k] == order[k].1
  {
    if order == [] then [] else Ops(order[..|order| - 1]) + [order[|order| - 1].1]
  }

  predicate LockHeld(s: State)
  {
    && (s.lock.Some? ==> s.lock.value < |s.sessions| && s.sessions[s.lock.value].Inside?)
    && (forall i :: 0 <= i < |s.sessions| && s.sessions[i].Inside? ==> s.lock == Some(i))
  }

  /** The device is where the sequential run is, or on the way there inside one critical section. */
  predicate DeviceOnTrack(d0: Device, s: State)
    requires WellFormed(d0) && LockHeld(s)
  {
    match s.lock
    case None => s.dev == Replay(d0, Ops(s.order))
    case Some(i) =>
      var me := s.sessions[i];
      && s.order != [] && s.order[|s.order| - 1] == (i, me.op)
      && Ready(s.dev, me.op, me.work)
      && Complete(s.dev, me.op, me.work) == Apply(Replay(d0, Front(Ops(s.order))), me.op)
  }

  /** What is answered to session i belongs to its request, and is the sequential run's reply. */
  predicate Honest(d0: Device, order: seq<(nat, Op)>, a: Answer)
    requires WellFormed(d0)
  {
    match a.ticket
    case None => a.request == None && a.reply == UnknownCommand
    case Some(k) =>
      k < |order| && a.request == Some(order[k].1) && order[k].0 == a.session && a.reply == ReplyAt(d0, Ops(order), k)
  }

  /** The answer session i is about to give. */
  function Pending(i: nat, me: Session): Answer
    requires me.Answering?
  {
    Answer(i, me.request, me.ticket, me.reply)
  }

  predicate RepliesHonest(d0: Device, s: State)
    requires WellFormed(d0)
  {
    && (forall i :: 0 <= i < |s.sessions| && s.sessions[i].Answering? ==>
          Honest(d0, s.order, Pending(i, s.sessions[i])))
    && (forall j :: 0 <= j < |s.answers| ==> Honest(d0, s.order, s.answers[j]))
  }

  /** The session whose connection is the last switch of the BUSY flag. */
  function LastArrival(order: seq<(nat, Op)>): Option<nat>
    decreases |order|
  {
    if order == [] then None
    else
      var (i, op) := order[|order| - 1];
      if op.Connect? then Some(i) else if op.Disconnect? then None else LastArrival(order[..|order| - 1])
  }

  predicate Live(me: Session) { me != Absent && me != Gone && me != Wants(Connect) }

  predicate ArrivalLive(s: State)
  {
    LastArrival(s.order).Some? ==>
      var i := LastArrival(s.order).value; i < |s.sessions| && Live(s.sessions[i])
  }

  predicate Inv(d0: Device, s: State)
  {
    && Fresh(d0) && WellFormed(s.dev)
    && LockHeld(s) && DeviceOnTrack(d0, s) && RepliesHonest(d0, s) && ArrivalLive(s)
  }

  lemma InitInv(s: State)
    requires Init(s)
    ensures Inv(s.dev, s)
  {
  }

  lemma HonestLater(d0: Device, order: seq<(nat, Op)>, x: (nat, Op), a: Answer)
    requires WellFormed(d0) && Honest(d0, order, a)
    ensures Honest(d0, order + [x], a)
  {
    if a.ticket.Some? {
      var k := a.ticket.value;
      assert Ops(order + [x])[..k] == Ops(order)[..k];
    }
  }

  lemma OpsFront(order: seq<(nat, Op)>, x: (nat, Op))
    ensures Front(Ops(order + [x])) == Ops(order) && Last(Ops(order + [x])) == x.1
  {
    assert (order + [x])[..|order|] == order;
  }

  /** When the holder is done, the sequential run has caught up and the reply is its reply. */
  lemma DoneMeansReplayed(d0: Device, s: State, i: nat)
    requires Inv(d0, s) && i < |s.sessions| && s.sessions[i].Inside? && s.sessions[i].work.Done?
    ensures s.lock == Some(i) && s.order != []
    ensures s.dev == Replay(d0, Ops(s.order))
    ensures Honest(d0, s.order, Answer(i, Some(s.sessions[i].op), Some(|s.order| - 1), s.sessions[i].work.reply))
  {
    hide Apply, ReplyAt, RepliesHonest, Ready;
    var ops := Ops(s.order);
    assert Last(ops) == s.sessions[i].op;
    assert ReplyAtLast(d0, ops) by { ReplyAtIsLast(d0, ops); }
  }

  predicate ReplyAtLast(d0: Device, ops: seq<Op>)
    requires WellFormed(d0) && ops != []
  {
    && Replay(d0, ops) == Apply(Replay(d0, Front(ops)), Last(ops)).0
    && ReplyAt(d0, ops, |ops| - 1) == Apply(Replay(d0, Front(ops)), Last(ops)).1
  }

  lemma ReplyAtIsLast(d0: Device, ops: seq<Op>)
    requires WellFormed(d0) && ops != []
    ensures ReplyAtLast(d0, ops)
  {
    hide Apply;
  }

  lemma ParseIsNoSwitch(cmd: string)
    ensures Parse(cmd).Some? ==> !Parse(cmd).value.Connect? && !Parse(cmd).value.Disconnect?
  {
  }

  /** A session that is not inside changes to another one that is not: nothing else moves. */
  lemma OutsideKeepsTrack(d0: Device, s: State, u: State, i: nat)
    requires WellFormed(d0) && LockHeld(s) && DeviceOnTrack(d0, s) && i < |s.sessions|
    requires u.dev == s.dev && u.lock == s.lock && u.order == s.order
    requires |u.sessions| == |s.sessions| && u.sessions == s.sessions[i := u.sessions[i]]
    requires !s.sessions[i].Inside? && !u.sessions[i].Inside?
    ensures LockHeld(u) && DeviceOnTrack(d0, u)
  {
    hide Apply, Complete, Ready, Replay, Ops;
  }

  lemma OutsideStep(d0: Device, s: State, e: Event)
    requires Inv(d0, s) && Enabled(s, e)
    requires e.Arrive? || e.Receive? || e.HangUp? || e.Send?
    ensures Inv(d0, Next(s, e))
  {
    hide Apply, Complete, Ready, Replay, Ops, Parse, Honest, LastArrival, WellFormed, CString;
    var u := Next(s, e);
    if e.Receive? {
      ParseIsNoSwitch(CString(e.bytes));
      UnknownHonest(d0, s.order, e.i);
    }
    OutsideKeepsTrack(d0, s, u, e.i);
  }

  lemma UnknownHonest(d0: Device, order: seq<(nat, Op)>, i: nat)
    requires WellFormed(d0)
    ensures Honest(d0, order, Answer(i, None, None, UnknownCommand))
  {
  }

  lemma TakeStep(d0: Device, s: State, e: Event)
    requires Inv(d0, s) && Enabled(s, e) && e.Take?
    ensures Inv(d0, Next(s, e))
  {
    hide Apply, Complete, Replay, Ops, Honest, WellFormed;
    var u := Next(s, e);
    var op := s.sessions[e.i].op;
    OpsFront(s.order, (e.i, op));
    CompleteIsApply(s.dev, op);
    ReadyToBegin(s.dev, op);
    forall i | 0 <= i < |u.sessions| && u.sessions[i].Answering?
      ensures Honest(d0, u.order, Pending(i, u.sessions[i]))
    {
      HonestLater(d0, s.order, (e.i, op), Pending(i, s.sessions[i]));
    }
    forall j | 0 <= j < |u.answers|
      ensures Honest(d0, u.order, u.answers[j])
    {
      HonestLater(d0, s.order, (e.i, op), s.answers[j]);
    }
    ArrivalAfterTake(s.order, e.i, op);
  }

  lemma ReadyToBegin(d: Device, op: Op)
    requires WellFormed(d)
    ensures Ready(d, op, Begin)
  {
  }

  lemma ArrivalAfterTake(order: seq<(nat, Op)>, i: nat, op: Op)
    ensures LastArrival(order + [(i, op)])
      == if op.Connect? then Some(i) else if op.Disconnect? then None else LastArrival(order)
  {
    assert (order + [(i, op)])[..|order|] == order;
  }

  /** One access by the holder keeps the device on track. */
  lemma ProceedTrack(d0: Device, s: State, e: Event)
    requires Inv(d0, s) && Enabled(s, e) && e.Proceed?
    ensures var u := Next(s, e);
      && WellFormed(u.dev) && LockHeld(u) && DeviceOnTrack(d0, u)
      && u.order == s.order && s.lock == Some(e.i)
  {
    hide Apply, Replay, Ops, RepliesHonest, ArrivalLive, Micro;
    var me := s.sessions[e.i];
    var (d, w) := Micro(s.dev, me.op, me.work);
    assert Complete(s.dev, me.op, me.work) == Complete(d, me.op, w);
  }

  lemma ProceedReplies(d0: Device, s: State, e: Event)
    requires Inv(d0, s) && Enabled(s, e) && e.Proceed?
    ensures RepliesHonest(d0, Next(s, e))
  {
    hide Apply, Replay, Ops, Micro, Honest, Ready, WellFormed;
    var u := Next(s, e);
    ProceedTrack(d0, s, e);
    var me := u.sessions[e.i];
    if SentUnderLock(me.work) {
      ProceedHonest(d0, s, e);
    }
  }

  lemma ProceedHonest(d0: Device, s: State, e: Event)
    requires Inv(d0, s) && Enabled(s, e) && e.Proceed?
    requires Next(s, e).sessions[e.i].work.Done?
    ensures s.order != []
    ensures var me := Next(s, e).sessions[e.i];
      Honest(d0, s.order, Answer(e.i, Some(me.op), Some(|s.order| - 1), me.work.reply))
  {
    hide Apply, Micro, RepliesHonest, ArrivalLive, Ready;
    ProceedTrack(d0, s, e);
    ReplyAtIsLast(d0, Ops(s.order));
  }

  lemma ProceedStep(d0: Device, s: State, e: Event)
    requires Inv(d0, s) && Enabled(s, e) && e.Proceed?
    ensures Inv(d0, Next(s, e))
  {
    hide Apply, Replay, Ops, Micro, RepliesHonest, LastArrival, DeviceOnTrack, WellFormed;
    ProceedTrack(d0, s, e);
    ProceedReplies(d0, s, e);
  }

  lemma ReleaseStep(d0: Device, s: State, e: Event)
    requires Inv(d0, s) && Enabled(s, e) && e.Release?
    ensures Inv(d0, Next(s, e))
  {
    hide Apply, Replay, Ops, Complete, Honest, Ready, WellFormed;
    DoneMeansReplayed(d0, s, e.i);
  }

  /** What the clients read is nothing to the sessions. */
  lemma ClientStep(d0: Device, s: State, e: Event)
    requires Inv(d0, s) && Enabled(s, e) && e.ClientReads?
    ensures Inv(d0, Next(s, e))
  {
    hide Apply, Complete, Replay, Ops, Honest, Ready, WellFormed, LastArrival;
  }

  lemma StepInv(d0: Device, s: State, e: Event)
    requires Inv(d0, s) && Enabled(s, e)
    ensures Inv(d0, Next(s, e))
  {
    hide Inv, Enabled, Next;
    match e
    case Take(_) => TakeStep(d0, s, e);
    case Proceed(_) => ProceedStep(d0, s, e);
    case Release(_) => ReleaseStep(d0, s, e);
    case ClientReads(_, _) => ClientStep(d0, s, e);
    case _ => OutsideStep(d0, s, e);
  }

  lemma {:induction false} RunInv(s: State, es: seq<Event>)
    requires Init(s) && Run(s, es).Some?
    ensures Inv(s.dev, Run(s, es).value)
    decreases |es|
  {
    hide Inv, Enabled, Next, Init;
    if es == [] {
      InitInv(s);
    } else {
      RunInv(s, es[..|es| - 1]);
      StepInv(s.dev, Run(s, es[..|es| - 1]).value, es[|es| - 1]);
    }
  }

  // ------------------------------------------------------------- properties

  /** Any interleaving of any number of sessions equals running the operations one after another in
      the order of lock acquisition: every reply sent is the sequential run's reply, and whenever the
      lock is free the device is the sequential run's device. */
  lemma SessionsAreSequential(s: State, es: seq<Event>)
    requires Init(s) && Run(s, es).Some?
    ensures var u := Run(s, es).value;
      && (u.lock == None ==> u.dev == Replay(s.dev, Ops(u.order)))
      && (forall j :: 0 <= j < |u.answers| ==> Honest(s.dev, u.order, u.answers[j]))
  {
    hide Honest, Replay, Ops, Run;
    RunInv(s, es);
  }

  /** In those terms: with the lock free, the device holds the first 4096 bytes of the permitted
      payloads since the last permitted clear, and its size is what the replies added up to. */
  lemma DeviceHoldsPayloads(s: State, es: seq<Event>)
    requires Init(s) && Run(s, es).Some?
    ensures var u := Run(s, es).value;
      && WellFormed(u.dev)
      && (u.lock == None ==>
            && Contents(u.dev) == Truncated(Payload(Ops(u.order)))
            && u.dev.size == Reported(s.dev, Ops(u.order))
            && u.dev.perm == PermAfter(Ops(u.order)))
  {
    hide Honest, Replay, Ops, Run, Payload, Reported, PermAfter, Truncated, LastArrival, Complete, Ready;
    RunInv(s, es);
    DeviceMeansHistory(s.dev, Ops(Run(s, es).value.order));
  }

  /** Once a session has connected, OPEN stays set, whatever is being done to the flags. */
  lemma OpenNeverLost(s: State, es: seq<Event>, e: Event)
    requires Init(s) && Run(s, es).Some? && Enabled(Run(s, es).value, e)
    ensures Run(s, es).value.dev.open ==> Next(Run(s, es).value, e).dev.open
  {
    hide Run, Apply, Complete;
    RunInv(s, es);
  }

  lemma {:induction false} SwitchAndArrival(order: seq<(nat, Op)>)
    ensures LastSwitch(Ops(order)) == Some(Connect) <==> LastArrival(order).Some?
    decreases |order|
  {
    if order == [] {
    } else {
      var front := order[..|order| - 1];
      assert order == front + [order[|order| - 1]];
      OpsFront(front, order[|order| - 1]);
      SwitchAndArrival(front);
    }
  }

  /** BUSY is set only while some session is connected; with the lock free it is set exactly when the
      last session to come or go came. */
  lemma BusyMeansLive(s: State, es: seq<Event>)
    requires Init(s) && Run(s, es).Some?
    ensures var u := Run(s, es).value;
      && (u.dev.busy ==> exists i :: 0 <= i < |u.sessions| && Live(u.sessions[i]))
      && (u.lock == None ==> (u.dev.busy <==> LastArrival(u.order).Some?))
  {
    hide Run, Apply, Complete, Replay, Ops, LastArrival, RepliesHonest;
    RunInv(s, es);
    var u := Run(s, es).value;
    if u.lock.Some? {
      assert Live(u.sessions[u.lock.value]);
    } else {
      FlagsMeanHistory(s.dev, Ops(u.order));
      SwitchAndArrival(u.order);
    }
  }

  // --------------------------------------------------- every command is answered once

  function AnswersTo(answers: seq<Answer>, k: nat): nat
  {
    Count(answers, (a: Answer) => a.ticket == Some(k))
  }

  lemma AnswersToAppend(answers: seq<Answer>, a: Answer, k: nat)
    ensures AnswersTo(answers + [a], k) == AnswersTo(answers, k) + (if a.ticket == Some(k) then 1 else 0)
  {
    CountAppend(answers, [a], (a: Answer) => a.ticket == Some(k));
  }

  /** The session of acquisition k still owes its answer. */
  predicate Owes(s: State, k: nat)
    requires k < |s.order|
  {
    var i := s.order[k].0;
    && i < |s.sessions|
    && match s.sessions[i]
       case Answering(_, _, ticket, _) => ticket == Some(k)
       case Inside(_, w) => k == |s.order| - 1 && !SentUnderLock(w)
       case _ => false
  }

  ghost predicate Accounted(s: State)
  {
    && (forall k :: 0 <= k < |s.order| ==>
          AnswersTo(s.answers, k) == if IsCommand(s.order[k].1) && !Owes(s, k) then 1 else 0)
    && (forall k: nat :: |s.order| <= k ==> AnswersTo(s.answers, k) == 0)
    && (forall i :: 0 <= i < |s.sessions| && s.sessions[i].Answering? && s.sessions[i].ticket.Some? ==>
          var k := s.sessions[i].ticket.value;
          k < |s.order| && s.order[k].0 == i && IsCommand(s.order[k].1))
  }

  /** The holder's operation is the last one acquired. */
  lemma HolderIsLast(d0: Device, s: State, i: nat)
    requires Inv(d0, s) && i < |s.sessions| && s.sessions[i].Inside?
    ensures s.order != [] && s.order[|s.order| - 1] == (i, s.sessions[i].op)
  {
    hide Apply, Complete, Replay, Ops, RepliesHonest, ArrivalLive, Ready, WellFormed;
  }

  lemma NobodyInside(d0: Device, s: State)
    requires Inv(d0, s) && s.lock == None
    ensures forall i :: 0 <= i < |s.sessions| ==> !s.sessions[i].Inside?
  {
    hide DeviceOnTrack, RepliesHonest, ArrivalLive;
  }

  lemma QuietAccounted(d0: Device, s: State, e: Event)
    requires Inv(d0, s) && Accounted(s) && Enabled(s, e)
    requires e.Arrive? || e.Receive? || e.HangUp? || e.Take? || e.ClientReads?
    ensures Accounted(Next(s, e))
  {
    hide Inv, AnswersTo, Parse, CString;
    var u := Next(s, e);
    if e.Receive? {
      ParseIsNoSwitch(CString(e.bytes));
    }
    if e.Take? {
      NobodyInside(d0, s);
    }
    forall k | 0 <= k < |s.order|
      ensures Owes(u, k) == Owes(s, k)
    {
    }
  }

  lemma SendAccounted(s: State, e: Event)
    requires Accounted(s) && Enabled(s, e) && e.Send?
    ensures Accounted(Next(s, e))
  {
    hide AnswersTo;
    var u := Next(s, e);
    if s.sessions[e.i].rest != [] {
      assert forall k :: 0 <= k < |s.order| ==> Owes(u, k) == Owes(s, k);
    } else {
      var a := Pending(e.i, s.sessions[e.i]);
      forall k: nat
        ensures AnswersTo(u.answers, k) == AnswersTo(s.answers, k) + (if a.ticket == Some(k) then 1 else 0)
      {
        AnswersToAppend(s.answers, a, k);
      }
      assert forall k :: 0 <= k < |s.order| ==> Owes(u, k) == (Owes(s, k) && a.ticket != Some(k));
    }
  }

  /** Only READ answers under the lock. */
  lemma EarlyAnswerIsRead(d: Device, op: Op, w: Work)
    requires Ready(d, op, w) && !w.Done?
    ensures SentUnderLock(Micro(d, op, w).1) ==> op.Read?
  {
  }

  lemma ProceedAccounted(d0: Device, s: State, e: Event)
    requires Inv(d0, s) && Accounted(s) && Enabled(s, e) && e.Proceed?
    ensures Accounted(Next(s, e))
  {
    hide Inv, AnswersTo, Micro, Ready;
    var u := Next(s, e);
    var me := s.sessions[e.i];
    HolderIsLast(d0, s, e.i);
    EarlyAnswerIsRead(s.dev, me.op, me.work);
    var w := u.sessions[e.i].work;
    if SentUnderLock(w) {
      var a := Answer(e.i, Some(me.op), Some(Ticket(s)), w.reply);
      forall k: nat
        ensures AnswersTo(u.answers, k) == AnswersTo(s.answers, k) + (if k == |s.order| - 1 then 1 else 0)
      {
        AnswersToAppend(s.answers, a, k);
      }
    }
    forall k | 0 <= k < |s.order|
      ensures Owes(u, k) == (Owes(s, k) && !(SentUnderLock(w) && k == |s.order| - 1))
    {
    }
  }

  lemma ReleaseAccounted(d0: Device, s: State, e: Event)
    requires Inv(d0, s) && Accounted(s) && Enabled(s, e) && e.Release?
    ensures Accounted(Next(s, e))
  {
    hide Inv, AnswersTo, Ready;
    var u := Next(s, e);
    HolderIsLast(d0, s, e.i);
    forall k | 0 <= k < |s.order| && IsCommand(s.order[k].1)
      ensures Owes(u, k) == Owes(s, k)
    {
    }
  }

  lemma {:induction false} RunAccounted(s: State, es: seq<Event>)
    requires Init(s) && Run(s, es).Some?
    ensures Accounted(Run(s, es).value)
    decreases |es|
  {
    hide Inv, Enabled, Next, Accounted, Init;
    if es == [] {
      StartAccounted(s);
    } else {
      var es', e := es[..|es| - 1], es[|es| - 1];
      RunAccounted(s, es');
      RunInv(s, es');
      var m := Run(s, es').value;
      match e
      case Send(_) => SendAccounted(m, e);
      case Proceed(_) => ProceedAccounted(s.dev, m, e);
      case Release(_) => ReleaseAccounted(s.dev, m, e);
      case _ => QuietAccounted(s.dev, m, e);
    }
  }

  lemma StartAccounted(s: State)
    requires Init(s)
    ensures Accounted(s)
  {
  }

  /** Every command that took the lock is answered exactly once, or its session still owes the answer;
      and every answer is the one the history before that acquisition calls for. */
  lemma EveryCommandAnsweredOnce(s: State, es: seq<Event>)
    requires Init(s) && Run(s, es).Some?
    ensures var u := Run(s, es).value;
      && (forall k :: 0 <= k < |u.order| && IsCommand(u.order[k].1) ==>
            AnswersTo(u.answers, k) == if Owes(u, k) then 0 else 1)
      && (forall j :: 0 <= j < |u.answers| && u.answers[j].ticket.Some? ==>
            var k := u.answers[j].ticket.value;
            && k < |u.order| && u.order[k].0 == u.answers[j].session
            && u.answers[j].reply == ExpectedReply(Ops(u.order)[..k], u.order[k].1))
  {
    hide Run, AnswersTo, Owes, Ops, ExpectedReply, ReplyAt, Complete, Ready, Apply, Replay;
    RunAccounted(s, es);
    RunInv(s, es);
    var u := Run(s, es).value;
    forall j | 0 <= j < |u.answers| && u.answers[j].ticket.Some?
      ensures var k := u.answers[j].ticket.value;
        && k < |u.order| && u.order[k].0 == u.answers[j].session
        && u.answers[j].reply == ExpectedReply(Ops(u.order)[..k], u.order[k].1)
    {
      RepliesMeanHistory(s.dev, Ops(u.order), u.answers[j].ticket.value);
    }
  }

  // -------------------------------------- a connected session need not leave BUSY set

  lemma Extend(s: State, es: seq<Event>, m: State, e: Event) returns (es': seq<Event>, m': State)
    requires Run(s, es) == Some(m) && Enabled(m, e)
    ensures es' == es + [e] && m' == Next(m, e) && Run(s, es') == Some(m')
  {
    es', m' := es + [e], Next(m, e);
    assert es'[..|es|] == es;
  }

  /** Session i goes through one flags operation from taking the lock to giving it up. */
  lemma SwitchFlags(s: State, es: seq<Event>, m: State, i: nat) returns (es': seq<Event>, m': State)
    requires Run(s, es) == Some(m) && WellFormed(m.dev)
    requires i < |m.sessions| == |m.links| && m.lock == None
    requires m.sessions[i] == Wants(Connect) || m.sessions[i] == Wants(Disconnect)
    ensures Run(s, es') == Some(m')
    ensures var op := m.sessions[i].op;
      && m'.dev == Apply(m.dev, op).0 && m'.lock == None
      && m'.sessions == m.sessions[i := if op.Connect? then Idle else Gone] && m'.links == m.links
  {
    hide Run, Parse, CString, Render, Overwrite;
    es', m' := Extend(s, es, m, Take(i));
    es', m' := Extend(s, es', m', Proceed(i));
    es', m' := Extend(s, es', m', Proceed(i));
    es', m' := Extend(s, es', m', Release(i));
    assert m'.sessions == m.sessions[i := if m.sessions[i].op.Connect? then Idle else Gone];
  }

  /** Two sessions connect and the first one leaves: BUSY is clear with the second still connected. */
  lemma BusyClearedWhileConnected(s: State) returns (es: seq<Event>)
    requires Init(s) && |s.sessions| >= 2
    ensures Run(s, es).Some?
    ensures var u := Run(s, es).value;
      |u.sessions| == |s.sessions| && u.lock == None && !u.dev.busy && Live(u.sessions[1])
  {
    hide Run;
    var m := s;
    es := [];
    assert Run(s, es) == Some(m) by { RunNothing(s); }
    es, m := Extend(s, es, m, Arrive(0));
    es, m := SwitchFlags(s, es, m, 0);
    es, m := Extend(s, es, m, Arrive(1));
    es, m := SwitchFlags(s, es, m, 1);
    es, m := Extend(s, es, m, HangUp(0));
    es, m := SwitchFlags(s, es, m, 0);
  }

  lemma RunNothing(s: State)
    ensures Run(s, []) == Some(s)
  {
  }
}
