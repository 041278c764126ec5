/** The resource manager's device: a bounded append buffer with flags and permissions, the commands
    clients send it, and what a sequence of operations amounts to. */
module Device {
  import opened Common

  const CAPACITY: nat := 4096
  const NUL: char := '\0'
  const OPEN_BIT: nat := 1
  const BUSY_BIT: nat := 2
  const RECV_MAX: nat := 1023

  datatype Perm = ReadWrite | ReadOnly | WriteOnly

  datatype Device = Device(buffer: seq<char>, size: nat, open: bool, busy: bool, perm: Perm)

  predicate WellFormed(d: Device)
  {
    |d.buffer| == CAPACITY && d.size <= CAPACITY
  }

  /** The device before any client has connected. */
  predicate Fresh(d: Device)
  {
    WellFormed(d) && d.size == 0 && !d.open && !d.busy && d.perm == ReadWrite
  }

  function Contents(d: Device): string
    requires WellFormed(d)
  {
    d.buffer[..d.size]
  }

  function Flags(d: Device): nat
  {
    (if d.open then OPEN_BIT else 0) + (if d.busy then BUSY_BIT else 0)
  }

  // --------------------------------------------------------------- commands

  /** Everything that is done to the device under its lock. */
  datatype Op =
    | Connect | Disconnect
    | Read | Write(data: string) | Info | Clear
    | SetPerm(perm: Perm) | SetUnknownPerm

  datatype Reply =
    | Silence
    | Denied | Text(text: string) | Empty | Written(count: nat)
    | Status(size: nat, flags: nat, perm: Perm)
    | Cleared | PermSet | UnknownPerm | UnknownCommand

  function Decimal(n: nat): (s: string)
    ensures s != []
  {
    (if n < 10 then [] else Decimal(n / 10)) + ["0123456789"[n % 10]]
  }

  function PermCode(perm: Perm): nat
  {
    match perm
    case ReadWrite => 0
    case ReadOnly => 1
    case WriteOnly => 2
  }

  /** The bytes of a reply as they are written to the client's socket. */
  function Render(reply: Reply): string
  {
    match reply
    case Silence => ""
    case Denied => "Permission denied\n"
    case Text(text) => text
    case Empty => "<buffer empty>\n"
    case Written(count) => "OK, " + Decimal(count) + " bytes written\n"
    case Status(size, flags, perm) =>
      "Size=" + Decimal(size) + ", Flags=" + Decimal(flags) + ", Permissions=" + Decimal(PermCode(perm)) + "\n"
    case Cleared => "Buffer cleared\n"
    case PermSet => "Permission set\n"
    case UnknownPerm => "Unknown permission\n"
    case UnknownCommand => "Unknown command\n"
  }

  /** The bytes received, as a C string: up to the first NUL. */
  function CString(bytes: string): (s: string)
    ensures NUL !in s && s <= bytes
  {
    if bytes == [] || bytes[0] == NUL then []
    else
      assert bytes == [bytes[0]] + bytes[1..];
      [bytes[0]] + CString(bytes[1..])
  }

  /** Which operation a command asks for; None is answered without touching the device. */
  function Parse(cmd: string): Option<Op>
  {
    if "READ" <= cmd then Some(Read)
    else if "WRITE " <= cmd then Some(Write(cmd[6..]))
    else if cmd == "INFO\n" then Some(Info)
    else if cmd == "CLEAR\n" then Some(Clear)
    else if "SETPERM " <= cmd then
      var arg := cmd[8..];
      if "rw" <= arg then Some(SetPerm(ReadWrite))
      else if "ro" <= arg then Some(SetPerm(ReadOnly))
      else if "wo" <= arg then Some(SetPerm(WriteOnly))
      else Some(SetUnknownPerm)
    else None
  }

  // -------------------------------------------------------------- semantics

  function Room(d: Device, data: string): nat
    requires d.size <= CAPACITY
  {
    if |data| + d.size > CAPACITY then CAPACITY - d.size else |data|
  }

  function Apply(d: Device, op: Op): (r: (Device, Reply))
    requires WellFormed(d)
    ensures WellFormed(r.0)
  {
    match op
    case Connect => (d.(open := true, busy := true), Silence)
    case Disconnect => (d.(busy := false), Silence)
    case Read =>
      if d.perm == WriteOnly then (d, Denied)
      else if d.size > 0 then (d, Text(Contents(d)))
      else (d, Empty)
    case Write(data) =>
      if d.perm == ReadOnly then (d, Denied)
      else
        var len := Room(d, data);
        (d.(buffer := Overwrite(d.buffer, d.size, data[..len]), size := d.size + len), Written(len))
    case Info => (d, Status(d.size, Flags(d), d.perm))
    case Clear => if d.perm == ReadOnly then (d, Denied) else (d.(size := 0), Cleared)
    case SetPerm(p) => (d.(perm := p), PermSet)
    case SetUnknownPerm => (d, UnknownPerm)
  }

  function Replay(d: Device, ops: seq<Op>): (r: Device)
    requires WellFormed(d)
    ensures WellFormed(r)
    decreases |ops|
  {
    if ops == [] then d else Apply(Replay(d, ops[..|ops| - 1]), ops[|ops| - 1]).0
  }

  function ReplyAt(d: Device, ops: seq<Op>, i: nat): Reply
    requires WellFormed(d) && i < |ops|
  {
    Apply(Replay(d, ops[..i]), ops[i]).1
  }

  // ------------------------------------------- what a history of operations means

  /** The permission in force: the last one set. */
  function PermAfter(ops: seq<Op>): Perm
    decreases |ops|
  {
    if ops == [] then ReadWrite
    else if Last(ops).SetPerm? then Last(ops).perm
    else PermAfter(Front(ops))
  }

  /** The payloads of the permitted writes since the last permitted clear, joined. */
  function Payload(ops: seq<Op>): string
    decreases |ops|
  {
    if ops == [] then []
    else if Last(ops).Write? && PermAfter(Front(ops)) != ReadOnly then Payload(Front(ops)) + Last(ops).data
    else if Last(ops).Clear? && PermAfter(Front(ops)) != ReadOnly then []
    else Payload(Front(ops))
  }

  /** The sum of the byte counts reported by the replies since the last reply that reported a clear. */
  function Reported(d: Device, ops: seq<Op>): nat
    requires WellFormed(d)
    decreases |ops|
  {
    if ops == [] then 0
    else
      match Apply(Replay(d, Front(ops)), Last(ops)).1
      case Written(n) => Reported(d, Front(ops)) + n
      case Cleared => 0
      case _ => Reported(d, Front(ops))
  }

  function Truncated(text: string): string
  {
    if |text| <= CAPACITY then text else text[..CAPACITY]
  }

  lemma WriteTruncates(d: Device, text: string, data: string)
    requires WellFormed(d) && Contents(d) == Truncated(text) && d.perm != ReadOnly
    ensures Contents(Apply(d, Write(data)).0) == Truncated(text + data)
  {
    var len := Room(d, data);
    var r := Apply(d, Write(data)).0;
    assert Contents(r) == Contents(d) + data[..len];
    if |text| >= CAPACITY {
      assert (text + data)[..CAPACITY] == text[..CAPACITY];
      assert len == 0;
    } else if |text| + |data| > CAPACITY {
      assert (text + data)[..CAPACITY] == text + data[..CAPACITY - |text|];
    } else {
      assert data[..len] == data;
    }
  }

  lemma FreshIsEmpty(d: Device)
    requires Fresh(d)
    ensures WellFormed(d) && d.perm == ReadWrite && d.size == 0 && Contents(d) == Truncated([])
  {
  }

  /** What one operation does to the text held, the permission and the size. */
  lemma ApplyContents(d: Device, op: Op, text: string)
    requires WellFormed(d) && Contents(d) == Truncated(text)
    ensures var (r, reply) := Apply(d, op);
      && r.perm == (if op.SetPerm? then op.perm else d.perm)
      && (reply.Written? <==> op.Write? && d.perm != ReadOnly)
      && (reply.Cleared? <==> op.Clear? && d.perm != ReadOnly)
      && Contents(r) == Truncated(if reply.Written? then text + op.data else if reply.Cleared? then [] else text)
      && r.size == if reply.Written? then d.size + reply.count else if reply.Cleared? then 0 else d.size
  {
    hide Overwrite;
    if op.Write? && d.perm != ReadOnly {
      WriteTruncates(d, text, op.data);
    }
  }

  /** The device holds the first 4096 bytes of the permitted payloads since the last permitted clear,
      under the permission last set, and its size is what the write replies added up to. */
  lemma {:induction false} DeviceMeansHistory(d: Device, ops: seq<Op>)
    requires Fresh(d)
    ensures var r := Replay(d, ops);
      && r.perm == PermAfter(ops)
      && Contents(r) == Truncated(Payload(ops))
      && r.size == Reported(d, ops)
    decreases |ops|
  {
    hide Apply, Contents, Truncated, WellFormed;
    if ops == [] {
      FreshIsEmpty(d);
    } else {
      DeviceMeansHistory(d, Front(ops));
      ApplyContents(Replay(d, Front(ops)), Last(ops), Payload(Front(ops)));
    }
  }

  /** What the client should be told, from the history of operations alone. */
  function ExpectedReply(history: seq<Op>, op: Op): Reply
  {
    var held, perm := Truncated(Payload(history)), PermAfter(history);
    match op
    case Connect => Silence
    case Disconnect => Silence
    case Read => if perm == WriteOnly then Denied else if held == [] then Empty else Text(held)
    case Write(data) =>
      if perm == ReadOnly then Denied
      else Written(if |held| + |data| <= CAPACITY then |data| else CAPACITY - |held|)
    case Info =>
      var open := if Connect in history then OPEN_BIT else 0;
      var busy := if LastSwitch(history) == Some(Connect) then BUSY_BIT else 0;
      Status(|held|, open + busy, perm)
    case Clear => if perm == ReadOnly then Denied else Cleared
    case SetPerm(_) => PermSet
    case SetUnknownPerm => UnknownPerm
  }

  /** Every reply is the one the history calls for. */
  lemma RepliesMeanHistory(d: Device, ops: seq<Op>, i: nat)
    requires Fresh(d) && i < |ops|
    ensures ReplyAt(d, ops, i) == ExpectedReply(ops[..i], ops[i])
  {
    hide Payload, Truncated, PermAfter, LastSwitch, Replay, Reported, Overwrite;
    DeviceMeansHistory(d, ops[..i]);
    FlagsMeanHistory(d, ops[..i]);
  }

  /** While the device is read-only, no run of operations that sets no permission changes what it holds. */
  lemma {:induction false} ReadOnlyKeepsContents(d: Device, ops: seq<Op>)
    requires WellFormed(d) && d.perm == ReadOnly
    requires forall op :: op in ops ==> !op.SetPerm?
    ensures var r := Replay(d, ops); r.buffer == d.buffer && r.size == d.size && r.perm == ReadOnly
    decreases |ops|
  {
    if ops == [] {
    } else {
      assert Last(ops) in ops;
      ReadOnlyKeepsContents(d, Front(ops));
    }
  }

  lemma {:induction false} PermKept(d: Device, ops: seq<Op>)
    requires WellFormed(d)
    requires forall op :: op in ops ==> !op.SetPerm?
    ensures Replay(d, ops).perm == d.perm
    decreases |ops|
  {
    if ops == [] {
    } else {
      assert Last(ops) in ops;
      PermKept(d, Front(ops));
    }
  }

  /** While the device is write-only, no reply carries its contents. */
  lemma WriteOnlyYieldsNothing(d: Device, ops: seq<Op>, i: nat)
    requires WellFormed(d) && d.perm == WriteOnly && i < |ops|
    requires forall op :: op in ops ==> !op.SetPerm?
    ensures !ReplyAt(d, ops, i).Text?
    ensures ops[i].Read? ==> ReplyAt(d, ops, i) == Denied
  {
    assert forall op :: op in ops[..i] ==> op in ops;
    PermKept(d, ops[..i]);
  }

  // ------------------------------------------------------------------ flags

  /** The last connection or disconnection, if any. */
  function LastSwitch(ops: seq<Op>): Option<Op>
    decreases |ops|
  {
    if ops == [] then None
    else if Last(ops).Connect? || Last(ops).Disconnect? then Some(Last(ops))
    else LastSwitch(Front(ops))
  }

  lemma ApplyFlags(d: Device, op: Op)
    requires WellFormed(d)
    ensures var r := Apply(d, op).0;
      && (r.busy <==> op.Connect? || (d.busy && !op.Disconnect?))
      && (r.open <==> op.Connect? || d.open)
  {
  }

  lemma ConnectIn(ops: seq<Op>)
    requires ops != []
    ensures Connect in ops <==> Connect in Front(ops) || Last(ops).Connect?
  {
    assert ops == Front(ops) + [Last(ops)];
  }

  /** BUSY tells that the last session to come or go came; OPEN that any ever did. */
  lemma {:induction false} FlagsMeanHistory(d: Device, ops: seq<Op>)
    requires Fresh(d)
    ensures var r := Replay(d, ops);
      && (r.busy <==> LastSwitch(ops) == Some(Connect))
      && (r.open <==> Connect in ops)
    decreases |ops|
  {
    hide Apply;
    if ops == [] {
    } else {
      FlagsMeanHistory(d, Front(ops));
      ApplyFlags(Replay(d, Front(ops)), Last(ops));
      ConnectIn(ops);
    }
  }
}
