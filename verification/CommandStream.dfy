/** Commands on their way through a stream socket.

    A stream has no message boundaries: one recv delivers up to 1023 of the bytes that are there, and the
    server takes whatever it gets for one command, up to the first NUL. The module says exactly when that
    is the command the client wrote. */
module CommandStream {
  import opened Common
  import opened Device

  predicate IsCommand(op: Op) { !op.Connect? && !op.Disconnect? }

  /** The command a client writes for an operation. */
  function Command(op: Op): string
    requires IsCommand(op)
  {
    match op
    case Read => "READ\n"
    case Write(data) => "WRITE " + data
    case Info => "INFO\n"
    case Clear => "CLEAR\n"
    case SetPerm(ReadWrite) => "SETPERM rw\n"
    case SetPerm(ReadOnly) => "SETPERM ro\n"
    case SetPerm(WriteOnly) => "SETPERM wo\n"
    case SetUnknownPerm => "SETPERM "
  }

  /** The data, if there is any, can be told from the end of a C string. */
  predicate NulFree(op: Op) { op.Write? ==> NUL !in op.data }

  /** The most that one recv delivers of what a client has sent. */
  function OneRecv(stream: string): (chunk: string)
    ensures chunk <= stream && |chunk| <= RECV_MAX
  {
    if |stream| <= RECV_MAX then stream else stream[..RECV_MAX]
  }

  /** What the server makes of the bytes of one recv. */
  function Understood(chunk: string): Option<Op> { Parse(CString(chunk)) }

  // -------------------------------------------------------------- one command

  lemma {:induction false} CStringWhole(s: string)
    requires NUL !in s
    ensures CString(s) == s
  {
    if s == [] {
    } else {
      assert s[0] in s && forall c :: c in s[1..] ==> c in s;
      CStringWhole(s[1..]);
      assert s == [s[0]] + s[1..];
    }
  }

  lemma ParseCommand(op: Op)
    requires IsCommand(op)
    ensures Parse(Command(op)) == Some(op)
  {
    var cmd := Command(op);
    match op
    case Write(data) =>
      assert cmd[0] == 'W';
      assert cmd[6..] == data;
    case SetPerm(p) =>
      assert cmd[0] == 'S';
      var arg := cmd[8..];
      assert arg == (match p case ReadWrite => "rw\n" case ReadOnly => "ro\n" case WriteOnly => "wo\n");
      assert arg[..2] == (match p case ReadWrite => "rw" case ReadOnly => "ro" case WriteOnly => "wo");
      assert arg[0] == (if p == WriteOnly then 'w' else 'r') && arg[1] == (if p == ReadWrite then 'w' else 'o');
    case SetUnknownPerm =>
      assert cmd[0] == 'S';
      assert cmd[8..] == [];
    case Read =>
      assert cmd[..4] == "READ";
    case Info =>
      assert cmd[0] == 'I';
    case Clear =>
      assert cmd[0] == 'C';
  }

  lemma CommandHasNoNul(op: Op)
    requires IsCommand(op)
    ensures NUL !in Command(op) <==> NulFree(op)
  {
    if op.Write? && NUL in op.data {
      assert Command(op)[6..] == op.data;
    }
  }

  /** No data with a NUL in it and no data longer than what was received is ever understood. */
  lemma UnderstoodData(chunk: string)
    ensures Understood(chunk).Some? && Understood(chunk).value.Write? ==>
      NUL !in Understood(chunk).value.data && |chunk| >= 6 + |Understood(chunk).value.data|
  {
    var cmd := CString(chunk);
    if Parse(cmd).Some? && Parse(cmd).value.Write? {
      assert forall c :: c in cmd[6..] ==> c in cmd;
    }
  }

  lemma LongCommandIsWrite(op: Op)
    requires IsCommand(op) && |Command(op)| > RECV_MAX
    ensures op.Write? && |op.data| > RECV_MAX - 6
    ensures OneRecv(Command(op)) == Command(Write(op.data[..RECV_MAX - 6]))
  {
  }

  /** A command that arrives by itself is understood as the operation it was written for if and only if
      one recv can take it in and its data holds no NUL; a longer WRITE loses the end of its data. */
  lemma CommandRoundTripIff(op: Op)
    requires IsCommand(op)
    ensures Understood(OneRecv(Command(op))) == Some(op) <==> |Command(op)| <= 1023 && NulFree(op)
    ensures |Command(op)| > RECV_MAX && NulFree(op) ==>
      op.Write? && |op.data| >= RECV_MAX - 6
      && Understood(OneRecv(Command(op))) == Some(Write(op.data[..RECV_MAX - 6]))
  {
    hide Parse, Command;
    var chunk := OneRecv(Command(op));
    CommandHasNoNul(op);
    UnderstoodData(chunk);
    if |Command(op)| > RECV_MAX {
      LongCommandIsWrite(op);
    }
    if NulFree(op) {
      CStringWhole(chunk);
      ParseCommand(op);
      if chunk != Command(op) {
        ParseCommand(Write(op.data[..RECV_MAX - 6]));
      }
    }
  }

  /** The end of an overlong WRITE is taken for a command of its own: whatever operation the data spells
      out after 1017 bytes is done next. */
  lemma LongWriteRunsItsTail(data: string, op: Op)
    requires IsCommand(op) && |Command(op)| <= RECV_MAX && NulFree(op)
    requires |data| == RECV_MAX - 6 && NUL !in data
    ensures var stream := Command(Write(data + Command(op)));
      && Understood(OneRecv(stream)) == Some(Write(data))
      && Understood(OneRecv(stream[|OneRecv(stream)|..])) == Some(op)
  {
    hide Command, Understood;
    WriteConcat(data, Command(op));
    var stream := Command(Write(data + Command(op)));
    WriteLength(data);
    assert OneRecv(stream) == Command(Write(data)) == OneRecv(Command(Write(data)));
    CommandRoundTripIff(Write(data));
    assert stream[RECV_MAX..] == Command(op) == OneRecv(Command(op));
    CommandRoundTripIff(op);
  }

  lemma WriteConcat(data: string, more: string)
    ensures Command(Write(data + more)) == Command(Write(data)) + more
  {
  }

  lemma WriteLength(data: string)
    ensures |Command(Write(data))| == |data| + 6
  {
  }

  // --------------------------------------------------------- what is looked at

  /** READ takes no arguments and ignores what follows; WRITE takes all that follows for data. */
  lemma ReadIgnoresArguments(tail: string)
    ensures Parse("READ" + tail) == Some(Read)
    ensures Parse("WRITE " + tail) == Some(Write(tail))
  {
    assert ("READ" + tail)[..4] == "READ";
    var w := "WRITE " + tail;
    assert w[..6] == "WRITE " && w[6..] == tail && w[0] == 'W';
  }

  /** SETPERM is decided by exactly the first two letters of its argument, whatever follows them. */
  lemma SetPermByTwoLetters(a: char, b: char, tail: string)
    ensures Parse("SETPERM " + [a, b] + tail) == Some(
      if a == 'r' && b == 'w' then SetPerm(ReadWrite)
      else if a == 'r' && b == 'o' then SetPerm(ReadOnly)
      else if a == 'w' && b == 'o' then SetPerm(WriteOnly)
      else SetUnknownPerm)
    ensures Parse("SETPERM ") == Parse("SETPERM " + [a]) == Some(SetUnknownPerm)
  {
    var cmd := "SETPERM " + [a, b] + tail;
    assert cmd[..8] == "SETPERM " && cmd[8..] == [a, b] + tail && cmd[0] == 'S';
    var arg := cmd[8..];
    assert arg[0] == a && arg[1] == b && arg[..2] == [a, b];
    var short := "SETPERM " + [a];
    assert short[..8] == "SETPERM " && short[8..] == [a] && short[0] == 'S';
    assert "SETPERM "[8..] == "";
  }

  /** INFO and CLEAR have to be the whole command, with its line end, and everything else is unknown. */
  lemma UnknownIff(cmd: string)
    ensures Parse(cmd) == Some(Info) <==> cmd == "INFO\n"
    ensures Parse(cmd) == Some(Clear) <==> cmd == "CLEAR\n"
    ensures Parse(cmd) == None <==>
      && cmd != "INFO\n" && cmd != "CLEAR\n"
      && forall tail :: cmd != "READ" + tail && cmd != "WRITE " + tail && cmd != "SETPERM " + tail
  {
    assert "INFO\n"[0] == 'I' && "CLEAR\n"[0] == 'C';
    assert "READ" <= cmd ==> cmd[0] == 'R';
    assert "WRITE " <= cmd ==> cmd[0] == 'W';
    if "READ" <= cmd {
      assert cmd == "READ" + cmd[4..];
    } else if "WRITE " <= cmd {
      assert cmd == "WRITE " + cmd[6..];
    } else if "SETPERM " <= cmd {
      assert cmd == "SETPERM " + cmd[8..];
    }
  }

  /** A message ends at its first NUL. */
  lemma MessageEndsAtNul(a: string, b: string)
    requires NUL !in a
    ensures CString(a + [NUL] + b) == a
  {
    assert a + [NUL] + b == a + ([NUL] + b);
    CStringConcat(a, [NUL] + b);
  }

  // ---------------------------------------------------- two commands in a row

  /** The command does not depend on what follows it: only its beginning is looked at. */
  predicate KnownByPrefix(op: Op) { op.Read? || op.SetPerm? || op.SetUnknownPerm? }

  /** All that tells a glued command from a single one: more bytes, the first of them a capital letter. */
  predicate Glued(op: Op, chunk: string)
    requires IsCommand(op)
  {
    var n := |Command(op)|;
    Command(op) <= chunk && n < |chunk| && chunk[n] in {'R', 'W', 'I', 'C', 'S'}
  }

  lemma {:induction false} CStringConcat(prefix: string, rest: string)
    requires NUL !in prefix
    ensures CString(prefix + rest) == prefix + CString(rest)
  {
    if prefix == [] {
      assert prefix + rest == rest;
    } else {
      assert prefix == [prefix[0]] + prefix[1..];
      CStringConcat(prefix[1..], rest);
      assert (prefix + rest)[1..] == prefix[1..] + rest;
    }
  }

  lemma GluedCString(op: Op, chunk: string)
    requires IsCommand(op) && NulFree(op) && Glued(op, chunk)
    ensures Glued(op, CString(chunk))
  {
    hide Command;
    var cmd := Command(op);
    CommandHasNoNul(op);
    assert chunk == cmd + chunk[|cmd|..];
    CStringConcat(cmd, chunk[|cmd|..]);
    assert CString(chunk[|cmd|..])[0] == chunk[|cmd|];
  }

  lemma ParseGlued(op: Op, cmd: string)
    requires IsCommand(op) && Glued(op, cmd)
    ensures Parse(cmd) == Some(op) <==> KnownByPrefix(op)
  {
    var n := |Command(op)|;
    assert cmd[..n] == Command(op);
    match op
    case Write(data) =>
      assert cmd[0] == 'W' && cmd[..6] == "WRITE ";
      assert |cmd[6..]| > |data|;
    case SetPerm(p) =>
      assert cmd[0] == 'S' && cmd[..8] == "SETPERM ";
      assert cmd[8] == Command(op)[8] && cmd[9] == Command(op)[9];
      var arg := cmd[8..];
      assert arg[..2] == (match p case ReadWrite => "rw" case ReadOnly => "ro" case WriteOnly => "wo");
    case SetUnknownPerm =>
      assert cmd[0] == 'S' && cmd[..8] == "SETPERM ";
      assert cmd[8..][0] == cmd[8];
    case Read =>
      assert cmd[..4] == "READ";
    case Info =>
      assert cmd[0] == 'I';
    case Clear =>
      assert cmd[0] == 'C';
  }

  lemma BeginsWithCapital(op: Op)
    requires IsCommand(op)
    ensures Command(op) != [] && Command(op)[0] in {'R', 'W', 'I', 'C', 'S'}
  {
  }

  lemma GlueIsCapital(op: Op, next: Op)
    requires IsCommand(op) && IsCommand(next) && |Command(op)| < RECV_MAX
    ensures Glued(op, OneRecv(Command(op) + Command(next)))
  {
    hide Command;
    BeginsWithCapital(next);
    var n, stream := |Command(op)|, Command(op) + Command(next);
    assert stream[n] == Command(next)[0] && stream[..n] == Command(op);
    assert OneRecv(stream)[..n] == Command(op);
  }

  /** A command with another one right behind it, both delivered as far as one recv takes them, is
      understood if and only if it is one that is recognised by its beginning, or fills the recv by itself.
      INFO and CLEAR are not recognised at all then, and WRITE takes the next command for data. */
  lemma GluedCommandIff(op: Op, next: Op)
    requires IsCommand(op) && IsCommand(next)
    ensures Understood(OneRecv(Command(op) + Command(next))) == Some(op) <==>
      KnownByPrefix(op) || (|Command(op)| == RECV_MAX && NulFree(op))
  {
    hide Parse, Command;
    var stream := Command(op) + Command(next);
    var chunk := OneRecv(stream);
    CommandHasNoNul(op);
    UnderstoodData(chunk);
    if |Command(op)| >= RECV_MAX {
      assert chunk == OneRecv(Command(op));
      CommandRoundTripIff(op);
      LongIsWrite(op);
    } else {
      GlueIsCapital(op, next);
      if NulFree(op) {
        GluedCString(op, chunk);
        ParseGlued(op, CString(chunk));
      }
    }
  }

  lemma LongIsWrite(op: Op)
    requires IsCommand(op) && |Command(op)| >= RECV_MAX
    ensures op.Write?
  {
  }

  /** INFO and CLEAR are lost with another command behind them, and WRITE stores it. */
  lemma GluedCommandsMisread(data: string, next: Op)
    requires IsCommand(next) && NulFree(next) && NUL !in data
    requires |Command(Write(data))| + |Command(next)| <= RECV_MAX
    ensures Understood(OneRecv(Command(Info) + Command(next))) == None
    ensures Understood(OneRecv(Command(Clear) + Command(next))) == None
    ensures Understood(OneRecv(Command(Write(data)) + Command(next))) == Some(Write(data + Command(next)))
  {
    hide Parse, CString;
    CommandHasNoNul(next);
    CommandHasNoNul(Write(data));
    var glued := Command(Write(data)) + Command(next);
    assert glued == Command(Write(data + Command(next)));
    CStringWhole(glued);
    ParseCommand(Write(data + Command(next)));
    InfoOrClearGlued(Info, next);
    InfoOrClearGlued(Clear, next);
  }

  lemma InfoOrClearGlued(op: Op, next: Op)
    requires op.Info? || op.Clear?
    requires IsCommand(next) && NulFree(next) && |Command(next)| <= RECV_MAX - 6
    ensures Understood(OneRecv(Command(op) + Command(next))) == None
  {
    hide CString;
    CommandHasNoNul(next);
    var glued := Command(op) + Command(next);
    CStringWhole(glued);
    NotEmpty(next);
    assert glued[0] == Command(op)[0];
  }

  function AfterRecv(stream: string): string { stream[|OneRecv(stream)|..] }

  /** What the server makes of a stream when every recv finds as much as it can take. */
  function UnderstoodAll(stream: string): (r: seq<Option<Op>>)
    ensures r == [] <==> stream == []
    decreases |stream|
  {
    if stream == [] then [] else [Understood(OneRecv(stream))] + UnderstoodAll(AfterRecv(stream))
  }

  lemma ParseStarts(cmd: string)
    ensures Parse(cmd).Some? ==>
      IsCommand(Parse(cmd).value) && cmd != [] && cmd[0] == Command(Parse(cmd).value)[0]
  {
  }

  lemma FirstLetterOnce(op: Op, k: nat)
    requires IsCommand(op) && !op.Write? && 0 < k < |Command(op)|
    ensures Command(op)[k] != Command(op)[0]
  {
  }

  /** The end of a command is never taken for that command. */
  lemma EndIsNotIt(op: Op, k: nat)
    requires IsCommand(op) && 0 < k < |Command(op)|
    ensures Understood(OneRecv(Command(op)[k..])) != Some(op)
  {
    hide Parse, CString;
    var chunk := OneRecv(Command(op)[k..]);
    UnderstoodData(chunk);
    ParseStarts(CString(chunk));
    if !op.Write? {
      FirstLetterOnce(op, k);
      assert CString(chunk) <= chunk <= Command(op)[k..];
    }
  }

  lemma FirstRecv(stream: string)
    requires stream != []
    ensures |UnderstoodAll(stream)| > 0 && UnderstoodAll(stream)[0] == Understood(OneRecv(stream))
    ensures UnderstoodAll(stream)[1..] == UnderstoodAll(AfterRecv(stream))
    ensures AfterRecv(stream) == [] <==> |stream| <= RECV_MAX
  {
    hide Understood;
  }

  lemma AllIsOneIff(stream: string, op: Op)
    requires stream != []
    ensures UnderstoodAll(stream) == [Some(op)] <==>
      |stream| <= RECV_MAX && Understood(OneRecv(stream)) == Some(op)
  {
    hide Understood, UnderstoodAll, OneRecv, AfterRecv;
    FirstRecv(stream);
    var all := UnderstoodAll(stream);
    assert all == [all[0]] + all[1..];
  }

  /** Of two commands that are there together both are understood if and only if the first one fills a
      recv exactly, the second one fits the next, and neither holds a NUL. */
  lemma BothUnderstoodIff(op: Op, next: Op)
    requires IsCommand(op) && IsCommand(next)
    ensures UnderstoodAll(Command(op) + Command(next)) == [Some(op), Some(next)] <==>
      |Command(op)| == RECV_MAX && |Command(next)| <= RECV_MAX && NulFree(op) && NulFree(next)
  {
    hide Command, Understood, UnderstoodAll;
    var stream := Command(op) + Command(next);
    var rest := AfterRecv(stream);
    NotEmpty(op);
    NotEmpty(next);
    AllIsTwoIff(stream, op, next);
    CommandRoundTripIff(op);
    CommandRoundTripIff(next);
    if |Command(op)| >= RECV_MAX {
      assert OneRecv(stream) == OneRecv(Command(op));
      if |Command(op)| == RECV_MAX {
        assert rest == Command(next);
        AllIsOneIff(rest, next);
      }
    } else if rest != [] {
      var k := RECV_MAX - |Command(op)|;
      assert rest == Command(next)[k..];
      EndIsNotIt(next, k);
      AllIsOneIff(rest, next);
    }
  }

  lemma NotEmpty(op: Op)
    requires IsCommand(op)
    ensures Command(op) != []
  {
  }

  lemma AllIsTwoIff(stream: string, op: Op, next: Op)
    requires stream != []
    ensures UnderstoodAll(stream) == [Some(op), Some(next)] <==>
      Understood(OneRecv(stream)) == Some(op) && UnderstoodAll(AfterRecv(stream)) == [Some(next)]
    ensures UnderstoodAll(AfterRecv(stream)) == [Some(next)] ==> AfterRecv(stream) != []
  {
    hide Understood, UnderstoodAll, OneRecv, AfterRecv;
    FirstRecv(stream);
    var all := UnderstoodAll(stream);
    assert all == [all[0]] + all[1..];
    assert [Some(op), Some(next)] == [Some(op)] + [Some(next)];
  }
}
