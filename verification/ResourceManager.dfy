/** The device as the server keeps it: one object updated in place by the critical sections. */
module ResourceManager {
  import C = Common
  import D = Device

  class ManagedDevice {
    var buffer: array<char>
    var size: nat
    var flagOpen: bool
    var flagBusy: bool
    var permissions: D.Perm

    ghost function Snapshot(): D.Device
      reads this, buffer
    {
      D.Device(buffer[..], size, flagOpen, flagBusy, permissions)
    }

    ghost predicate Valid()
      reads this, buffer
    {
      D.WellFormed(Snapshot())
    }

    constructor ()
      ensures Valid() && fresh(buffer) && D.Fresh(Snapshot())
    {
      buffer := new char[D.CAPACITY];
      size, flagOpen, flagBusy, permissions := 0, false, false, D.ReadWrite;
    }

    /** client_thread marks the device when a session starts. */
    method OpenSession()
      requires Valid()
      modifies this
      ensures Valid() && buffer == old(buffer)
      ensures Snapshot() == D.Apply(old(Snapshot()), D.Connect).0
    {
      flagOpen, flagBusy := true, true;
    }

    /** client_thread clears BUSY, and only BUSY, when a session ends. */
    method CloseSession()
      requires Valid()
      modifies this
      ensures Valid() && buffer == old(buffer)
      ensures Snapshot() == D.Apply(old(Snapshot()), D.Disconnect).0
    {
      flagBusy := false;
    }

    /** memcpy into the buffer. */
    method CopyIn(at: nat, data: string, len: nat)
      requires len <= |data| && at + len <= buffer.Length
      modifies buffer
      ensures buffer[..] == C.Overwrite(old(buffer[..]), at, data[..len])
    {
      for k := 0 to len
        invariant buffer[..at] == old(buffer[..at])
        invariant buffer[at..at + k] == data[..k]
        invariant buffer[at + k..] == old(buffer[at + k..])
      {
        buffer[at + k] := data[k];
        assert buffer[at..at + k + 1] == data[..k] + [data[k]];
      }
      assert buffer[..] == buffer[..at] + buffer[at..at + len] + buffer[at + len..];
    }

    /** WRITE: append as much of the payload as there is room for. */
    method Append(data: string) returns (reply: D.Reply)
      requires Valid()
      modifies this, buffer
      ensures Valid() && buffer == old(buffer)
      ensures (Snapshot(), reply) == D.Apply(old(Snapshot()), D.Write(data))
    {
      if permissions == D.ReadOnly {
        return D.Denied;
      }
      var len := |data|;
      if len + size > D.CAPACITY {
        len := D.CAPACITY - size;
      }
      CopyIn(size, data, len);
      size := size + len;
      reply := D.Written(len);
    }

    /** handle_command on the bytes of one message. */
    method HandleCommand(bytes: string) returns (reply: D.Reply)
      requires Valid()
      modifies this, buffer
      ensures Valid() && buffer == old(buffer)
      ensures match D.Parse(D.CString(bytes))
        case None => Snapshot() == old(Snapshot()) && reply == D.UnknownCommand
        case Some(op) => (Snapshot(), reply) == D.Apply(old(Snapshot()), op)
    {
      var cmd := D.CString(bytes);
      if "READ" <= cmd {
        if permissions == D.WriteOnly {
          return D.Denied;
        }
        if size > 0 {
          reply := D.Text(buffer[..size]);
          assert buffer[..size] == D.Contents(Snapshot());
        } else {
          reply := D.Empty;
        }
      } else if "WRITE " <= cmd {
        reply := Append(cmd[6..]);
      } else if cmd == "INFO\n" {
        var flags := (if flagOpen then D.OPEN_BIT else 0) + (if flagBusy then D.BUSY_BIT else 0);
        reply := D.Status(size, flags, permissions);
      } else if cmd == "CLEAR\n" {
        if permissions == D.ReadOnly {
          return D.Denied;
        }
        size := 0;
        reply := D.Cleared;
      } else if "SETPERM " <= cmd {
        reply := ChangePermission(cmd[8..]);
      } else {
        reply := D.UnknownCommand;
      }
    }

    /** SETPERM: rw, ro or wo, by the first two letters. */
    method ChangePermission(arg: string) returns (reply: D.Reply)
      requires Valid()
      modifies this
      ensures Valid() && buffer == old(buffer)
      ensures var op :=
          if "rw" <= arg then D.SetPerm(D.ReadWrite)
          else if "ro" <= arg then D.SetPerm(D.ReadOnly)
          else if "wo" <= arg then D.SetPerm(D.WriteOnly)
          else D.SetUnknownPerm;
        (Snapshot(), reply) == D.Apply(old(Snapshot()), op)
    {
      reply := D.PermSet;
      if "rw" <= arg {
        permissions := D.ReadWrite;
      } else if "ro" <= arg {
        permissions := D.ReadOnly;
      } else if "wo" <= arg {
        permissions := D.WriteOnly;
      } else {
        reply := D.UnknownPerm;
      }
    }
  }
}
