/** The replies as a client reads them: literal texts, numbers in decimal, and the contents as they are. */
module ReplyTexts {
  import opened Common
  import opened Device

  // ------------------------------------------------------- a client's reading

  predicate IsDigit(c: char) { '0' <= c <= '9' }

  /** The number that a row of decimal digits stands for. */
  function Number(digits: string): nat
    requires forall c :: c in digits ==> IsDigit(c)
  {
    if digits == [] then 0
    else
      assert IsDigit(Last(digits)) && forall c :: c in Front(digits) ==> c in digits;
      10 * Number(Front(digits)) + (Last(digits) as int - '0' as int)
  }

  /** The digits a text begins with. */
  function Digits(text: string): (d: string)
    ensures d <= text && forall c :: c in d ==> IsDigit(c)
    ensures |d| < |text| ==> !IsDigit(text[|d|])
  {
    if text == [] || !IsDigit(text[0]) then []
    else
      assert text == [text[0]] + text[1..];
      [text[0]] + Digits(text[1..])
  }

  /** Read a number behind a given lead; the rest of the text comes back with it. */
  function ReadNumber(lead: string, text: string): Option<(nat, string)>
  {
    if lead <= text && Digits(text[|lead|..]) != [] then
      var digits := Digits(text[|lead|..]);
      Some((Number(digits), text[|lead| + |digits|..]))
    else None
  }

  /** The three numbers of an INFO reply, in the order in which they stand. */
  function ReadStatus(text: string): Option<(nat, nat, nat)>
  {
    match ReadNumber("Size=", text)
    case None => None
    case Some((size, afterSize)) =>
      match ReadNumber(", Flags=", afterSize)
      case None => None
      case Some((flags, afterFlags)) =>
        match ReadNumber(", Permissions=", afterFlags)
        case None => None
        case Some((perm, end)) => if end == "\n" then Some((size, flags, perm)) else None
  }

  /** The number of bytes a WRITE reply reports. */
  function ReadWritten(text: string): Option<nat>
  {
    match ReadNumber("OK, ", text)
    case Some((count, end)) => if end == " bytes written\n" then Some(count) else None
    case None => None
  }

  // ------------------------------------------------------------ decimal numbers

  lemma DigitOf(k: nat)
    requires k < 10
    ensures IsDigit("0123456789"[k]) && "0123456789"[k] as int - '0' as int == k
  {
  }

  lemma NumberSnoc(d: string, c: char)
    requires (forall x :: x in d ==> IsDigit(x)) && IsDigit(c)
    ensures (forall x :: x in d + [c] ==> IsDigit(x))
    ensures Number(d + [c]) == 10 * Number(d) + (c as int - '0' as int)
  {
    assert Front(d + [c]) == d;
  }

  lemma {:induction false} DecimalIsNumber(n: nat)
    ensures forall c :: c in Decimal(n) ==> IsDigit(c)
    ensures Number(Decimal(n)) == n
  {
    hide Number;
    DigitOf(n % 10);
    var front := if n < 10 then [] else Decimal(n / 10);
    if n < 10 {
      assert Number(front) == 0 by { NumberOfNothing(); }
    } else {
      DecimalIsNumber(n / 10);
    }
    NumberSnoc(front, "0123456789"[n % 10]);
    assert Decimal(n) == front + ["0123456789"[n % 10]];
  }

  lemma NumberOfNothing()
    ensures Number([]) == 0
  {
  }

  /** A row of digits ends where something else begins. */
  lemma {:induction false} DigitsConcat(d: string, rest: string)
    requires forall c :: c in d ==> IsDigit(c)
    requires rest == [] || !IsDigit(rest[0])
    ensures Digits(d + rest) == d
  {
    if d == [] {
      assert d + rest == rest;
    } else {
      assert d == [d[0]] + d[1..];
      assert (d + rest)[1..] == d[1..] + rest;
      DigitsConcat(d[1..], rest);
    }
  }

  lemma ReadDecimal(lead: string, n: nat, rest: string)
    requires rest == [] || !IsDigit(rest[0])
    ensures ReadNumber(lead, lead + Decimal(n) + rest) == Some((n, rest))
  {
    hide Decimal, Number, Digits;
    var digits := Decimal(n);
    var text := lead + digits + rest;
    DecimalIsNumber(n);
    DigitsConcat(digits, rest);
    assert text == lead + (digits + rest);
    assert text[|lead|..] == digits + rest;
    assert text[|lead| + |digits|..] == rest;
  }

  lemma StatusReadBack(size: nat, flags: nat, perm: Perm)
    ensures ReadStatus(Render(Status(size, flags, perm))) ==
      Some((size, flags, match perm case ReadWrite => 0 case ReadOnly => 1 case WriteOnly => 2))
  {
    hide ReadNumber, Decimal;
    var last := ", Permissions=" + Decimal(PermCode(perm)) + "\n";
    var flagsOn := ", Flags=" + Decimal(flags) + last;
    assert Render(Status(size, flags, perm)) == "Size=" + Decimal(size) + flagsOn;
    ReadDecimal("Size=", size, flagsOn);
    ReadDecimal(", Flags=", flags, last);
    ReadDecimal(", Permissions=", PermCode(perm), "\n");
  }

  lemma WrittenReadBack(count: nat)
    ensures ReadWritten(Render(Written(count))) == Some(count)
  {
    hide ReadNumber, Decimal;
    ReadDecimal("OK, ", count, " bytes written\n");
  }

  // --------------------------------------------------- what the history calls for

  /** The text a client should get for a request, with the history of operations before it: said in letters,
      without reference to reply values or how they are written. */
  predicate ProperText(history: seq<Op>, request: Option<Op>, text: string)
  {
    var held, perm := Truncated(Payload(history)), PermAfter(history);
    match request
    case None => text == "Unknown command\n"
    case Some(Read) =>
      text == if perm == WriteOnly then "Permission denied\n" else if held == [] then "<buffer empty>\n" else held
    case Some(Write(data)) =>
      if perm == ReadOnly then text == "Permission denied\n"
      else ReadWritten(text) == Some(if |held| + |data| <= 4096 then |data| else 4096 - |held|)
    case Some(Info) =>
      var open := if Connect in history then 1 else 0;
      var busy := if LastSwitch(history) == Some(Connect) then 2 else 0;
      var code := match perm case ReadWrite => 0 case ReadOnly => 1 case WriteOnly => 2;
      ReadStatus(text) == Some((|held|, open + busy, code))
    case Some(Clear) => text == if perm == ReadOnly then "Permission denied\n" else "Buffer cleared\n"
    case Some(SetPerm(_)) => text == "Permission set\n"
    case Some(SetUnknownPerm) => text == "Unknown permission\n"
    case Some(Connect) => text == ""
    case Some(Disconnect) => text == ""
  }

  lemma RenderIsProper(history: seq<Op>, op: Op)
    ensures ProperText(history, Some(op), Render(ExpectedReply(history, op)))
    ensures ProperText(history, None, Render(UnknownCommand))
  {
    hide Payload, PermAfter, LastSwitch, Decimal, ReadStatus, ReadWritten, Truncated;
    match ExpectedReply(history, op)
    case Status(size, flags, perm) => StatusReadBack(size, flags, perm);
    case Written(count) => WrittenReadBack(count);
    case _ =>
  }
}
