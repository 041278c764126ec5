/** What each session experiences by itself.

    Sessions interleave, but every one of them takes the lock for its requests in the order in which it
    made them, gets its answers in that order, and its socket carries the text of these answers and
    nothing else. */
module SessionHistory {
  import opened Common
  import opened Device
  import opened CommandStream
  import opened Sessions

  // -------------------------------------------------- one session's share of a history

  /** What a message asks to be done under the lock. */
  function Meaning(m: Message): Option<Op>
  {
    match m
    case Hello => Some(Connect)
    case Bytes(bytes) => Parse(CString(bytes))
    case Bye => Some(Disconnect)
  }

  function AskedOps(requests: seq<(nat, Message)>, i: nat): seq<Op>
  {
    if requests == [] then []
    else
      var (j, m) := Last(requests);
      AskedOps(Front(requests), i) + (if j == i && Meaning(m).Some? then [Meaning(m).value] else [])
  }

  /** What is to be answered: every message received, understood or not. */
  function AskedReplies(requests: seq<(nat, Message)>, i: nat): seq<Option<Op>>
  {
    if requests == [] then []
    else
      var (j, m) := Last(requests);
      AskedReplies(Front(requests), i) + (if j == i && m.Bytes? then [Meaning(m)] else [])
  }

  function OpsBy(order: seq<(nat, Op)>, i: nat): seq<Op>
  {
    if order == [] then []
    else OpsBy(Front(order), i) + (if Last(order).0 == i then [Last(order).1] else [])
  }

  /** The lock acquisitions by which session i executed a command. */
  function CommandsBy(order: seq<(nat, Op)>, i: nat): seq<nat>
  {
    if order == [] then []
    else
      CommandsBy(Front(order), i)
        + (if Last(order).0 == i && IsCommand(Last(order).1) then [|order| - 1] else [])
  }

  function RequestsBy(answers: seq<Answer>, i: nat): seq<Option<Op>>
  {
    if answers == [] then []
    else RequestsBy(Front(answers), i) + (if Last(answers).session == i then [Last(answers).request] else [])
  }

  function TicketsBy(answers: seq<Answer>, i: nat): seq<nat>
  {
    if answers == [] then []
    else
      var a := Last(answers);
      TicketsBy(Front(answers), i) + (if a.session == i && a.ticket.Some? then [a.ticket.value] else [])
  }

  /** The text of everything answered to session i. */
  function TextTo(answers: seq<Answer>, i: nat): string
  {
    if answers == [] then []
    else TextTo(Front(answers), i) + (if Last(answers).session == i then Render(Last(answers).reply) else [])
  }

  // ------------------------------------------------------- what is still to come

  function UntakenOps(me: Session): seq<Op>
  {
    match me
    case Wants(op) => [op]
    case _ => []
  }

  function UnansweredRequests(me: Session): seq<Option<Op>>
  {
    match me
    case Wants(op) => if IsCommand(op) then [Some(op)] else []
    case Inside(op, w) => if IsCommand(op) && !SentUnderLock(w) then [Some(op)] else []
    case Answering(request, _, _, _) => [request]
    case _ => []
  }

  function UnansweredTickets(s: State, me: Session): seq<nat>
  {
    match me
    case Inside(op, w) => if IsCommand(op) && !SentUnderLock(w) then [Ticket(s)] else []
    case Answering(_, _, Some(k), _) => [k]
    case _ => []
  }

  /** The reply that is being written. */
  function TextUnderWay(me: Session): string
  {
    match me
    case Answering(_, reply, _, _) => Render(reply)
    case Inside(_, Sending(reply, _)) => Render(reply)
    case _ => ""
  }

  /** Session i has been served in turn. */
  predicate InTurn(s: State, i: nat)
  {
    && i < |s.sessions| == |s.links|
    && var me := s.sessions[i];
    && OpsBy(s.order, i) + UntakenOps(me) == AskedOps(s.requests, i)
    && RequestsBy(s.answers, i) + UnansweredRequests(me) == AskedReplies(s.requests, i)
    && TicketsBy(s.answers, i) + UnansweredTickets(s, me) == CommandsBy(s.order, i)
    && s.links[i].wire + Unwritten(me) == TextTo(s.answers, i) + TextUnderWay(me)
    && s.links[i].got <= |s.links[i].wire| <= s.links[i].got + s.window
  }

  // ------------------------------------------------------------------ steps

  lemma AskedGrow(requests: seq<(nat, Message)>, j: nat, m: Message, i: nat)
    ensures AskedOps(requests + [(j, m)], i)
      == AskedOps(requests, i) + (if j == i && Meaning(m).Some? then [Meaning(m).value] else [])
    ensures AskedReplies(requests + [(j, m)], i)
      == AskedReplies(requests, i) + (if j == i && m.Bytes? then [Meaning(m)] else [])
  {
    assert Front(requests + [(j, m)]) == requests;
  }

  lemma TakenGrow(order: seq<(nat, Op)>, j: nat, op: Op, i: nat)
    ensures OpsBy(order + [(j, op)], i) == OpsBy(order, i) + (if j == i then [op] else [])
    ensures CommandsBy(order + [(j, op)], i)
      == CommandsBy(order, i) + (if j == i && IsCommand(op) then [|order|] else [])
  {
    assert Front(order + [(j, op)]) == order;
  }

  lemma AnsweredGrow(answers: seq<Answer>, a: Answer, i: nat)
    ensures RequestsBy(answers + [a], i) == RequestsBy(answers, i) + (if a.session == i then [a.request] else [])
    ensures TicketsBy(answers + [a], i)
      == TicketsBy(answers, i) + (if a.session == i && a.ticket.Some? then [a.ticket.value] else [])
    ensures TextTo(answers + [a], i) == TextTo(answers, i) + (if a.session == i then Render(a.reply) else [])
  {
    assert Front(answers + [a]) == answers;
  }

  lemma SharesLinks(s: State, e: Event, i: nat)
    requires Enabled(s, e) && i < |s.sessions| && i != e.i
    ensures var u := Next(s, e);
      |u.sessions| == |u.links| == |s.links| && u.sessions[i] == s.sessions[i] && u.links[i] == s.links[i]
  {
    hide Parse, Micro, Ready, CString, Render;
  }

  /** A session is not concerned by what another one does. */
  lemma OtherAsks(s: State, e: Event, i: nat)
    requires Enabled(s, e) && i < |s.sessions| && i != e.i && InTurn(s, i)
    requires e.Arrive? || e.Receive? || e.HangUp? || e.Release? || e.ClientReads?
    ensures InTurn(Next(s, e), i)
  {
    hide AskedOps, AskedReplies, OpsBy, CommandsBy, RequestsBy, TicketsBy, TextTo, Parse, CString, Render, Ready;
    SharesLinks(s, e, i);
    match e
    case Arrive(_) => AskedGrow(s.requests, e.i, Hello, i);
    case Receive(_, bytes) => AskedGrow(s.requests, e.i, Bytes(bytes), i);
    case HangUp(_) => AskedGrow(s.requests, e.i, Bye, i);
    case _ =>
  }

  lemma OtherTakes(s: State, e: Event, i: nat)
    requires Enabled(s, e) && e.Take? && i != e.i && InTurn(s, i) && !s.sessions[i].Inside?
    ensures InTurn(Next(s, e), i)
  {
    hide AskedOps, AskedReplies, OpsBy, CommandsBy, RequestsBy, TicketsBy, TextTo, TextUnderWay, Unwritten;
    TakenGrow(s.order, e.i, s.sessions[e.i].op, i);
  }

  lemma OtherProceeds(s: State, e: Event, i: nat)
    requires Enabled(s, e) && e.Proceed? && i != e.i && InTurn(s, i)
    ensures InTurn(Next(s, e), i)
  {
    hide AskedOps, AskedReplies, OpsBy, CommandsBy, RequestsBy, TicketsBy, TextTo, Micro, Ready,
      TextUnderWay, UntakenOps, UnansweredRequests;
    SharesLinks(s, e, i);
    var w := Next(s, e).sessions[e.i].work;
    if SentUnderLock(w) {
      AnsweredGrow(s.answers, Answer(e.i, Some(s.sessions[e.i].op), Some(Ticket(s)), w.reply), i);
    }
  }

  lemma OtherSends(s: State, e: Event, i: nat)
    requires Enabled(s, e) && e.Send? && i != e.i && InTurn(s, i)
    ensures InTurn(Next(s, e), i)
  {
    hide AskedOps, AskedReplies, OpsBy, CommandsBy, RequestsBy, TicketsBy, TextTo,
      TextUnderWay, UntakenOps, UnansweredRequests;
    SharesLinks(s, e, i);
    AnsweredGrow(s.answers, Pending(e.i, s.sessions[e.i]), i);
  }

  lemma NothingMore<T>(s: seq<T>)
    ensures s + [] == s
  {
  }

  lemma AskingInTurn(s: State, e: Event)
    requires Enabled(s, e) && InTurn(s, e.i)
    requires e.Arrive? || e.Receive? || e.HangUp?
    ensures InTurn(Next(s, e), e.i)
  {
    hide AskedOps, AskedReplies, OpsBy, CommandsBy, RequestsBy, TicketsBy, TextTo, Parse, Render, CString;
    NothingMore(OpsBy(s.order, e.i));
    NothingMore(RequestsBy(s.answers, e.i));
    NothingMore(TextTo(s.answers, e.i));
    NothingMore(s.links[e.i].wire);
    match e
    case Arrive(i) => AskedGrow(s.requests, i, Hello, i);
    case HangUp(i) => AskedGrow(s.requests, i, Bye, i);
    case Receive(i, bytes) =>
      AskedGrow(s.requests, i, Bytes(bytes), i);
      ParseIsNoSwitch(CString(bytes));
  }

  lemma TakingInTurn(s: State, e: Event)
    requires Enabled(s, e) && InTurn(s, e.i) && e.Take?
    ensures InTurn(Next(s, e), e.i)
  {
    hide AskedOps, AskedReplies, OpsBy, CommandsBy, RequestsBy, TicketsBy, TextTo;
    TakenGrow(s.order, e.i, s.sessions[e.i].op, e.i);
  }

  /** Writing a byte moves it from what is to be written to what was. */
  lemma ByteMoves(wire: string, rest: string)
    requires rest != []
    ensures wire + [rest[0]] + rest[1..] == wire + rest
  {
    assert rest == [rest[0]] + rest[1..];
  }

  lemma ProceedingInTurn(s: State, e: Event)
    requires Enabled(s, e) && InTurn(s, e.i) && e.Proceed?
    ensures InTurn(Next(s, e), e.i)
  {
    hide AskedOps, AskedReplies, OpsBy, CommandsBy, RequestsBy, TicketsBy, TextTo, Render;
    var me := s.sessions[e.i];
    NothingMore(RequestsBy(s.answers, e.i));
    NothingMore(TextTo(s.answers, e.i));
    NothingMore(s.links[e.i].wire);
    EarlyAnswerIsRead(s.dev, me.op, me.work);
    if me.work.Sending? {
      if me.work.rest == [] {
        AnsweredGrow(s.answers, Answer(e.i, Some(me.op), Some(Ticket(s)), me.work.reply), e.i);
        NothingMore(TicketsBy(s.answers, e.i));
      } else {
        ByteMoves(s.links[e.i].wire, me.work.rest);
      }
    }
  }

  lemma ReleasingInTurn(s: State, e: Event)
    requires Enabled(s, e) && InTurn(s, e.i) && e.Release?
    ensures InTurn(Next(s, e), e.i)
  {
    hide AskedOps, AskedReplies, OpsBy, CommandsBy, RequestsBy, TicketsBy, TextTo, Render;
    NothingMore(TextTo(s.answers, e.i));
    NothingMore(s.links[e.i].wire);
  }

  lemma SendingInTurn(s: State, e: Event)
    requires Enabled(s, e) && InTurn(s, e.i) && e.Send?
    ensures InTurn(Next(s, e), e.i)
  {
    hide AskedOps, AskedReplies, OpsBy, CommandsBy, RequestsBy, TicketsBy, TextTo, Render;
    var me := s.sessions[e.i];
    if me.rest == [] {
      AnsweredGrow(s.answers, Pending(e.i, me), e.i);
    } else {
      ByteMoves(s.links[e.i].wire, me.rest);
    }
  }

  lemma OwnInTurn(s: State, e: Event)
    requires Enabled(s, e) && InTurn(s, e.i)
    ensures InTurn(Next(s, e), e.i)
  {
    hide InTurn, Next, Enabled;
    match e
    case Take(_) => TakingInTurn(s, e);
    case Proceed(_) => ProceedingInTurn(s, e);
    case Release(_) => ReleasingInTurn(s, e);
    case Send(_) => SendingInTurn(s, e);
    case ClientReads(_, _) => ReadingInTurn(s, e);
    case _ => AskingInTurn(s, e);
  }

  lemma ReadingInTurn(s: State, e: Event)
    requires Enabled(s, e) && InTurn(s, e.i) && e.ClientReads?
    ensures InTurn(Next(s, e), e.i)
  {
    hide AskedOps, AskedReplies, OpsBy, CommandsBy, RequestsBy, TicketsBy, TextTo, Unwritten,
      TextUnderWay, UntakenOps, UnansweredRequests;
  }

  // ------------------------------------------------------------- properties

  lemma {:induction false} RunInTurn(s: State, es: seq<Event>, i: nat)
    requires Init(s) && Run(s, es).Some? && i < |s.sessions|
    ensures var u := Run(s, es).value;
      |u.sessions| == |u.links| == |s.sessions| && u.window == s.window && InTurn(u, i)
    decreases |es|
  {
    hide InTurn, Next, Enabled, Inv, Init;
    if es == [] {
      StartInTurn(s, i);
    } else {
      var es', e := es[..|es| - 1], es[|es| - 1];
      RunInTurn(s, es', i);
      RunInv(s, es');
      var m := Run(s, es').value;
      SizesKept(m, e);
      if e.i == i {
        OwnInTurn(m, e);
      } else {
        OtherInTurn(s.dev, m, e, i);
      }
    }
  }

  lemma StartInTurn(s: State, i: nat)
    requires Init(s) && i < |s.sessions|
    ensures |s.links| == |s.sessions| && InTurn(s, i)
  {
  }

  lemma OtherInTurn(d0: Device, s: State, e: Event, i: nat)
    requires Inv(d0, s) && Enabled(s, e) && i < |s.sessions| && i != e.i && InTurn(s, i)
    ensures InTurn(Next(s, e), i)
  {
    hide InTurn, Next, Inv;
    match e
    case Take(_) =>
      NobodyInside(d0, s);
      OtherTakes(s, e, i);
    case Proceed(_) => OtherProceeds(s, e, i);
    case Send(_) => OtherSends(s, e, i);
    case _ => OtherAsks(s, e, i);
  }

  predicate Increasing(s: seq<nat>, bound: nat)
  {
    && (forall j, k :: 0 <= j < k < |s| ==> s[j] < s[k])
    && (forall k :: 0 <= k < |s| ==> s[k] < bound)
  }

  lemma {:induction false} CommandsIncrease(order: seq<(nat, Op)>, i: nat)
    ensures Increasing(CommandsBy(order, i), |order|)
  {
    if order == [] {
    } else {
      CommandsIncrease(Front(order), i);
    }
  }

  lemma IncreasingPrefix(s: seq<nat>, t: seq<nat>, bound: nat)
    requires Increasing(s + t, bound)
    ensures Increasing(s, bound)
  {
    assert forall k :: 0 <= k < |s| ==> s[k] == (s + t)[k];
  }

  /** Every session is served in the order in which it asked: it takes the lock for its requests one by
      one, it is answered once for every message received and understood or not, in that order, and by
      what its own lock acquisitions, taken in turn, call for. At most the last request is still open. */
  lemma EachSessionInOrder(s: State, es: seq<Event>, i: nat)
    requires Init(s) && Run(s, es).Some? && i < |s.sessions|
    ensures var u := Run(s, es).value;
      && |u.sessions| == |s.sessions|
      && OpsBy(u.order, i) + UntakenOps(u.sessions[i]) == AskedOps(u.requests, i)
      && RequestsBy(u.answers, i) + UnansweredRequests(u.sessions[i]) == AskedReplies(u.requests, i)
      && TicketsBy(u.answers, i) + UnansweredTickets(u, u.sessions[i]) == CommandsBy(u.order, i)
      && Increasing(TicketsBy(u.answers, i), |u.order|)
    ensures |UntakenOps(Run(s, es).value.sessions[i])| <= 1
    ensures |UnansweredRequests(Run(s, es).value.sessions[i])| <= 1
  {
    hide Run;
    RunInTurn(s, es, i);
    var u := Run(s, es).value;
    CommandsIncrease(u.order, i);
    IncreasingPrefix(TicketsBy(u.answers, i), UnansweredTickets(u, u.sessions[i]), |u.order|);
  }

  /** The socket of a session carries the text of its answers, in order and complete but for the part of
      the current reply that is still to be written; what the client has read is the beginning of it, and
      what it has not read fits the socket. */
  lemma SocketCarriesAnswers(s: State, es: seq<Event>, i: nat)
    requires Init(s) && Run(s, es).Some? && i < |s.sessions|
    ensures var u := Run(s, es).value;
      && |u.sessions| == |u.links| == |s.sessions|
      && var (me, link) := (u.sessions[i], u.links[i]);
      && link.wire + Unwritten(me) == TextTo(u.answers, i) + TextUnderWay(me)
      && (me == Idle ==> link.wire == TextTo(u.answers, i))
      && link.got <= |link.wire| <= link.got + s.window
  {
    hide Run, TextTo;
    RunInTurn(s, es, i);
    var u := Run(s, es).value;
    NothingMore(u.links[i].wire);
    NothingMore(TextTo(u.answers, i));
  }
}
