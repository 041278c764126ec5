/** What the bytes on a session's socket say. */
module SessionReplies {
  import opened Common
  import opened Device
  import opened Sessions
  import opened SessionHistory
  import opened ReplyTexts

  /** The operations before the lock acquisition that an answer belongs to. */
  function Before(order: seq<(nat, Op)>, ticket: Option<nat>): seq<Op>
  {
    match ticket
    case None => []
    case Some(k) => if k <= |order| then Ops(order)[..k] else []
  }

  /** One text for each answer: those that went to session i, joined. */
  function Joined(answers: seq<Answer>, texts: seq<string>, i: nat): string
    requires |texts| == |answers|
  {
    if answers == [] then []
    else Joined(Front(answers), Front(texts), i) + (if Last(answers).session == i then Last(texts) else [])
  }

  function Texts(answers: seq<Answer>): (texts: seq<string>)
    ensures |texts| == |answers| && forall j :: 0 <= j < |texts| ==> texts[j] == Render(answers[j].reply)
  {
    if answers == [] then [] else Texts(Front(answers)) + [Render(Last(answers).reply)]
  }

  lemma {:induction false} JoinedIsTextTo(answers: seq<Answer>, i: nat)
    ensures Joined(answers, Texts(answers), i) == TextTo(answers, i)
  {
    hide Render;
    if answers == [] {
    } else {
      JoinedIsTextTo(Front(answers), i);
      assert Front(Texts(answers)) == Texts(Front(answers));
    }
  }

  /** An honest answer has a proper text. */
  lemma HonestIsProper(d0: Device, order: seq<(nat, Op)>, a: Answer)
    requires Fresh(d0) && Honest(d0, order, a)
    ensures ProperText(Before(order, a.ticket), a.request, Render(a.reply))
  {
    hide ProperText, Render, ExpectedReply, ReplyAt;
    match a.ticket
    case None => RenderIsProper([], Connect);
    case Some(k) =>
      RepliesMeanHistory(d0, Ops(order), k);
      RenderIsProper(Ops(order)[..k], order[k].1);
  }

  /** The reply READ is writing under the lock is the one the sequential run gives. */
  lemma SendingIsHonest(d0: Device, s: State, i: nat)
    requires Inv(d0, s) && i < |s.sessions| && s.sessions[i].Inside? && s.sessions[i].work.Sending?
    ensures s.order != [] && s.sessions[i].op == Read
    ensures Honest(d0, s.order, Answer(i, Some(Read), Some(|s.order| - 1), s.sessions[i].work.reply))
  {
    hide Apply, Micro, RepliesHonest, ArrivalLive, Replay, ReplyAt;
    var me := s.sessions[i];
    HolderIsLast(d0, s, i);
    SendingCompletes(s.dev, me.op, me.work.reply, me.work.rest);
    ReplyAtIsLast(d0, Ops(s.order));
    assert Last(Ops(s.order)) == me.op;
  }

  /** What session i is writing, if anything: a proper text for the request it answers. */
  predicate ProperUnderWay(s: State, i: nat, text: string)
    requires i < |s.sessions|
  {
    match s.sessions[i]
    case Answering(request, _, ticket, _) => ProperText(Before(s.order, ticket), request, text)
    case Inside(_, Sending(_, _)) =>
      s.order != [] && ProperText(Before(s.order, Some(|s.order| - 1)), Some(Read), text)
    case _ => text == ""
  }

  lemma UnderWayIsProper(d0: Device, s: State, i: nat)
    requires Inv(d0, s) && i < |s.sessions|
    ensures ProperUnderWay(s, i, TextUnderWay(s.sessions[i]))
  {
    hide ProperText, Render, Honest, DeviceOnTrack, ArrivalLive;
    match s.sessions[i]
    case Answering(_, _, _, _) => HonestIsProper(d0, s.order, Pending(i, s.sessions[i]));
    case Inside(_, Sending(reply, _)) =>
      SendingIsHonest(d0, s, i);
      HonestIsProper(d0, s.order, Answer(i, Some(Read), Some(|s.order| - 1), reply));
    case _ =>
  }

  /** The bytes that have gone to a client are texts in its letters, one for each answer and in their order:
      for a READ that was permitted the first 4096 bytes of the payloads since the last CLEAR, for WRITE and
      INFO texts that read back as the counts and the status of that moment, and the literal texts of
      refusals, successes and unknown commands. The text that is being written is one of these too. */
  lemma WireSaysHistory(s: State, es: seq<Event>, u: State, i: nat) returns (texts: seq<string>, current: string)
    requires Init(s) && Run(s, es) == Some(u) && i < |s.sessions|
    ensures |texts| == |u.answers| && i < |u.sessions| == |u.links|
    ensures forall j :: 0 <= j < |texts| ==>
      ProperText(Before(u.order, u.answers[j].ticket), u.answers[j].request, texts[j])
    ensures u.links[i].wire + Unwritten(u.sessions[i]) == Joined(u.answers, texts, i) + current
    ensures ProperUnderWay(u, i, current)
  {
    hide Run, ProperText, Render, Honest, TextTo, ProperUnderWay, TextUnderWay, Before;
    RunInv(s, es);
    SocketCarriesAnswers(s, es, i);
    JoinedIsTextTo(u.answers, i);
    texts, current := Texts(u.answers), TextUnderWay(u.sessions[i]);
    forall j | 0 <= j < |texts|
      ensures ProperText(Before(u.order, u.answers[j].ticket), u.answers[j].request, texts[j])
    {
      HonestIsProper(s.dev, u.order, u.answers[j]);
    }
    UnderWayIsProper(s.dev, u, i);
  }
}
