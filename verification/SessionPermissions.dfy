/** Permissions under interleaving: what read-only and write-only guarantee while many sessions are at work,
    until one of them gets the lock for a SETPERM. */
module SessionPermissions {
  import opened Common
  import opened Device
  import opened Sessions

  /** No lock acquisition from number k on is for setting the permission. */
  predicate NoSetPermFrom(order: seq<(nat, Op)>, k: nat)
  {
    forall j :: k <= j < |order| ==> !order[j].1.SetPerm?
  }

  /** Histories only grow. */
  lemma StepGrows(s: State, e: Event)
    requires Enabled(s, e)
    ensures var u := Next(s, e); s.order <= u.order && s.answers <= u.answers
  {
    hide Parse, Micro, Ready, CString, Render;
  }

  // ------------------------------------------------------------------- read-only

  /** The device holds what d holds and is read-only, and nobody is about to change that. */
  predicate Frozen(d: Device, s: State)
  {
    && s.dev.buffer == d.buffer && s.dev.size == d.size && s.dev.perm == ReadOnly
    && forall i :: 0 <= i < |s.sessions| && s.sessions[i].Inside? ==>
         !s.sessions[i].op.SetPerm? && !s.sessions[i].work.Copy?
  }

  lemma FrozenProceed(d: Device, s: State, e: Event)
    requires Enabled(s, e) && Frozen(d, s) && e.Proceed?
    ensures Frozen(d, Next(s, e))
  {
    hide Render, Room;
  }

  lemma FrozenStep(d: Device, s: State, e: Event)
    requires Enabled(s, e) && Frozen(d, s)
    requires e.Take? ==> !s.sessions[e.i].op.SetPerm?
    ensures Frozen(d, Next(s, e))
  {
    hide Parse, CString, Render, Micro, Ready;
    if e.Proceed? {
      FrozenProceed(d, s, e);
    }
  }

  lemma TakenIsLast(s: State, e: Event, k: nat)
    requires Enabled(s, e) && e.Take? && k <= |s.order| && NoSetPermFrom(Next(s, e).order, k)
    ensures !s.sessions[e.i].op.SetPerm?
  {
    var u := Next(s, e);
    assert u.order[|s.order|].1 == s.sessions[e.i].op;
  }

  lemma {:induction false} FrozenRun(u: State, es: seq<Event>)
    requires Frozen(u.dev, u) && Run(u, es).Some? && NoSetPermFrom(Run(u, es).value.order, |u.order|)
    ensures Frozen(u.dev, Run(u, es).value) && u.order <= Run(u, es).value.order
    decreases |es|
  {
    hide Enabled, Next, Frozen;
    if es == [] {
    } else {
      var es', e := es[..|es| - 1], es[|es| - 1];
      var m := Run(u, es').value;
      StepGrows(m, e);
      FrozenRun(u, es');
      if e.Take? {
        TakenIsLast(m, e, |u.order|);
      }
      FrozenStep(u.dev, m, e);
    }
  }

  /** Once the device is read-only and the lock free, no run of any sessions changes what it holds, at any
      moment, as long as nobody gets the lock for SETPERM. */
  lemma ReadOnlyKeepsDevice(s: State, es: seq<Event>, u: State, es': seq<Event>, v: State)
    requires Init(s) && Run(s, es) == Some(u) && u.lock == None && u.dev.perm == ReadOnly
    requires Run(u, es') == Some(v) && NoSetPermFrom(v.order, |u.order|)
    ensures v.dev.buffer == u.dev.buffer && v.dev.size == u.dev.size && v.dev.perm == ReadOnly
  {
    hide Run, Inv;
    RunInv(s, es);
    NobodyInside(s.dev, u);
    FrozenRun(u, es');
  }

  // ------------------------------------------------------------------ write-only

  /** From answer number k on no contents are given away, and READ is refused. */
  predicate RefusedFrom(answers: seq<Answer>, k: nat)
  {
    forall j :: k <= j < |answers| ==>
      !answers[j].reply.Text? && (answers[j].request == Some(Read) ==> answers[j].reply == Denied)
  }

  /** An answer to READ outside the lock is a refusal, and no other answer carries contents. */
  predicate OutsideRefused(me: Session)
  {
    match me
    case Answering(request, reply, _, _) => !reply.Text? && (request == Some(Read) ==> reply == Denied)
    case Inside(op, Done(reply)) => op.Read? ==> reply == Denied || SentUnderLock(Done(reply))
    case _ => true
  }

  predicate RepliesOutside(s: State)
  {
    forall i :: 0 <= i < |s.sessions| ==> OutsideRefused(s.sessions[i])
  }

  /** The device is write-only, and nobody is sending, has just sent or is about to send its contents. */
  predicate Concealed(s: State)
  {
    && s.dev.perm == WriteOnly && RepliesOutside(s)
    && forall i :: 0 <= i < |s.sessions| && s.sessions[i].Inside? ==>
         var w := s.sessions[i].work;
         !s.sessions[i].op.SetPerm? && !w.Sending? && !SentUnderLock(w)
  }

  lemma ProceedOutside(s: State, e: Event)
    requires Enabled(s, e) && RepliesOutside(s) && e.Proceed?
    ensures RepliesOutside(Next(s, e))
  {
    hide Render, Room;
  }

  lemma StepOutside(s: State, e: Event)
    requires Enabled(s, e) && RepliesOutside(s)
    ensures RepliesOutside(Next(s, e))
  {
    hide Parse, CString, Render, Micro, Ready;
    if e.Proceed? {
      ProceedOutside(s, e);
    }
  }

  lemma {:induction false} RunOutside(s: State, es: seq<Event>)
    requires Init(s) && Run(s, es).Some?
    ensures RepliesOutside(Run(s, es).value)
    decreases |es|
  {
    hide Enabled, Next;
    if es == [] {
    } else {
      RunOutside(s, es[..|es| - 1]);
      StepOutside(Run(s, es[..|es| - 1]).value, es[|es| - 1]);
    }
  }

  lemma ConcealedProceed(s: State, e: Event, k: nat)
    requires Enabled(s, e) && Concealed(s) && e.Proceed? && RefusedFrom(s.answers, k)
    ensures Concealed(Next(s, e)) && RefusedFrom(Next(s, e).answers, k)
  {
    hide Render, Room;
  }

  lemma ConcealedStep(s: State, e: Event, k: nat)
    requires Enabled(s, e) && Concealed(s) && RefusedFrom(s.answers, k)
    requires e.Take? ==> !s.sessions[e.i].op.SetPerm?
    ensures Concealed(Next(s, e)) && RefusedFrom(Next(s, e).answers, k)
  {
    hide Parse, CString, Render, Micro, Ready;
    if e.Proceed? {
      ConcealedProceed(s, e, k);
    }
  }

  lemma {:induction false} ConcealedRun(u: State, es: seq<Event>)
    requires Concealed(u) && Run(u, es).Some? && NoSetPermFrom(Run(u, es).value.order, |u.order|)
    ensures Concealed(Run(u, es).value) && RefusedFrom(Run(u, es).value.answers, |u.answers|)
    ensures u.order <= Run(u, es).value.order
    decreases |es|
  {
    hide Enabled, Next, Concealed;
    if es == [] {
    } else {
      var es', e := es[..|es| - 1], es[|es| - 1];
      var m := Run(u, es').value;
      StepGrows(m, e);
      ConcealedRun(u, es');
      if e.Take? {
        TakenIsLast(m, e, |u.order|);
      }
      ConcealedStep(m, e, |u.answers|);
    }
  }

  /** Once the device is write-only and the lock free, no session sends any of its contents, none is
      answered with them, and every READ answered is refused, until somebody gets the lock for SETPERM. */
  lemma WriteOnlyConceals(s: State, es: seq<Event>, u: State, es': seq<Event>, v: State)
    requires Init(s) && Run(s, es) == Some(u) && u.lock == None && u.dev.perm == WriteOnly
    requires Run(u, es') == Some(v) && NoSetPermFrom(v.order, |u.order|)
    ensures v.dev.perm == WriteOnly
    ensures forall i :: 0 <= i < |v.sessions| && v.sessions[i].Inside? ==> !v.sessions[i].work.Sending?
    ensures forall j :: |u.answers| <= j < |v.answers| ==>
      !v.answers[j].reply.Text? && (v.answers[j].request == Some(Read) ==> v.answers[j].reply == Denied)
  {
    hide Run, Inv;
    RunInv(s, es);
    RunOutside(s, es);
    NobodyInside(s.dev, u);
    ConcealedRun(u, es');
  }
}
