/** The delivery gate against acknowledgements, in every interleaving. */
module AckCutoff {
  import opened Prelude
  import opened Broker
  import opened Interleaving

  /** No copy of `m` can pass the gate: it has no status, or an acknowledged one. */
  predicate CutOff(s: System, m: Id) {
    m !in s.status || !s.status[m].CanDeliver()
  }

  /** The step inserts a fresh status for `m`. */
  predicate AcceptsAgain(s: System, ev: Event, m: Id) {
    ev.PubEv? && ev.ps.Accept? && ev.p in s.pubs && s.pubs[ev.p].message.messageId == m
  }

  /** The step lets a copy of `m` through the gate. */
  ghost predicate Passes(s: System, ev: Event, m: Id)
    requires Enabled(s, ev)
  {
    && ev.SessionEv? && ev.ss.PassStatusGate? && s.chans[ev.c].session.e.id == m
    && Next(s, ev).chans[ev.c].session.Writing?
  }

  /** The step marks `m` acknowledged. */
  predicate MarksAck(s: System, ev: Event, m: Id) {
    ev.RemEv? && ev.ms.MarkAcknowledged? && ev.a in s.removers && s.removers[ev.a].m == m
  }

  // ----- The status table, step by step

  lemma PubStatus(s: System, p: TaskId, step: PubStep)
    requires PubEnabled(s, p, step)
    ensures PubNext(s, p, step).status ==
      if step.Unstatus? then s.status - {s.pubs[p].phase.victim}
      else if step.Accept? then s.status[s.pubs[p].message.messageId := Sent(step.now)]
      else s.status
  {
    match step
    case Begin(_) =>
    case CheckDuplicate =>
    case Saved(_) =>
    case Route(_) =>
    case MakeRoom =>
    case Unindex =>
    case Unstatus =>
    case Append =>
    case Index =>
    case Accept(_) =>
    case Notify =>
  }

  lemma RemStatus(s: System, a: TaskId, step: RemStep)
    requires RemEnabled(s, a, step)
    ensures RemNext(s, a, step).status ==
      if step.MarkAcknowledged? && s.removers[a].m in s.status
      then s.status[s.removers[a].m := s.status[s.removers[a].m].(acknowledgedTime := Some(step.now))]
      else if step.DropStatus? then s.status - {s.removers[a].m}
      else s.status
  {
  }

  lemma SessionStatus(s: System, c: ChannelId, step: SessionStep)
    requires SessionEnabled(s, c, step)
    ensures SessionNext(s, c, step).status ==
      if step.Mark? then MarkStatus(s.status, s.chans[c].session.e.id, step.now) else s.status
  {
  }

  lemma CutOffStep(s: System, ev: Event, m: Id)
    requires Enabled(s, ev)
    ensures CutOff(s, m) && !AcceptsAgain(s, ev, m) ==> CutOff(Next(s, ev), m)
    ensures MarksAck(s, ev, m) ==> CutOff(Next(s, ev), m)
  {
    match ev {
      case DeclareEv(_) =>
      case PubEv(p, step) => PubStatus(s, p, step);
      case RegEv(r, step) => RegStatus(s, r, step);
      case RemEv(a, step) => RemStatus(s, a, step);
      case SessionEv(c, step) => SessionStatus(s, c, step);
    }
  }

  lemma RegStatus(s: System, r: TaskId, step: RegStep)
    requires RegEnabled(s, r, step)
    ensures RegNext(s, r, step).status == s.status
  {
    match step
    case Consume(_, _) =>
    case Declare =>
    case Join =>
    case Copy =>
    case Filter =>
    case Send =>
  }

  /** A copy passes exactly when its message is not cut off. */
  lemma GateIff(s: System, c: ChannelId)
    requires SessionEnabled(s, c, PassStatusGate)
    ensures forall m :: Passes(s, SessionEv(c, PassStatusGate), m) <==> s.chans[c].session.e.id == m && !CutOff(s, m)
  {
  }

  /** Some step of the run inserts a fresh status for `m`. */
  ghost predicate AcceptsIn(s: System, evs: seq<Event>, m: Id)
    decreases |evs|
  {
    evs != [] && Enabled(s, evs[0]) && (AcceptsAgain(s, evs[0], m) || AcceptsIn(Next(s, evs[0]), evs[1..], m))
  }

  /** Some step of the run lets a copy of `m` through the gate. */
  ghost predicate PassesIn(s: System, evs: seq<Event>, m: Id)
    decreases |evs|
  {
    evs != [] && Enabled(s, evs[0]) && (Passes(s, evs[0], m) || PassesIn(Next(s, evs[0]), evs[1..], m))
  }

  lemma {:induction false} CutOffRun(s: System, evs: seq<Event>, t: System, m: Id)
    requires Runs(s, evs, t) && CutOff(s, m) && !AcceptsIn(s, evs, m)
    ensures !PassesIn(s, evs, m) && CutOff(t, m)
    decreases |evs|
  {
    if evs == [] {
    } else {
      CutOffStep(s, evs[0], m);
      if evs[0].SessionEv? && evs[0].ss.PassStatusGate? {
        GateIff(s, evs[0].c);
      }
      CutOffRun(Next(s, evs[0]), evs[1..], t, m);
    }
  }

  /** From the step that marks a message acknowledged until a publish inserts a fresh status for it, no copy of the
      message passes the delivery gate of any session. */
  lemma AckCutsOffDelivery(s: System, ev: Event, evs: seq<Event>, t: System, m: Id)
    requires Enabled(s, ev) && MarksAck(s, ev, m)
    requires Runs(Next(s, ev), evs, t) && !AcceptsIn(Next(s, ev), evs, m)
    ensures !PassesIn(Next(s, ev), evs, m)
  {
    CutOffStep(s, ev, m);
    CutOffRun(Next(s, ev), evs, t, m);
  }
}
