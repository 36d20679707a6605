/** The status table and the sessions in terms of the events of every interleaving: which event set each of a message's
    three times, and which entry each receipt took from its channel. */
module SessionHistory {
  import opened Prelude
  import opened Broker
  import opened Interleaving
  import opened AckCutoff
  import opened DeliveryMarks
  import NoDeliveryGap

  // ----- The status table, step by step

  /** The event marks `m` delivered. */
  predicate MarksDelivered(s: System, ev: Event, m: Id) {
    && ev.SessionEv? && ev.ss.Mark? && ev.c in s.chans
    && s.chans[ev.c].session.Marking? && s.chans[ev.c].session.e.id == m
  }

  /** The event takes the status of `m` away: it evicts it, or ends its acknowledgement or expiry. */
  predicate Forgets(s: System, ev: Event, m: Id) {
    || (ev.PubEv? && ev.ps.Unstatus? && PubAt(s, ev.p, Unstatusing(m)))
    || (ev.RemEv? && ev.ms.DropStatus? && ev.a in s.removers && s.removers[ev.a].m == m)
  }

  lemma PresenceStep(s: System, ev: Event, m: Id)
    requires Enabled(s, ev)
    ensures m in Next(s, ev).status <==> AcceptsAgain(s, ev, m) || (m in s.status && !Forgets(s, ev, m))
  {
    match ev {
      case DeclareEv(_) =>
      case PubEv(p, step) => PubStatus(s, p, step);
      case RegEv(r, step) => RegStatus(s, r, step);
      case RemEv(a, step) => RemStatus(s, a, step);
      case SessionEv(c, step) => SessionStatus(s, c, step);
    }
  }

  lemma InsertStep(s: System, ev: Event, m: Id)
    requires Enabled(s, ev) && AcceptsAgain(s, ev, m)
    ensures m in Next(s, ev).status && Next(s, ev).status[m] == Status(Some(ev.ps.now), None, None)
  {
    PubStatus(s, ev.p, ev.ps);
  }

  /** What an event makes of a status it neither inserts nor takes away. */
  function After(s: System, ev: Event, m: Id): Status
    requires m in s.status
  {
    var st := s.status[m];
    if MarksDelivered(s, ev, m) && st.deliveredTime == None then st.(deliveredTime := Some(ev.ss.now))
    else if MarksAck(s, ev, m) then st.(acknowledgedTime := Some(ev.ms.now))
    else st
  }

  lemma TimesStep(s: System, ev: Event, m: Id)
    requires Enabled(s, ev) && !AcceptsAgain(s, ev, m) && m in s.status && m in Next(s, ev).status
    ensures Next(s, ev).status[m] == After(s, ev, m)
  {
    match ev {
      case DeclareEv(_) =>
      case PubEv(p, step) => PubStatus(s, p, step);
      case RegEv(r, step) => RegStatus(s, r, step);
      case RemEv(a, step) => RemStatus(s, a, step);
      case SessionEv(c, step) => SessionStatus(s, c, step);
    }
  }

  /** In every interleaving a session's mark leaves the message it wrote with a delivered time, if it has a status: its
      own clock reading unless a time was set before. */
  lemma MarkSets(max: nat, states: seq<System>, evs: seq<Event>, k: nat)
    requires Trace(max, states, evs) && k < |evs| && evs[k].SessionEv? && evs[k].ss.Mark?
    ensures evs[k].c in states[k].chans && states[k].chans[evs[k].c].session.Marking?
    ensures var m, s, t := states[k].chans[evs[k].c].session.e.id, states[k], states[k + 1];
      && t.status.Keys == s.status.Keys
      && (m in s.status && s.status[m].deliveredTime == None ==>
            t.status[m] == s.status[m].(deliveredTime := Some(evs[k].ss.now)))
      && (m in s.status && s.status[m].deliveredTime.Some? ==> t.status[m] == s.status[m])
      && (forall i :: i in s.status && i != m ==> t.status[i] == s.status[i])
  {
    assert StepAt(states, evs, k);
    SessionStatus(states[k], evs[k].c, evs[k].ss);
  }

  // ----- A status and its times, over runs

  /** Event `i` inserted a status for `m` and none since has inserted another or taken it away, up to `k`. */
  ghost predicate InsertedAt(states: seq<System>, evs: seq<Event>, m: Id, i: nat, k: nat)
    requires k <= |evs| < |states|
  {
    && i < k && AcceptsAgain(states[i], evs[i], m)
    && (forall j: nat :: i < j < k ==> !AcceptsAgain(states[j], evs[j], m) && !Forgets(states[j], evs[j], m))
  }

  lemma StillInserted(states: seq<System>, evs: seq<Event>, m: Id, j: nat, k: nat)
    requires j < |evs| < |states| && k == j + 1 && !AcceptsAgain(states[j], evs[j], m)
    ensures forall i: nat :: InsertedAt(states, evs, m, i, k) <==>
      InsertedAt(states, evs, m, i, j) && !Forgets(states[j], evs[j], m)
  {
  }

  /** In every interleaving a message has a status exactly when some publish inserted one that no event has taken away
      since. */
  lemma {:induction false} HasStatusIff(max: nat, states: seq<System>, evs: seq<Event>, m: Id, k: nat)
    requires Trace(max, states, evs) && k <= |evs|
    ensures m in states[k].status <==> exists i: nat :: InsertedAt(states, evs, m, i, k)
  {
    if k == 0 {
    } else {
      assert StepAt(states, evs, k - 1);
      HasStatusIff(max, states, evs, m, k - 1);
      PresenceStep(states[k - 1], evs[k - 1], m);
      if AcceptsAgain(states[k - 1], evs[k - 1], m) {
        assert InsertedAt(states, evs, m, k - 1, k);
      } else {
        StillInserted(states, evs, m, k - 1, k);
      }
    }
  }

  /** Event `j` is the first after `i` to mark `m` delivered. */
  ghost predicate FirstMark(states: seq<System>, evs: seq<Event>, m: Id, i: nat, j: nat, k: nat)
    requires k <= |evs| < |states|
  {
    && i < j < k && MarksDelivered(states[j], evs[j], m)
    && (forall h: nat :: i < h < j ==> !MarksDelivered(states[h], evs[h], m))
  }

  /** Event `j` is the last to mark `m` acknowledged. */
  ghost predicate LastAck(states: seq<System>, evs: seq<Event>, m: Id, i: nat, j: nat, k: nat)
    requires k <= |evs| < |states|
  {
    && i < j < k && MarksAck(states[j], evs[j], m)
    && (forall h: nat :: j < h < k ==> !MarksAck(states[h], evs[h], m))
  }

  ghost predicate DeliveredSince(states: seq<System>, evs: seq<Event>, m: Id, i: nat, k: nat, time: Option<Time>)
    requires k <= |evs| < |states|
  {
    if time.Some? then exists j: nat :: FirstMark(states, evs, m, i, j, k) && evs[j].ss.now == time.value
    else forall j: nat :: i < j < k ==> !MarksDelivered(states[j], evs[j], m)
  }

  ghost predicate AcknowledgedSince(states: seq<System>, evs: seq<Event>, m: Id, i: nat, k: nat, time: Option<Time>)
    requires k <= |evs| < |states|
  {
    if time.Some? then exists j: nat :: LastAck(states, evs, m, i, j, k) && evs[j].ms.now == time.value
    else forall j: nat :: i < j < k ==> !MarksAck(states[j], evs[j], m)
  }

  lemma DeliveredOneMore(states: seq<System>, evs: seq<Event>, m: Id, i: nat, k: nat, was: Option<Time>,
                         now: Option<Time>)
    requires i < k < |evs| < |states| && DeliveredSince(states, evs, m, i, k, was)
    requires now == if MarksDelivered(states[k], evs[k], m) && was == None then Some(evs[k].ss.now) else was
    ensures DeliveredSince(states, evs, m, i, k + 1, now)
  {
    if was.Some? {
      var j: nat :| FirstMark(states, evs, m, i, j, k) && evs[j].ss.now == was.value;
      assert FirstMark(states, evs, m, i, j, k + 1);
    } else if now.Some? {
      assert FirstMark(states, evs, m, i, k, k + 1);
    }
  }

  lemma AcknowledgedOneMore(states: seq<System>, evs: seq<Event>, m: Id, i: nat, k: nat, was: Option<Time>,
                            now: Option<Time>)
    requires i < k < |evs| < |states| && AcknowledgedSince(states, evs, m, i, k, was)
    requires now == if MarksAck(states[k], evs[k], m) then Some(evs[k].ms.now) else was
    ensures AcknowledgedSince(states, evs, m, i, k + 1, now)
  {
    if MarksAck(states[k], evs[k], m) {
      assert LastAck(states, evs, m, i, k, k + 1);
    } else if was.Some? {
      var j: nat :| LastAck(states, evs, m, i, j, k) && evs[j].ms.now == was.value;
      assert LastAck(states, evs, m, i, j, k + 1);
    }
  }

  /** The status of `m` before event `k`, if event `i` inserted it. */
  ghost predicate TimesSince(states: seq<System>, evs: seq<Event>, m: Id, i: nat, k: nat, st: Status)
    requires i < k <= |evs| < |states| && evs[i].PubEv? && evs[i].ps.Accept?
  {
    && st.sentTime == Some(evs[i].ps.now)
    && DeliveredSince(states, evs, m, i, k, st.deliveredTime)
    && AcknowledgedSince(states, evs, m, i, k, st.acknowledgedTime)
  }

  lemma TimesOneMore(states: seq<System>, evs: seq<Event>, m: Id, i: nat, k: nat)
    requires |states| == |evs| + 1 && i < k < |evs| && evs[i].PubEv? && evs[i].ps.Accept? && m in states[k].status
    requires TimesSince(states, evs, m, i, k, states[k].status[m])
    ensures TimesSince(states, evs, m, i, k + 1, After(states[k], evs[k], m))
  {
    var was, now := states[k].status[m], After(states[k], evs[k], m);
    DeliveredOneMore(states, evs, m, i, k, was.deliveredTime, now.deliveredTime);
    AcknowledgedOneMore(states, evs, m, i, k, was.acknowledgedTime, now.acknowledgedTime);
  }

  /** In every interleaving the times of a status are these: sent, when it was inserted; delivered, when a session first
      marked the message since, if one did; acknowledged, when an acknowledgement last marked it since, if one did. */
  lemma {:induction false} TimesAre(max: nat, states: seq<System>, evs: seq<Event>, m: Id, i: nat, k: nat)
    requires Trace(max, states, evs) && k <= |evs| && InsertedAt(states, evs, m, i, k)
    ensures m in states[k].status && TimesSince(states, evs, m, i, k, states[k].status[m])
  {
    assert StepAt(states, evs, k - 1);
    PresenceStep(states[k - 1], evs[k - 1], m);
    if i == k - 1 {
      InsertStep(states[i], evs[i], m);
    } else {
      TimesAre(max, states, evs, m, i, k - 1);
      TimesStep(states[k - 1], evs[k - 1], m);
      TimesOneMore(states, evs, m, i, k - 1);
    }
  }

  /** In every interleaving the expiry task collects only messages that a session marked delivered more than `maxAge`
      before, the first time since their acceptance, and that no acknowledgement has marked since. */
  lemma CollectsOnlyExpired(max: nat, states: seq<System>, evs: seq<Event>, k: nat)
    requires Trace(max, states, evs) && k < |evs| && evs[k].RemEv? && evs[k].ms.Collect?
    ensures exists i: nat, j: nat ::
      && InsertedAt(states, evs, evs[k].ms.m, i, k)
      && FirstMark(states, evs, evs[k].ms.m, i, j, k) && evs[j].ss.now + evs[k].ms.maxAge < evs[k].ms.now
      && (forall h: nat :: i < h < k ==> !MarksAck(states[h], evs[h], evs[k].ms.m))
  {
    var m := evs[k].ms.m;
    assert StepAt(states, evs, k);
    HasStatusIff(max, states, evs, m, k);
    var i: nat :| InsertedAt(states, evs, m, i, k);
    TimesAre(max, states, evs, m, i, k);
    var j: nat :| FirstMark(states, evs, m, i, j, k) && evs[j].ss.now == states[k].status[m].deliveredTime.value;
  }

  // ----- Receipts

  function Receipts(evs: seq<Event>, c: ChannelId): nat {
    if evs == [] then 0 else Receipts(evs[..|evs| - 1], c) + if Receives(evs[|evs| - 1], c) then 1 else 0
  }

  /** The channel keeps what was put on it, and the place of its session in it. */
  predicate Grown(a: Chan, b: Chan) {
    a.puts <= b.puts && a.taken == b.taken
  }

  lemma {:induction false} PutEachGrows(chans: map<ChannelId, Chan>, regs: map<TaskId, Reg>, rs: seq<TaskId>, e: Entry)
    ensures var t := PutEach(chans, regs, rs, e); t.Keys == chans.Keys && forall c :: c in t ==> Grown(chans[c], t[c])
  {
    if rs == [] {
    } else {
      PutEachGrows(chans, regs, rs[..|rs| - 1], e);
    }
  }

  lemma PubGrows(s: System, p: TaskId, step: PubStep)
    requires PubEnabled(s, p, step)
    ensures var t := PubNext(s, p, step).chans; t.Keys == s.chans.Keys && forall c :: c in t ==> Grown(s.chans[c], t[c])
  {
    if step.Notify? {
      var pub := s.pubs[p];
      var q := pub.targets[pub.notified];
      if q in s.consumers {
        PutEachGrows(s.chans, s.regs, Alive(s, s.consumers[q]), EntryOf(p, pub));
      }
    } else {
      PubKeepsChans(s, p, step);
    }
  }

  lemma RegGrows(s: System, r: TaskId, step: RegStep)
    requires RegEnabled(s, r, step)
    ensures var t := RegNext(s, r, step).chans; t.Keys == s.chans.Keys && forall c :: c in t ==> Grown(s.chans[c], t[c])
  {
    match step
    case Consume(_, _) =>
    case Declare =>
    case Join =>
    case Copy =>
    case Filter =>
    case Send =>
  }

  lemma SessionGrows(s: System, d: ChannelId, step: SessionStep, c: ChannelId)
    requires SessionEnabled(s, d, step)
    ensures var t := SessionNext(s, d, step).chans;
      && (c in s.chans ==> c in t && t[c].puts == s.chans[c].puts)
      && (c in s.chans ==> t[c].taken == s.chans[c].taken + if d == c && step.Receive? then 1 else 0)
      && (c !in s.chans && c in t ==> t[c] == Chan([], 0, Idle))
  {
  }

  lemma ChannelStep(s: System, ev: Event, c: ChannelId)
    requires Enabled(s, ev)
    ensures var t := Next(s, ev).chans;
      && (c in s.chans ==> c in t && s.chans[c].puts <= t[c].puts)
      && (c in s.chans ==> t[c].taken == s.chans[c].taken + if Receives(ev, c) then 1 else 0)
      && (c !in s.chans && c in t ==> t[c] == Chan([], 0, Idle))
      && (c !in s.chans ==> !Receives(ev, c))
  {
    match ev {
      case DeclareEv(_) =>
      case PubEv(p, step) => PubGrows(s, p, step);
      case RegEv(r, step) => RegGrows(s, r, step);
      case RemEv(a, step) => RemSessions(s, a, step);
      case SessionEv(d, step) => SessionGrows(s, d, step, c);
    }
  }

  lemma {:induction false} TakenIs(max: nat, states: seq<System>, evs: seq<Event>, c: ChannelId, k: nat)
    requires Trace(max, states, evs) && k <= |evs|
    ensures Receipts(evs[..k], c) == if c in states[k].chans then states[k].chans[c].taken else 0
  {
    if k == 0 {
    } else {
      assert StepAt(states, evs, k - 1);
      TakenIs(max, states, evs, c, k - 1);
      ChannelStep(states[k - 1], evs[k - 1], c);
      assert evs[..k][..k - 1] == evs[..k - 1];
    }
  }

  lemma {:induction false} PutsStay(max: nat, states: seq<System>, evs: seq<Event>, c: ChannelId, j: nat, k: nat)
    requires Trace(max, states, evs) && j <= k <= |evs| && c in states[j].chans
    ensures c in states[k].chans && states[j].chans[c].puts <= states[k].chans[c].puts
  {
    if j == k {
    } else {
      PutsStay(max, states, evs, c, j, k - 1);
      assert StepAt(states, evs, k - 1);
      ChannelStep(states[k - 1], evs[k - 1], c);
    }
  }

  /** In every interleaving a session receives what was put on its channel, each once and in that order: receipt number
      n, counted from 0, takes put number n of all that is ever put there. */
  lemma ReceivesInOrder(max: nat, states: seq<System>, evs: seq<Event>, c: ChannelId, j: nat, k: nat)
    requires Trace(max, states, evs) && j < k <= |evs| && Receives(evs[j], c)
    ensures c in states[j + 1].chans && c in states[k].chans && Receipts(evs[..j], c) < |states[k].chans[c].puts|
    ensures states[j + 1].chans[c].session == Gate(states[k].chans[c].puts[Receipts(evs[..j], c)].e)
  {
    assert StepAt(states, evs, j);
    TakenIs(max, states, evs, c, j);
    PutsStay(max, states, evs, c, j, k);
  }

  // ----- Closed channels

  predicate ClosedIn(s: System, c: ChannelId) {
    c in s.chans && s.chans[c].session.Closed?
  }

  lemma {:induction false} PutElsewhere(chans: map<ChannelId, Chan>, regs: map<TaskId, Reg>, rs: seq<TaskId>, e: Entry,
                                        c: ChannelId)
    requires c in chans && forall r :: r in rs && r in regs ==> regs[r].c != c
    ensures c in PutEach(chans, regs, rs, e) && PutEach(chans, regs, rs, e)[c] == chans[c]
  {
    if rs == [] {
    } else {
      assert rs[|rs| - 1] in rs && forall r :: r in rs[..|rs| - 1] ==> r in rs;
      PutElsewhere(chans, regs, rs[..|rs| - 1], e, c);
    }
  }

  lemma PubClosed(s: System, p: TaskId, step: PubStep, c: ChannelId)
    requires PubEnabled(s, p, step) && ClosedIn(s, c)
    ensures c in PubNext(s, p, step).chans && PubNext(s, p, step).chans[c] == s.chans[c]
  {
    if step.Notify? {
      var pub := s.pubs[p];
      var q := pub.targets[pub.notified];
      NotifyNext(s, p);
      if q in s.consumers {
        NoDeliveryGap.AliveKeeps(s, s.consumers[q]);
        PutElsewhere(s.chans, s.regs, Alive(s, s.consumers[q]), EntryOf(p, pub), c);
      }
    } else {
      PubKeepsChans(s, p, step);
    }
  }

  lemma RegClosed(s: System, r: TaskId, step: RegStep, c: ChannelId)
    requires RegEnabled(s, r, step) && ClosedIn(s, c)
    ensures c in RegNext(s, r, step).chans && RegNext(s, r, step).chans[c] == s.chans[c]
  {
    match step
    case Consume(_, _) =>
    case Declare =>
    case Join =>
    case Copy =>
    case Filter =>
    case Send =>
  }

  lemma ClosedStep(s: System, ev: Event, c: ChannelId)
    requires Enabled(s, ev) && ClosedIn(s, c)
    ensures c in Next(s, ev).chans && Next(s, ev).chans[c] == s.chans[c] && !Receives(ev, c)
  {
    match ev {
      case DeclareEv(_) =>
      case PubEv(p, step) => PubClosed(s, p, step, c);
      case RegEv(r, step) => RegClosed(s, r, step, c);
      case RemEv(a, step) => RemSessions(s, a, step);
      case SessionEv(d, step) =>
        if d != c {
          OtherSession(s, d, step, c);
        }
    }
  }

  /** In every interleaving, once a session is closed nothing is put on its channel, received, written or marked there
      any more. */
  lemma {:induction false} ClosedForGood(max: nat, states: seq<System>, evs: seq<Event>, c: ChannelId, j: nat, k: nat)
    requires Trace(max, states, evs) && j < k <= |evs|
    requires (OnChannel(evs[j], c) && evs[j].ss.Close?) || ClosedIn(states[j], c)
    ensures ClosedIn(states[k], c) && c in states[j].chans && states[k].chans[c].puts == states[j].chans[c].puts
    ensures states[k].chans[c].taken == states[j].chans[c].taken
    ensures forall i: nat :: j < i < k ==> !(OnChannel(evs[i], c) && !evs[i].ss.Close?)
  {
    assert StepAt(states, evs, k - 1);
    if k == j + 1 {
      if ClosedIn(states[j], c) {
        ClosedStep(states[j], evs[j], c);
      }
    } else {
      ClosedForGood(max, states, evs, c, j, k - 1);
      ClosedStep(states[k - 1], evs[k - 1], c);
    }
  }

  // ----- What becomes of a received entry

  /** The attempts of the session among the events after `j` and before `k`. */
  function Tries(evs: seq<Event>, c: ChannelId, j: nat, k: nat): nat
    requires k <= |evs|
  {
    if k <= j + 1 then 0 else Tries(evs, c, j, k - 1) + if Attempts(evs[k - 1], c) then 1 else 0
  }

  /** The events at which the two gates were passed, or where the entry was skipped, last attempted or marked. */
  datatype Course = Course(gate: nat, statusGate: nat, skip: nat, attempt: nat, mark: nat)

  predicate SessionAt(evs: seq<Event>, c: ChannelId, step: SessionStep, i: nat, j: nat, k: nat) {
    j < i < k <= |evs| && evs[i] == SessionEv(c, step)
  }

  /** The message had a status at the first gate, and then one without an acknowledgement at the second. */
  predicate PassedBoth(states: seq<System>, evs: seq<Event>, c: ChannelId, m: Id, at: Course, j: nat, k: nat)
    requires k <= |evs| < |states|
  {
    && SessionAt(evs, c, PassGate, at.gate, j, k) && m in states[at.gate].status
    && at.gate < at.statusGate && SessionAt(evs, c, PassStatusGate, at.statusGate, j, k)
    && !CutOff(states[at.statusGate], m)
  }

  /** It had none at the first, or none or an acknowledged one at the second. */
  predicate WasSkipped(states: seq<System>, evs: seq<Event>, c: ChannelId, m: Id, at: Course, j: nat, k: nat)
    requires k <= |evs| < |states|
  {
    || (SessionAt(evs, c, PassGate, at.skip, j, k) && m !in states[at.skip].status)
    || (SessionAt(evs, c, PassStatusGate, at.skip, j, k) && CutOff(states[at.skip], m))
  }

  predicate LastTry(evs: seq<Event>, c: ChannelId, at: Course, outcome: Outcome, j: nat, k: nat)
    requires k <= |evs|
  {
    SessionAt(evs, c, Attempt(outcome), at.attempt, j, k) && Tries(evs, c, at.attempt, k) == 0
  }

  /** Where a session that received `e` at event `j` may be before event `k`. */
  ghost predicate Stands(states: seq<System>, evs: seq<Event>, c: ChannelId, e: Entry, at: Course, j: nat, k: nat)
    requires k <= |evs| < |states|
  {
    var tries := Tries(evs, c, j, k);
    c in states[k].chans
    && match states[k].chans[c].session
       case Gate(x) => x == e && tries == 0
       case StatusGate(x) =>
         x == e && tries == 0 && SessionAt(evs, c, PassGate, at.gate, j, k) && e.id in states[at.gate].status
       case Writing(x, n) =>
         && x == e && n == tries < 3 && PassedBoth(states, evs, c, e.id, at, j, k)
         && (tries > 0 ==> LastTry(evs, c, at, FlushFailed, j, k) || LastTry(evs, c, at, WriteFailed, j, k))
       case Marking(x, n, _) =>
         && x == e && n == tries && PassedBoth(states, evs, c, e.id, at, j, k)
         && (LastTry(evs, c, at, Delivered, j, k) || (tries == 3 && LastTry(evs, c, at, FlushFailed, j, k)))
       case Idle =>
         || (tries == 0 && WasSkipped(states, evs, c, e.id, at, j, k))
         || (PassedBoth(states, evs, c, e.id, at, j, k)
             && j < at.mark < k && evs[at.mark].SessionEv? && evs[at.mark].c == c && evs[at.mark].ss.Mark?)
       case Closed => tries == 3 && LastTry(evs, c, at, WriteFailed, j, k)
  }

  predicate Undisturbed(ev: Event, c: ChannelId) {
    !Receives(ev, c) && !(OnChannel(ev, c) && ev.ss.Close?)
  }

  lemma OthersStand(states: seq<System>, evs: seq<Event>, c: ChannelId, e: Entry, at: Course, j: nat, k: nat)
    requires |states| == |evs| + 1 && j < k < |evs| && StepAt(states, evs, k) && !OnChannel(evs[k], c)
    requires Stands(states, evs, c, e, at, j, k)
    ensures Stands(states, evs, c, e, at, j, k + 1)
  {
    OthersKeepSession(states[k], evs[k], c);
  }

  /** One step of the session's own. */
  lemma OwnStand(states: seq<System>, evs: seq<Event>, c: ChannelId, e: Entry, at: Course, j: nat, k: nat)
    returns (course: Course)
    requires |states| == |evs| + 1 && j < k < |evs| && StepAt(states, evs, k)
    requires OnChannel(evs[k], c) && Undisturbed(evs[k], c) && Stands(states, evs, c, e, at, j, k)
    ensures Stands(states, evs, c, e, course, j, k + 1)
  {
    match evs[k].ss
    case PassGate => course := at.(gate := k, skip := k);
    case PassStatusGate => course := at.(statusGate := k, skip := k);
    case Attempt(_) => course := at.(attempt := k);
    case Mark(_) => course := at.(mark := k);
  }

  lemma NextStand(max: nat, states: seq<System>, evs: seq<Event>, c: ChannelId, e: Entry, at: Course, j: nat, k: nat)
    returns (course: Course)
    requires Trace(max, states, evs) && j < k < |evs|
    requires Undisturbed(evs[k], c) && Stands(states, evs, c, e, at, j, k)
    ensures Stands(states, evs, c, e, course, j, k + 1)
  {
    assert StepAt(states, evs, k);
    if OnChannel(evs[k], c) {
      course := OwnStand(states, evs, c, e, at, j, k);
    } else {
      course := at;
      OthersStand(states, evs, c, e, at, j, k);
    }
  }

  /** The next entry of channel `c`. */
  function NextPut(s: System, c: ChannelId): Entry
    requires SessionEnabled(s, c, Receive)
  {
    s.chans[c].puts[s.chans[c].taken].e
  }

  lemma FirstStand(max: nat, states: seq<System>, evs: seq<Event>, c: ChannelId, j: nat)
    requires Trace(max, states, evs) && j < |evs| && Receives(evs[j], c)
    ensures SessionEnabled(states[j], c, Receive)
    ensures Stands(states, evs, c, NextPut(states[j], c), Course(0, 0, 0, 0, 0), j, j + 1)
  {
    assert StepAt(states, evs, j);
  }

  /** In every interleaving, from the receipt of an entry until the session receives again or is closed from outside:
      the entry is written only after its message was found with a status and then with an unacknowledged one, at most
      three times, again only after a failure; it is skipped only if the message was found otherwise; it is marked only
      after a delivered attempt or a third that wrote; and the session closes only after a third failed write. */
  lemma {:induction false} CourseOf(max: nat, states: seq<System>, evs: seq<Event>, c: ChannelId, j: nat, k: nat)
    returns (at: Course)
    requires Trace(max, states, evs) && j < k <= |evs| && Receives(evs[j], c)
    requires forall i: nat :: j < i < k ==> Undisturbed(evs[i], c)
    ensures SessionEnabled(states[j], c, Receive) && Stands(states, evs, c, NextPut(states[j], c), at, j, k)
  {
    if k == j + 1 {
      at := Course(0, 0, 0, 0, 0);
      FirstStand(max, states, evs, c, j);
    } else {
      at := CourseOf(max, states, evs, c, j, k - 1);
      at := NextStand(max, states, evs, c, NextPut(states[j], c), at, j, k - 1);
    }
  }
}
