/** The delivery mark against the writes of a session, over the events of every interleaving. */
module DeliveryMarks {
  import opened Prelude
  import opened Broker
  import opened Interleaving
  import opened AckCutoff

  // ----- A session changes only by its own steps

  lemma PutEachSessions(chans: map<ChannelId, Chan>, regs: map<TaskId, Reg>, rs: seq<TaskId>, e: Entry)
    ensures var t := PutEach(chans, regs, rs, e);
      t.Keys == chans.Keys && forall c :: c in t ==> t[c].session == chans[c].session
  {
  }

  predicate SameSessions(chans: map<ChannelId, Chan>, chans': map<ChannelId, Chan>) {
    chans'.Keys == chans.Keys && forall c :: c in chans ==> chans'[c].session == chans[c].session
  }

  lemma PubSessions(s: System, p: TaskId, step: PubStep)
    requires PubEnabled(s, p, step)
    ensures SameSessions(s.chans, PubNext(s, p, step).chans)
  {
    if step.Notify? {
      var pub := s.pubs[p];
      var q := pub.targets[pub.notified];
      if q in s.consumers {
        PutEachSessions(s.chans, s.regs, Alive(s, s.consumers[q]), EntryOf(p, pub));
      }
    } else {
      PubKeepsChans(s, p, step);
    }
  }

  lemma PubKeepsChans(s: System, p: TaskId, step: PubStep)
    requires PubEnabled(s, p, step) && !step.Notify?
    ensures PubNext(s, p, step).chans == s.chans
  {
    match step
    case Begin(_) =>
    case MakeRoom =>
    case Unstatus =>
    case Append =>
    case _ =>
  }

  lemma RegSessions(s: System, r: TaskId, step: RegStep)
    requires RegEnabled(s, r, step)
    ensures SameSessions(s.chans, RegNext(s, r, step).chans)
  {
    match step
    case Consume(_, _) =>
    case Declare =>
    case Join =>
    case Copy =>
    case Filter =>
    case Send =>
  }

  lemma RemSessions(s: System, a: TaskId, step: RemStep)
    requires RemEnabled(s, a, step)
    ensures RemNext(s, a, step).chans == s.chans
  {
  }

  predicate OnChannel(ev: Event, c: ChannelId) {
    ev.SessionEv? && ev.c == c
  }

  lemma OthersKeepSession(s: System, ev: Event, c: ChannelId)
    requires Enabled(s, ev) && !OnChannel(ev, c)
    ensures c in Next(s, ev).chans <==> c in s.chans
    ensures c in s.chans ==> Next(s, ev).chans[c].session == s.chans[c].session
  {
    match ev {
      case DeclareEv(_) =>
      case PubEv(p, step) => PubSessions(s, p, step);
      case RegEv(r, step) => RegSessions(s, r, step);
      case RemEv(a, step) => RemSessions(s, a, step);
      case SessionEv(d, step) => OtherSession(s, d, step, c);
    }
  }

  lemma OtherSession(s: System, d: ChannelId, step: SessionStep, c: ChannelId)
    requires SessionEnabled(s, d, step) && d != c
    ensures c in SessionNext(s, d, step).chans <==> c in s.chans
    ensures c in s.chans ==> SessionNext(s, d, step).chans[c] == s.chans[c]
  {
  }

  // ----- Marked only after a write

  predicate Receives(ev: Event, c: ChannelId) {
    OnChannel(ev, c) && ev.ss.Receive?
  }

  predicate Attempts(ev: Event, c: ChannelId) {
    OnChannel(ev, c) && ev.ss.Attempt?
  }

  /** Event `j` wrote the entry `e` on channel `c`, and the session has received nothing since. */
  ghost predicate WroteAt(states: seq<System>, evs: seq<Event>, c: ChannelId, e: Entry, j: nat, k: nat) {
    && j < k <= |evs| && k < |states|
    && Attempts(evs[j], c) && !evs[j].ss.outcome.WriteFailed?
    && c in states[j].chans && states[j].chans[c].session.Writing? && states[j].chans[c].session.e == e
    && (forall i: nat :: j < i < k ==> !Receives(evs[i], c))
  }

  lemma {:induction false} MarkingHasWrite(max: nat, states: seq<System>, evs: seq<Event>, c: ChannelId, k: nat)
    requires Trace(max, states, evs) && k <= |evs|
    requires c in states[k].chans && states[k].chans[c].session.Marking?
    ensures exists j: nat :: WroteAt(states, evs, c, states[k].chans[c].session.e, j, k)
  {
    if k == 0 {
    } else {
      var s, ev := states[k - 1], evs[k - 1];
      assert StepAt(states, evs, k - 1);
      if Attempts(ev, c) {
        assert WroteAt(states, evs, c, states[k].chans[c].session.e, k - 1, k);
      } else {
        if !OnChannel(ev, c) {
          OthersKeepSession(s, ev, c);
        }
        MarkingHasWrite(max, states, evs, c, k - 1);
        var j: nat :| WroteAt(states, evs, c, states[k - 1].chans[c].session.e, j, k - 1);
        assert WroteAt(states, evs, c, states[k].chans[c].session.e, j, k);
      }
    }
  }

  function TimeOf(s: System, m: Id): Option<Time> {
    if m in s.status then s.status[m].deliveredTime else None
  }

  /** Event `k` changes the delivered time of `m` within a lifetime of its status, from whatever it was. */
  ghost predicate SetsAt(states: seq<System>, evs: seq<Event>, m: Id, k: nat) {
    && k < |evs| && |states| == |evs| + 1 && !AcceptsAgain(states[k], evs[k], m)
    && m in states[k].status && m in states[k + 1].status && TimeOf(states[k], m) != TimeOf(states[k + 1], m)
  }

  lemma SetStep(s: System, ev: Event, m: Id)
    requires Enabled(s, ev) && !AcceptsAgain(s, ev, m) && m in s.status && m in Next(s, ev).status
    requires TimeOf(s, m) != TimeOf(Next(s, ev), m)
    ensures ev.SessionEv? && ev.ss.Mark? && s.chans[ev.c].session.e.id == m && TimeOf(Next(s, ev), m) == Some(ev.ss.now)
  {
    match ev {
      case DeclareEv(_) =>
      case PubEv(p, step) => PubStatus(s, p, step);
      case RegEv(r, step) => RegStatus(s, r, step);
      case RemEv(a, step) => RemStatus(s, a, step);
      case SessionEv(c, step) => SessionStatus(s, c, step);
    }
  }

  /** In every interleaving, whatever event changes a message's delivered time is the mark of a session, at its own
      clock reading, and an earlier attempt of that session wrote an entry of that very message, with nothing received
      in between. */
  lemma MarkedAfterWrite(max: nat, states: seq<System>, evs: seq<Event>, m: Id, k: nat)
    requires Trace(max, states, evs) && SetsAt(states, evs, m, k)
    ensures evs[k].SessionEv? && evs[k].ss.Mark? && TimeOf(states[k + 1], m) == Some(evs[k].ss.now)
    ensures exists j: nat, e: Entry :: WroteAt(states, evs, evs[k].c, e, j, k) && e.id == m
  {
    assert StepAt(states, evs, k);
    SetStep(states[k], evs[k], m);
    var c := evs[k].c;
    MarkingHasWrite(max, states, evs, c, k);
    var j: nat :| WroteAt(states, evs, c, states[k].chans[c].session.e, j, k);
  }

  // ----- Set once per acceptance

  lemma TimeStep(s: System, ev: Event, m: Id, t: Time)
    requires Enabled(s, ev) && !AcceptsAgain(s, ev, m)
    requires m in s.status ==> TimeOf(s, m) == Some(t)
    ensures m in Next(s, ev).status ==> TimeOf(Next(s, ev), m) == Some(t)
  {
    match ev {
      case DeclareEv(_) =>
      case PubEv(p, step) => PubStatus(s, p, step);
      case RegEv(r, step) => RegStatus(s, r, step);
      case RemEv(a, step) => RemStatus(s, a, step);
      case SessionEv(c, step) => SessionStatus(s, c, step);
    }
  }

  /** In every interleaving a delivered time, once set, stays exactly what it is for as long as the message has its
      status: until a publish inserts a fresh one. */
  lemma {:induction false} TimeStays(max: nat, states: seq<System>, evs: seq<Event>, m: Id, t: Time, j: nat, k: nat)
    requires Trace(max, states, evs) && j <= k <= |evs|
    requires m in states[j].status ==> TimeOf(states[j], m) == Some(t)
    requires forall i: nat :: j <= i < k ==> !AcceptsAgain(states[i], evs[i], m)
    ensures m in states[k].status ==> TimeOf(states[k], m) == Some(t)
  {
    if j == k {
    } else {
      TimeStays(max, states, evs, m, t, j, k - 1);
      assert StepAt(states, evs, k - 1);
      TimeStep(states[k - 1], evs[k - 1], m, t);
    }
  }

  /** In every interleaving, between two events that change the delivered time of a message lies the insert of a fresh
      status for it. */
  lemma SetOncePerAcceptance(max: nat, states: seq<System>, evs: seq<Event>, m: Id, j: nat, k: nat)
    requires Trace(max, states, evs) && SetsAt(states, evs, m, j) && SetsAt(states, evs, m, k) && j < k
    ensures exists i: nat :: j < i < k && AcceptsAgain(states[i], evs[i], m)
  {
    if forall i: nat :: j < i < k ==> !AcceptsAgain(states[i], evs[i], m) {
      assert StepAt(states, evs, j);
      SetStep(states[j], evs[j], m);
      var t := TimeOf(states[j + 1], m).value;
      TimeStays(max, states, evs, m, t, j + 1, k);
      TimeStays(max, states, evs, m, t, j + 1, k + 1);
    }
  }

  // ----- At most three attempts

  ghost predicate TriesOk(s: System, c: ChannelId) {
    c in s.chans && s.chans[c].session.Writing? ==> s.chans[c].session.tries < 3
  }

  lemma {:induction false} TriesBounded(max: nat, states: seq<System>, evs: seq<Event>, c: ChannelId, k: nat)
    requires Trace(max, states, evs) && k <= |evs|
    ensures TriesOk(states[k], c)
  {
    if k == 0 {
    } else {
      assert StepAt(states, evs, k - 1);
      TriesBounded(max, states, evs, c, k - 1);
      if !OnChannel(evs[k - 1], c) {
        OthersKeepSession(states[k - 1], evs[k - 1], c);
      }
    }
  }

  /** The session is past its attempt at `j` until it receives again. */
  ghost predicate Past(s: System, c: ChannelId, tries: nat) {
    && c in s.chans
    && !s.chans[c].session.Gate? && !s.chans[c].session.StatusGate?
    && (s.chans[c].session.Writing? ==> s.chans[c].session.tries > tries)
  }

  lemma {:induction false} TriesGrow(max: nat, states: seq<System>, evs: seq<Event>, c: ChannelId, j: nat, k: nat)
    requires Trace(max, states, evs) && j < k <= |evs| && Attempts(evs[j], c)
    requires forall i: nat :: j < i < k ==> !Receives(evs[i], c)
    ensures c in states[j].chans && states[j].chans[c].session.Writing?
    ensures Past(states[k], c, states[j].chans[c].session.tries)
  {
    assert StepAt(states, evs, j) && StepAt(states, evs, k - 1);
    if k == j + 1 {
    } else {
      TriesGrow(max, states, evs, c, j, k - 1);
      if !OnChannel(evs[k - 1], c) {
        OthersKeepSession(states[k - 1], evs[k - 1], c);
      }
    }
  }

  /** In every interleaving, among any four attempts of a session lies the receipt of another message. */
  lemma AtMostThreeAttempts(max: nat, states: seq<System>, evs: seq<Event>, c: ChannelId, i: nat, j: nat, k: nat,
                            l: nat)
    requires Trace(max, states, evs) && i < j < k < l < |evs|
    requires Attempts(evs[i], c) && Attempts(evs[j], c) && Attempts(evs[k], c) && Attempts(evs[l], c)
    ensures exists h: nat :: i < h < l && Receives(evs[h], c)
  {
    if forall h: nat :: i < h < l ==> !Receives(evs[h], c) {
      assert StepAt(states, evs, j) && StepAt(states, evs, k) && StepAt(states, evs, l);
      TriesGrow(max, states, evs, c, i, j);
      TriesGrow(max, states, evs, c, j, k);
      TriesGrow(max, states, evs, c, k, l);
      TriesBounded(max, states, evs, c, l);
    }
  }
}
