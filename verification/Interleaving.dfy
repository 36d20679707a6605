/** The broker's tasks interleaved at each access to a shared map: any number of publishes, consumer registrations,
    acknowledgements, expiry removals and delivering sessions. Locks held across several accesses are ignored, which
    only adds interleavings. */
module Interleaving {
  import opened Prelude
  import opened Broker

  type TaskId = nat

  // ----- Tasks

  datatype PubPhase =
    | Checking                    // before the duplicate check
    | Saving                      // the metadata row is being stored
    | Routing                     // before the bindings are read
    | Room                        // about to look at the size of the next target queue
    | Unindexing(victim: Id)      // evicted; the queue is to leave the victim's index set
    | Unstatusing(victim: Id)     // evicted; the victim is to lose its status
    | Appending                   // about to push to the next target queue
    | Indexing                    // all queues done; before the index insert
    | Accepting                   // before the status insert
    | Notifying                   // accepted; telling consumers target by target
    | Refused

  /** A publish; `pushed` and `notified` are its two loop counters over `targets`. */
  datatype Pub = Pub(message: Message, targets: seq<Queue>, pushed: nat, notified: nat, phase: PubPhase)

  datatype RegPhase =
    | Declaring
    | Joining                                          // before the consumer list grows
    | Copying                                          // before the queue is read
    | Collecting(todo: seq<Entry>, kept: seq<Entry>)   // filtering `todo`, then sending `kept`
    | Ended                                            // the channel was found closed

  datatype Reg = Reg(q: Queue, c: ChannelId, phase: RegPhase)

  datatype RemPhase =
    | AckChecking
    | AckMarking
    | ReadingIndex
    | Clearing(left: set<Queue>)
    | DroppingStatus
    | Removed

  /** An acknowledgement, or the removal of an id the expiry task has collected. */
  datatype Remover = Remover(m: Id, phase: RemPhase)

  datatype SessionPhase =
    | Idle
    | Gate(e: Entry)                                   // received; before the presence check
    | StatusGate(e: Entry)                             // before the deliverability check
    | Writing(e: Entry, tries: nat)
    | Marking(e: Entry, tries: nat, final: bool)
    | Closed

  datatype Via = Notice | Snapshot

  /** One message put on a channel, for registration `r`. */
  datatype Put = Put(e: Entry, r: TaskId, via: Via)

  /** A consumer channel: everything ever put on it, of which the session has taken the first `taken`. */
  datatype Chan = Chan(puts: seq<Put>, taken: nat, session: SessionPhase)
  {
    predicate Open() {
      !session.Closed?
    }
  }

  datatype System = System(
    queues: map<Queue, seq<Entry>>,
    index: map<Id, set<Queue>>,
    status: map<Id, Status>,
    consumers: map<Queue, seq<TaskId>>,
    chans: map<ChannelId, Chan>,
    pubs: map<TaskId, Pub>,
    regs: map<TaskId, Reg>,
    removers: map<TaskId, Remover>,
    dropped: set<TaskId>,   // publishes whose message was acknowledged, evicted or expired since
    max: nat)

  function Start(max: nat): System {
    System(map[], map[], map[], map[], map[], map[], map[], map[], {}, max)
  }

  function EntryOf(p: TaskId, pub: Pub): Entry {
    Entry(pub.message.messageId, pub.message, p)
  }

  /** The accepted publishes of `m`: those past their status insert. */
  function AcceptedOf(s: System, m: Id): set<TaskId> {
    set p | p in s.pubs && s.pubs[p].phase.Notifying? && s.pubs[p].message.messageId == m
  }

  function Stamps(es: seq<Entry>): set<nat> {
    set e | e in es :: e.stamp
  }

  // ----- Steps

  datatype Outcome = Delivered | FlushFailed | WriteFailed

  datatype PubStep =
    | Begin(message: Message)
    | CheckDuplicate
    | Saved(ok: bool)
    | Route(targets: seq<Queue>)
    | MakeRoom
    | Unindex
    | Unstatus
    | Append
    | Index
    | Accept(now: Time)
    | Notify

  datatype RegStep = Consume(q: Queue, c: ChannelId) | Declare | Join | Copy | Filter | Send

  datatype RemStep =
    | Ack(m: Id)
    | Collect(m: Id, now: Time, maxAge: nat)
    | CheckStatus
    | MarkAcknowledged(now: Time)
    | ReadIndex
    | Clear(q: Queue)
    | DropIndex
    | DropStatus

  datatype SessionStep =
    Open | Close | Receive | PassGate | PassStatusGate | Attempt(outcome: Outcome) | Mark(now: Time)

  datatype Event =
    | DeclareEv(q: Queue)
    | PubEv(p: TaskId, ps: PubStep)
    | RegEv(r: TaskId, rs: RegStep)
    | RemEv(a: TaskId, ms: RemStep)
    | SessionEv(c: ChannelId, ss: SessionStep)

  predicate PubAt(s: System, p: TaskId, phase: PubPhase) {
    p in s.pubs && s.pubs[p].phase == phase
  }

  predicate RegAt(s: System, r: TaskId, phase: RegPhase) {
    r in s.regs && s.regs[r].phase == phase
  }

  predicate RemAt(s: System, a: TaskId, phase: RemPhase) {
    a in s.removers && s.removers[a].phase == phase
  }

  ghost predicate PubEnabled(s: System, p: TaskId, step: PubStep) {
    match step
    case Begin(_) => p !in s.pubs
    case CheckDuplicate => PubAt(s, p, Checking)
    case Saved(_) => PubAt(s, p, Saving)
    // The bindings give each queue once, and name declared queues only (BrokerRuns.TargetsOk).
    case Route(targets) => PubAt(s, p, Routing) && Distinct(targets) && (forall q :: q in targets ==> q in s.queues)
    case MakeRoom => PubAt(s, p, Room) && NextQueueOk(s, s.pubs[p])
    case Unindex => p in s.pubs && s.pubs[p].phase.Unindexing? && NextQueueOk(s, s.pubs[p])
    case Unstatus => p in s.pubs && s.pubs[p].phase.Unstatusing?
    case Append => PubAt(s, p, Appending) && NextQueueOk(s, s.pubs[p])
    case Index => PubAt(s, p, Indexing)
    case Accept(_) => PubAt(s, p, Accepting)
    case Notify => PubAt(s, p, Notifying) && s.pubs[p].notified < |s.pubs[p].targets|
  }

  /** The next target exists; `PubsOk` below shows that this always holds where it is asked. */
  predicate NextQueueOk(s: System, pub: Pub) {
    pub.pushed < |pub.targets| && pub.targets[pub.pushed] in s.queues
  }

  predicate RegEnabled(s: System, r: TaskId, step: RegStep) {
    match step
    case Consume(_, c) => r !in s.regs && c in s.chans
    case Declare => RegAt(s, r, Declaring)
    case Join => RegAt(s, r, Joining)
    case Copy => RegAt(s, r, Copying)
    case Filter => r in s.regs && s.regs[r].phase.Collecting? && s.regs[r].phase.todo != []
    case Send => r in s.regs && s.regs[r].phase.Collecting? && s.regs[r].phase.todo == [] && s.regs[r].phase.kept != []
  }

  predicate RemEnabled(s: System, a: TaskId, step: RemStep) {
    match step
    case Ack(_) => a !in s.removers
    case Collect(m, now, maxAge) => a !in s.removers && m in s.status && Expired(s.status[m], now, maxAge)
    case CheckStatus => RemAt(s, a, AckChecking)
    case MarkAcknowledged(_) => RemAt(s, a, AckMarking)
    case ReadIndex => RemAt(s, a, ReadingIndex)
    case Clear(q) => a in s.removers && s.removers[a].phase.Clearing? && q in s.removers[a].phase.left
    case DropIndex => RemAt(s, a, Clearing({}))
    case DropStatus => RemAt(s, a, DroppingStatus)
  }

  predicate SessionEnabled(s: System, c: ChannelId, step: SessionStep) {
    match step
    case Open => c !in s.chans
    case Close => c in s.chans
    case Receive => c in s.chans && s.chans[c].session.Idle? && s.chans[c].taken < |s.chans[c].puts|
    case PassGate => c in s.chans && s.chans[c].session.Gate?
    case PassStatusGate => c in s.chans && s.chans[c].session.StatusGate?
    case Attempt(_) => c in s.chans && s.chans[c].session.Writing?
    case Mark(_) => c in s.chans && s.chans[c].session.Marking?
  }

  ghost predicate Enabled(s: System, ev: Event) {
    match ev
    case DeclareEv(_) => true
    case PubEv(p, step) => PubEnabled(s, p, step)
    case RegEv(r, step) => RegEnabled(s, r, step)
    case RemEv(a, step) => RemEnabled(s, a, step)
    case SessionEv(c, step) => SessionEnabled(s, c, step)
  }

  function SetPub(s: System, p: TaskId, pub: Pub): System {
    s.(pubs := s.pubs[p := pub])
  }

  function SetReg(s: System, r: TaskId, phase: RegPhase): System
    requires r in s.regs
  {
    s.(regs := s.regs[r := s.regs[r].(phase := phase)])
  }

  function SetRem(s: System, a: TaskId, phase: RemPhase): System
    requires a in s.removers
  {
    s.(removers := s.removers[a := s.removers[a].(phase := phase)])
  }

  function SetSession(s: System, c: ChannelId, session: SessionPhase): System
    requires c in s.chans
  {
    s.(chans := s.chans[c := s.chans[c].(session := session)])
  }

  /** After a target is done: the next one, or on to the index. */
  function NextTarget(pub: Pub): Pub {
    var done := pub.pushed + 1;
    pub.(pushed := done, phase := if done < |pub.targets| then Room else Indexing)
  }

  /** The registrations of a consumer list whose channel is open. */
  function Alive(s: System, rs: seq<TaskId>): seq<TaskId> {
    if rs == [] then []
    else
      var rest := Alive(s, rs[..|rs| - 1]);
      var r := rs[|rs| - 1];
      if r in s.regs && s.regs[r].c in s.chans && s.chans[s.regs[r].c].Open() then rest + [r] else rest
  }

  /** Puts `e` on the channel of each listed registration, in order. */
  function PutEach(chans: map<ChannelId, Chan>, regs: map<TaskId, Reg>, rs: seq<TaskId>, e: Entry): map<ChannelId,
                   Chan> {
    if rs == [] then chans
    else
      var before := PutEach(chans, regs, rs[..|rs| - 1], e);
      var r := rs[|rs| - 1];
      if r in regs && regs[r].c in before
      then before[regs[r].c := before[regs[r].c].(puts := before[regs[r].c].puts + [Put(e, r, Notice)])]
      else before
  }

  function AfterAttempt(session: SessionPhase, outcome: Outcome): SessionPhase
    requires session.Writing?
  {
    match outcome
    case Delivered => Marking(session.e, session.tries + 1, false)
    case FlushFailed =>
      if session.tries + 1 < 3 then Writing(session.e, session.tries + 1)
      else Marking(session.e, session.tries + 1, true)
    case WriteFailed =>
      if session.tries + 1 < 3 then Writing(session.e, session.tries + 1) else Closed
  }

  function DeclareIn(queues: map<Queue, seq<Entry>>, q: Queue): map<Queue, seq<Entry>> {
    if q in queues then queues else queues[q := []]
  }

  function EvictOne(s: System, p: TaskId, pub: Pub, q: Queue): System
    requires q in s.queues && s.queues[q] != []
  {
    SetPub(s, p, pub.(phase := Unindexing(s.queues[q][0].id)))
      .(queues := s.queues[q := s.queues[q][1..]], dropped := s.dropped + {s.queues[q][0].stamp})
  }

  function NotifyOne(s: System, p: TaskId, pub: Pub, q: Queue): System {
    s.(pubs := s.pubs[p := pub.(notified := pub.notified + 1)],
       consumers := if q in s.consumers then s.consumers[q := Alive(s, s.consumers[q])] else s.consumers,
       chans := if q in s.consumers then PutEach(s.chans, s.regs, Alive(s, s.consumers[q]), EntryOf(p,
         pub)) else s.chans)
  }

  /** The steps before the push loop touch no table. */
  predicate BeforePush(step: PubStep) {
    step.Begin? || step.CheckDuplicate? || step.Saved? || step.Route?
  }

  ghost function Moved(s: System, p: TaskId, step: PubStep): Pub
    requires PubEnabled(s, p, step) && BeforePush(step)
  {
    match step
    case Begin(message) => Pub(message, [], 0, 0, Checking)
    case CheckDuplicate => s.pubs[p].(phase := if s.pubs[p].message.messageId in s.status then Refused else Saving)
    case Saved(ok) => s.pubs[p].(phase := if ok then Routing else Refused)
    case Route(targets) => s.pubs[p].(targets := targets, phase := if targets == [] then Refused else Room)
  }

  ghost function PubNext(s: System, p: TaskId, step: PubStep): System
    requires PubEnabled(s, p, step)
  {
    if BeforePush(step) then SetPub(s, p, Moved(s, p, step))
    else
      var pub := s.pubs[p];
      var m := pub.message.messageId;
      match step
      case MakeRoom =>
        var q := pub.targets[pub.pushed];
        if |s.queues[q]| >= s.max && s.queues[q] != [] then EvictOne(s, p, pub, q)
        else SetPub(s, p, pub.(phase := Appending))
      case Unindex =>
        var v := pub.phase.victim;
        SetPub(s, p, pub.(phase := Unstatusing(v)))
          .(index := if v in s.index then s.index[v := s.index[v] - {pub.targets[pub.pushed]}] else s.index)
      case Unstatus =>
        var v := pub.phase.victim;
        SetPub(s, p, pub.(phase := Appending)).(status := s.status - {v}, dropped := s.dropped + AcceptedOf(s, v))
      case Append =>
        var q := pub.targets[pub.pushed];
        SetPub(s, p, NextTarget(pub)).(queues := s.queues[q := s.queues[q] + [EntryOf(p, pub)]])
      case Index => SetPub(s, p, pub.(phase := Accepting)).(index := s.index[m := set q | q in pub.targets])
      case Accept(now) => SetPub(s, p, pub.(phase := Notifying)).(status := s.status[m := Sent(now)])
      case Notify => NotifyOne(s, p, pub, pub.targets[pub.notified])
  }

  function RegNext(s: System, r: TaskId, step: RegStep): System
    requires RegEnabled(s, r, step)
  {
    if step.Consume? then s.(regs := s.regs[r := Reg(step.q, step.c, Declaring)])
    else
      var reg := s.regs[r];
      match step
      case Declare => SetReg(s, r, Joining).(queues := DeclareIn(s.queues, reg.q))
      case Join =>
        var listed := if reg.q in s.consumers then s.consumers[reg.q] else [];
        SetReg(s, r, Copying).(consumers := s.consumers[reg.q := listed + [r]])
      case Copy => SetReg(s, r, Collecting(if reg.q in s.queues then s.queues[reg.q] else [], []))
      case Filter =>
        var e := reg.phase.todo[0];
        var ok := e.id in s.status && s.status[e.id].CanDeliver();
        SetReg(s, r, Collecting(reg.phase.todo[1..], if ok then reg.phase.kept + [e] else reg.phase.kept))
      case Send => SendOne(s, r, reg)
  }

  /** Sends the first kept entry, or finds the channel closed. */
  function SendOne(s: System, r: TaskId, reg: Reg): System
    requires reg.phase.Collecting? && reg.phase.kept != []
  {
    var open := reg.c in s.chans && s.chans[reg.c].Open();
    s.(regs := s.regs[r := reg.(phase := if open then Collecting([], reg.phase.kept[1..]) else Ended)],
       chans := if open then PutOn(s.chans, reg.c, Put(reg.phase.kept[0], r, Snapshot)) else s.chans)
  }

  function PutOn(chans: map<ChannelId, Chan>, c: ChannelId, x: Put): map<ChannelId, Chan>
    requires c in chans
  {
    chans[c := chans[c].(puts := chans[c].puts + [x])]
  }

  function ClearOne(s: System, m: Id, q: Queue): System {
    if q !in s.queues then s
    else s.(queues := s.queues[q := Without(s.queues[q], {m})],
            dropped := s.dropped + set e | e in s.queues[q] && e.id == m :: e.stamp)
  }

  function RemNext(s: System, a: TaskId, step: RemStep): System
    requires RemEnabled(s, a, step)
  {
    if step.Ack? then s.(removers := s.removers[a := Remover(step.m, AckChecking)])
    else if step.Collect? then s.(removers := s.removers[a := Remover(step.m, ReadingIndex)])
    else
      var m := s.removers[a].m;
      match step
      case CheckStatus => SetRem(s, a, if m in s.status then AckMarking else Removed)
      case MarkAcknowledged(now) =>
        SetRem(s, a, ReadingIndex)
          .(status := if m in s.status then s.status[m := s.status[m].(acknowledgedTime := Some(now))] else s.status,
            dropped := s.dropped + AcceptedOf(s, m))
      case ReadIndex => SetRem(s, a, Clearing(if m in s.index then s.index[m] else {}))
      case Clear(q) => SetRem(ClearOne(s, m, q), a, Clearing(s.removers[a].phase.left - {q}))
      case DropIndex => SetRem(s, a, DroppingStatus).(index := s.index - {m})
      case DropStatus => SetRem(s, a, Removed).(status := s.status - {m}, dropped := s.dropped + AcceptedOf(s, m))
  }

  function SessionNext(s: System, c: ChannelId, step: SessionStep): System
    requires SessionEnabled(s, c, step)
  {
    if step.Open? then s.(chans := s.chans[c := Chan([], 0, Idle)])
    else
      var ch := s.chans[c];
      match step
      case Close => SetSession(s, c, Closed)
      case Receive => s.(chans := s.chans[c := Chan(ch.puts, ch.taken + 1, Gate(ch.puts[ch.taken].e))])
      case PassGate =>
        var e := ch.session.e;
        SetSession(s, c, if e.id in s.status then StatusGate(e) else Idle)
      case PassStatusGate =>
        var e := ch.session.e;
        SetSession(s, c, if e.id in s.status && s.status[e.id].CanDeliver() then Writing(e, 0) else Idle)
      case Attempt(outcome) => SetSession(s, c, AfterAttempt(ch.session, outcome))
      case Mark(now) =>
        var ph := ch.session;
        SetSession(s, c, if ph.final then Idle else Marking(ph.e, ph.tries, true))
          .(status := MarkStatus(s.status, ph.e.id, now))
  }

  ghost function Next(s: System, ev: Event): System
    requires Enabled(s, ev)
  {
    match ev
    case DeclareEv(q) => s.(queues := DeclareIn(s.queues, q))
    case PubEv(p, step) => PubNext(s, p, step)
    case RegEv(r, step) => RegNext(s, r, step)
    case RemEv(a, step) => RemNext(s, a, step)
    case SessionEv(c, step) => SessionNext(s, c, step)
  }

  lemma NotifyNext(s: System, p: TaskId)
    requires PubEnabled(s, p, Notify)
    ensures PubNext(s, p, Notify) == NotifyOne(s, p, s.pubs[p], s.pubs[p].targets[s.pubs[p].notified])
  {
  }

  /** `Runs(s, evs, s')`: the events lead from `s` to `s'`, each enabled when it happens. */
  ghost predicate Runs(s: System, evs: seq<Event>, s': System)
    decreases |evs|
  {
    if evs == [] then s' == s
    else Enabled(s, evs[0]) && Runs(Next(s, evs[0]), evs[1..], s')
  }

  lemma {:induction false} RunsSnoc(s: System, evs: seq<Event>, t: System, ev: Event)
    requires Runs(s, evs, t) && Enabled(t, ev)
    ensures Runs(s, evs + [ev], Next(t, ev))
    decreases |evs|
  {
    if evs == [] {
      assert evs + [ev] == [ev];
    } else {
      RunsSnoc(Next(s, evs[0]), evs[1..], t, ev);
      assert (evs + [ev])[1..] == evs[1..] + [ev];
    }
  }

  // ----- Runs with their states

  ghost predicate StepAt(states: seq<System>, evs: seq<Event>, i: nat)
    requires i < |evs| && |states| == |evs| + 1
  {
    Enabled(states[i], evs[i]) && states[i + 1] == Next(states[i], evs[i])
  }

  /** A run from the start, with all the states it passes through. */
  ghost predicate Trace(max: nat, states: seq<System>, evs: seq<Event>) {
    && |states| == |evs| + 1 && states[0] == Start(max)
    && forall i: nat :: i < |evs| ==> StepAt(states, evs, i)
  }

  lemma {:induction false} TraceRuns(max: nat, states: seq<System>, evs: seq<Event>, k: nat)
    requires Trace(max, states, evs) && k <= |evs|
    ensures Runs(Start(max), evs[..k], states[k])
  {
    if k == 0 {
    } else {
      TraceRuns(max, states, evs, k - 1);
      assert StepAt(states, evs, k - 1);
      RunsSnoc(Start(max), evs[..k - 1], states[k - 1], evs[k - 1]);
      assert evs[..k - 1] + [evs[k - 1]] == evs[..k];
    }
  }

  /** Every run has its states. */
  lemma {:induction false} RunHasTrace(s: System, evs: seq<Event>, t: System) returns (states: seq<System>)
    requires Runs(s, evs, t)
    ensures |states| == |evs| + 1 && states[0] == s && states[|evs|] == t
    ensures forall i: nat :: i < |evs| ==> StepAt(states, evs, i)
    decreases |evs|
  {
    if evs == [] {
      states := [s];
    } else {
      var rest := RunHasTrace(Next(s, evs[0]), evs[1..], t);
      states := [s] + rest;
      forall i: nat | i < |evs| ensures StepAt(states, evs, i) {
        if i > 0 {
          assert StepAt(rest, evs[1..], i - 1);
        }
      }
    }
  }
}
