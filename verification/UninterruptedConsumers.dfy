/** The consumer side of tasks that run without interruption: notification and registration are the atomic ones, so a
    whole publish and a whole registration are too. */
module UninterruptedConsumers {
  import opened Broker
  import opened Interleaving
  import opened Uninterrupted
  import BrokerHistory
  import NoDeliveryGap

  // ----- The step-level state seen as the broker's

  function Entries(puts: seq<Put>): seq<Entry> {
    seq(|puts|, i requires 0 <= i < |puts| => puts[i].e)
  }

  function ChannelsOf(chans: map<ChannelId, Chan>): map<ChannelId, Channel> {
    map c | c in chans :: Channel(chans[c].Open(), Entries(chans[c].puts))
  }

  /** Every listed registration exists and has its channel. */
  ghost predicate Known(regs: map<TaskId, Reg>, chans: map<ChannelId, Chan>, rs: seq<TaskId>) {
    forall i :: 0 <= i < |rs| ==> rs[i] in regs && regs[rs[i]].c in chans
  }

  ghost predicate ListsKnown(s: System) {
    forall q :: q in s.consumers ==> Known(s.regs, s.chans, s.consumers[q])
  }

  function ListOf(regs: map<TaskId, Reg>, rs: seq<TaskId>): seq<ChannelId> {
    seq(|rs|, i requires 0 <= i < |rs| => if rs[i] in regs then regs[rs[i]].c else 0)
  }

  function ConsumersOf(regs: map<TaskId, Reg>, consumers: map<Queue, seq<TaskId>>): map<Queue, seq<ChannelId>> {
    map q | q in consumers :: ListOf(regs, consumers[q])
  }

  /** The bindings and exchanges are not part of the step-level state. */
  datatype Setting = Setting(bindings: map<Exchange, seq<(Queue, Key)>>, exchanges: set<Exchange>)

  function StateOf(s: System, b: Setting): State {
    State(TablesOf(s), b.bindings, b.exchanges, ConsumersOf(s.regs, s.consumers), ChannelsOf(s.chans), s.max)
  }

  lemma ReachableKnown(max: nat, evs: seq<Event>, s: System)
    requires Runs(Start(max), evs, s)
    ensures ListsKnown(s)
  {
    NoDeliveryGap.RunKeeps(Start(max), evs, s);
    forall q, i | q in s.consumers && 0 <= i < |s.consumers[q]|
      ensures s.consumers[q][i] in s.regs && s.regs[s.consumers[q][i]].c in s.chans
    {
      assert NoDeliveryGap.ListedIn(s.consumers, q, s.consumers[q][i]);
    }
  }

  // ----- Notification

  lemma {:induction false} AliveIsLive(s: System, rs: seq<TaskId>)
    requires Known(s.regs, s.chans, rs)
    ensures ListOf(s.regs, Alive(s, rs)) == Live(ChannelsOf(s.chans), ListOf(s.regs, rs))
    ensures Known(s.regs, s.chans, Alive(s, rs))
  {
    if rs == [] {
    } else {
      var front := rs[..|rs| - 1];
      AliveIsLive(s, front);
      assert ListOf(s.regs, rs)[..|rs| - 1] == ListOf(s.regs, front);
    }
  }

  lemma PutIsSend(chans: map<ChannelId, Chan>, c: ChannelId, x: Put)
    requires c in chans && chans[c].Open()
    ensures var chans' := chans[c := chans[c].(puts := chans[c].puts + [x])];
      ChannelsOf(chans') == ChannelsOf(chans)[c := Channel(true, ChannelsOf(chans)[c].items + [x.e])]
  {
    assert Entries(chans[c].puts + [x]) == Entries(chans[c].puts) + [x.e];
  }

  lemma {:induction false} PutEachIsSendEach(s: System, rs: seq<TaskId>, e: Entry)
    requires Known(s.regs, s.chans, rs)
    ensures var t := PutEach(s.chans, s.regs, Alive(s, rs), e);
      && ChannelsOf(t) == SendEach(ChannelsOf(s.chans), ListOf(s.regs, rs), e)
      && t.Keys == s.chans.Keys && forall c :: c in t ==> t[c].Open() == s.chans[c].Open()
  {
    if rs == [] {
    } else {
      var front, r := rs[..|rs| - 1], rs[|rs| - 1];
      PutEachIsSendEach(s, front, e);
      assert ListOf(s.regs, rs)[..|rs| - 1] == ListOf(s.regs, front);
      var alive, c := Alive(s, front), s.regs[r].c;
      var t := PutEach(s.chans, s.regs, alive, e);
      if s.chans[c].Open() {
        assert (alive + [r])[..|alive|] == alive;
        PutIsSend(t, c, Put(e, r, Notice));
      }
    }
  }

  lemma NotifyOneIs(s: System, p: TaskId, pub: Pub, q: Queue, b: Setting)
    requires ListsKnown(s)
    ensures StateOf(NotifyOne(s, p, pub, q), b) == NotifyQueue(StateOf(s, b), q, EntryOf(p, pub))
    ensures ListsKnown(NotifyOne(s, p, pub, q)) && NotifyOne(s, p, pub, q).regs == s.regs
  {
    if q in s.consumers {
      ListedNotified(s, q, EntryOf(p, pub));
    }
  }

  lemma ListedNotified(s: System, q: Queue, e: Entry)
    requires ListsKnown(s) && q in s.consumers
    ensures var alive := Alive(s, s.consumers[q]);
      var chans, listed := PutEach(s.chans, s.regs, alive, e), ListOf(s.regs, s.consumers[q]);
      && ConsumersOf(s.regs, s.consumers[q := alive])
           == ConsumersOf(s.regs, s.consumers)[q := Live(ChannelsOf(s.chans), listed)]
      && ChannelsOf(chans) == SendEach(ChannelsOf(s.chans), listed, e)
      && Known(s.regs, s.chans, alive) && chans.Keys == s.chans.Keys
  {
    AliveIsLive(s, s.consumers[q]);
    PutEachIsSendEach(s, s.consumers[q], e);
  }

  // ----- A whole publish

  lemma SameConsumerSide(s: System, p: TaskId, step: PubStep)
    requires PubEnabled(s, p, step) && !step.Notify?
    ensures var t := PubNext(s, p, step);
      t.regs == s.regs && t.chans == s.chans && t.consumers == s.consumers && t.max == s.max
  {
    match step
    case Begin(_) =>
    case CheckDuplicate =>
    case Saved(_) =>
    case Route(_) =>
    case MakeRoom =>
    case Unindex =>
    case Unstatus =>
    case Append =>
    case Index =>
    case Accept(_) =>
    case _ =>
  }

  lemma SameNotified(s: System, p: TaskId, step: PubStep)
    requires PubEnabled(s, p, step) && !step.Notify?
    ensures p in PubNext(s, p, step).pubs
    ensures PubNext(s, p, step).pubs[p].notified == if p in s.pubs then s.pubs[p].notified else 0
  {
    match step
    case Begin(_) =>
    case CheckDuplicate =>
    case Saved(_) =>
    case Route(_) =>
    case MakeRoom =>
    case Unindex =>
    case Unstatus =>
    case Append =>
    case Index =>
    case Accept(_) =>
    case _ =>
  }

  /** Apart from the tables, what has happened since `s0` is the notification of the targets told so far. */
  ghost predicate Telling(s0: System, s: System, p: TaskId, b: Setting) {
    && ListsKnown(s) && s.regs == s0.regs && s.max == s0.max
    && if p !in s.pubs then StateOf(s, b) == StateOf(s0, b).(tables := TablesOf(s))
       else
         && s.pubs[p].notified <= |s.pubs[p].targets|
         && (!s.pubs[p].phase.Notifying? ==> s.pubs[p].notified == 0)
         && StateOf(s, b) == NotifyAll(StateOf(s0, b).(tables := TablesOf(s)), s.pubs[p].targets[..s.pubs[p].notified],
                                       EntryOf(p, s.pubs[p]))
  }

  lemma QuietTelling(s0: System, s: System, p: TaskId, step: PubStep, b: Setting)
    requires Telling(s0, s, p, b) && PubEnabled(s, p, step) && !step.Notify?
    ensures Telling(s0, PubNext(s, p, step), p, b)
  {
    SameConsumerSide(s, p, step);
    SameNotified(s, p, step);
    var t := PubNext(s, p, step);
    assert StateOf(t, b) == StateOf(s, b).(tables := TablesOf(t));
    assert t.pubs[p].notified == 0 by {
      if p in s.pubs {
        NotNotifying(s, p, step);
      }
    }
    assert t.pubs[p].targets[..0] == [];
    if p in s.pubs {
      assert s.pubs[p].targets[..0] == [];
    }
  }

  lemma NotNotifying(s: System, p: TaskId, step: PubStep)
    requires PubEnabled(s, p, step) && !step.Notify? && p in s.pubs
    ensures !s.pubs[p].phase.Notifying?
  {
  }

  /** One more target told. */
  lemma TellOne(a: State, now: State, t: Tables, targets: seq<Queue>, n: nat, e: Entry)
    requires n < |targets| && now == NotifyAll(a.(tables := t), targets[..n], e)
    ensures NotifyQueue(now, targets[n], e) == NotifyAll(a.(tables := t), targets[..n + 1], e)
  {
    assert targets[..n + 1][..n] == targets[..n];
  }

  lemma NotifyTelling(s0: System, s: System, p: TaskId, b: Setting)
    requires Telling(s0, s, p, b) && PubEnabled(s, p, Notify)
    ensures Telling(s0, NotifyOne(s, p, s.pubs[p], s.pubs[p].targets[s.pubs[p].notified]), p, b)
  {
    var pub := s.pubs[p];
    var q := pub.targets[pub.notified];
    var t := NotifyOne(s, p, pub, q);
    NotifyOneIs(s, p, pub, q, b);
    TellOne(StateOf(s0, b), StateOf(s, b), TablesOf(s), pub.targets, pub.notified, EntryOf(p, pub));
    assert StateOf(t, b) == NotifyAll(StateOf(s0, b).(tables := TablesOf(s)), pub.targets[..pub.notified + 1],
      EntryOf(p, pub));
    NotifyOneRest(s, p, pub, q);
  }

  lemma NotifyOneRest(s: System, p: TaskId, pub: Pub, q: Queue)
    ensures var t := NotifyOne(s, p, pub, q);
      && TablesOf(t) == TablesOf(s) && t.max == s.max
      && p in t.pubs && t.pubs[p] == pub.(notified := pub.notified + 1) && EntryOf(p, t.pubs[p]) == EntryOf(p, pub)
  {
  }

  lemma {:induction false} TellingRun(s0: System, s: System, p: TaskId, evs: seq<Event>, r: System, b: Setting)
    requires Telling(s0, s, p, b) && Runs(s, evs, r) && PublishOnly(evs, p)
    ensures Telling(s0, r, p, b)
    decreases |evs|
  {
    if evs == [] {
    } else {
      if evs[0].ps.Notify? {
        NotifyNext(s, p);
        NotifyTelling(s0, s, p, b);
      } else {
        QuietTelling(s0, s, p, evs[0].ps, b);
      }
      TellingRun(s0, Next(s, evs[0]), p, evs[1..], r, b);
    }
  }

  /** From any reachable state, a publish that runs alone to its end with the targets its exchange and key have is the
      atomic publish: tables, consumer lists and channels. */
  lemma WholePublish(max: nat, before: seq<Event>, s: System, p: TaskId, evs: seq<Event>, r: System, b: Setting,
                     x: Exchange, k: Key)
    requires Runs(Start(max), before, s) && p !in s.pubs && Runs(s, evs, r) && PublishOnly(evs, p) && p in r.pubs
    requires var pub := r.pubs[p];
      pub.phase.Notifying? && pub.notified == |pub.targets| && pub.targets == Targets(StateOf(s, b), x, k)
    ensures exists at :: StateOf(r, b) == Broker.Publish(StateOf(s, b), x, k, r.pubs[p].message, true, p, at)
  {
    ReachableKnown(max, before, s);
    TellingRun(s, s, p, evs, r, b);
    UninterruptedPublish(s, p, evs, r);
    var pub := r.pubs[p];
    assert pub.targets[..|pub.targets|] == pub.targets;
    var at :| TablesOf(r) == Enqueue(TablesOf(s), s.max, pub.targets, EntryOf(p, pub), at);
    assert StateOf(r, b) == Broker.Publish(StateOf(s, b), x, k, pub.message, true, p, at);
  }

  /** One that is refused changes nothing. */
  lemma RefusedPublish(max: nat, before: seq<Event>, s: System, p: TaskId, evs: seq<Event>, r: System, b: Setting)
    requires Runs(Start(max), before, s) && p !in s.pubs && Runs(s, evs, r) && PublishOnly(evs, p)
    requires p in r.pubs && r.pubs[p].phase.Refused?
    ensures StateOf(r, b) == StateOf(s, b)
  {
    ReachableKnown(max, before, s);
    TellingRun(s, s, p, evs, r, b);
    UninterruptedPublish(s, p, evs, r);
    assert r.pubs[p].targets[..0] == [];
  }

  // ----- A whole registration

  ghost predicate RegistrationOnly(evs: seq<Event>, r: TaskId) {
    forall i :: 0 <= i < |evs| ==> evs[i].RegEv? && evs[i].r == r
  }

  /** Puts the entries on channel `c`. */
  function SendAll(s: State, c: ChannelId, es: seq<Entry>): State
    requires c in s.channels
  {
    s.(channels := s.channels[c := s.channels[c].(items := s.channels[c].items + es)])
  }

  /** What a new consumer of `q` is to be sent. */
  function Owed(a: State, q: Queue): seq<Entry> {
    Deliverable(a.tables, BrokerHistory.QueueOf(a.tables, q))
  }

  /** Where a registration that started from `a` and has run alone stands. */
  ghost predicate Standing(a: State, reg: Reg, now: State) {
    var after, es, owed := RegisterConsumer(a, reg.q, reg.c), BrokerHistory.QueueOf(a.tables, reg.q), Owed(a, reg.q);
    reg.c in a.channels
    && match reg.phase
       case Declaring => now == a
       case Joining => now == DeclareQueue(a, reg.q)
       case Copying => now == after
       case Collecting(todo, kept) =>
         if todo != [] then
           && now == after && |todo| <= |es| && todo == es[|es| - |todo|..]
           && kept == Deliverable(a.tables, es[..|es| - |todo|])
         else
           && |kept| <= |owed| && kept == owed[|owed| - |kept|..]
           && now == SendAll(after, reg.c, owed[..|owed| - |kept|])
       case Ended => owed != []
  }

  ghost predicate AloneRegistering(s0: System, s: System, r: TaskId, b: Setting) {
    ListsKnown(s)
    && if r !in s.regs then s == s0
       else
         && s.status == s0.status && s.chans.Keys == s0.chans.Keys
         && (forall q :: q in s0.consumers ==> r !in s0.consumers[q])
         && (!NoDeliveryGap.Joined(s.regs[r]) ==> s.consumers == s0.consumers)
         && Standing(StateOf(s0, b), s.regs[r], StateOf(s, b))
  }

  /** A registration outside the lists does not show in them. */
  lemma ListsIgnore(regs: map<TaskId, Reg>, consumers: map<Queue, seq<TaskId>>, r: TaskId, reg: Reg)
    requires forall q :: q in consumers ==> r !in consumers[q]
    ensures ConsumersOf(regs[r := reg], consumers) == ConsumersOf(regs, consumers)
  {
    forall q | q in consumers ensures ListOf(regs[r := reg], consumers[q]) == ListOf(regs, consumers[q]) {
      forall i | 0 <= i < |consumers[q]| ensures consumers[q][i] != r {
        assert consumers[q][i] in consumers[q];
      }
    }
  }

  /** A change of phase alone does not show in the lists. */
  lemma ListsIgnorePhase(regs: map<TaskId, Reg>, consumers: map<Queue, seq<TaskId>>, r: TaskId, phase: RegPhase)
    requires r in regs
    ensures ConsumersOf(regs[r := regs[r].(phase := phase)], consumers) == ConsumersOf(regs, consumers)
  {
    var regs' := regs[r := regs[r].(phase := phase)];
    forall q | q in consumers ensures ListOf(regs', consumers[q]) == ListOf(regs, consumers[q]) {
    }
  }

  lemma ConsumeAlone(s: System, r: TaskId, q: Queue, c: ChannelId, b: Setting)
    requires ListsKnown(s) && RegEnabled(s, r, Consume(q, c))
    ensures AloneRegistering(s, RegNext(s, r, Consume(q, c)), r, b)
  {
    assert forall p :: p in s.consumers ==> Known(s.regs, s.chans, s.consumers[p]);
    ListsIgnore(s.regs, s.consumers, r, Reg(q, c, Declaring));
  }

  lemma DeclareAlone(s0: System, s: System, r: TaskId, b: Setting)
    requires AloneRegistering(s0, s, r, b) && RegEnabled(s, r, Declare)
    ensures AloneRegistering(s0, RegNext(s, r, Declare), r, b)
  {
    ListsIgnorePhase(s.regs, s.consumers, r, Joining);
    var t := RegNext(s, r, Declare);
    assert StateOf(t, b) == DeclareQueue(StateOf(s, b), s.regs[r].q);
  }

  lemma JoinedLists(regs: map<TaskId, Reg>, consumers: map<Queue, seq<TaskId>>, r: TaskId, q: Queue)
    requires r in regs
    ensures var listed := if q in consumers then consumers[q] else [];
      var abs := ConsumersOf(regs, consumers);
      ConsumersOf(regs, consumers[q := listed + [r]]) == abs[q := (if q in abs then abs[q] else []) + [regs[r].c]]
  {
    var listed := if q in consumers then consumers[q] else [];
    assert ListOf(regs, listed + [r]) == ListOf(regs, listed) + [regs[r].c];
  }

  lemma JoinKnown(s: System, r: TaskId)
    requires ListsKnown(s) && RegEnabled(s, r, Join) && s.regs[r].c in s.chans
    ensures ListsKnown(RegNext(s, r, Join))
  {
  }

  lemma JoinAlone(s0: System, s: System, r: TaskId, b: Setting)
    requires AloneRegistering(s0, s, r, b) && RegEnabled(s, r, Join)
    ensures AloneRegistering(s0, RegNext(s, r, Join), r, b)
  {
    var reg, t := s.regs[r], RegNext(s, r, Join);
    JoinKnown(s, r);
    ListsIgnorePhase(s.regs, s.consumers, r, Copying);
    JoinedLists(t.regs, s.consumers, r, reg.q);
    assert StateOf(t, b).consumers == RegisterConsumer(StateOf(s0, b), reg.q, reg.c).consumers;
  }

  /** A registration that only changes its own phase. */
  lemma PhaseAlone(s0: System, s: System, r: TaskId, phase: RegPhase, b: Setting)
    requires AloneRegistering(s0, s, r, b) && r in s.regs && NoDeliveryGap.Joined(s.regs[r])
    requires NoDeliveryGap.Joined(s.regs[r].(phase := phase))
    requires Standing(StateOf(s0, b), s.regs[r].(phase := phase), StateOf(s, b))
    ensures AloneRegistering(s0, SetReg(s, r, phase), r, b)
  {
    ListsIgnorePhase(s.regs, s.consumers, r, phase);
  }

  lemma SendNone(a: State, c: ChannelId)
    requires c in a.channels
    ensures SendAll(a, c, []) == a
  {
    assert a.channels[c].items + [] == a.channels[c].items;
    assert a.channels[c := a.channels[c]] == a.channels;
  }

  /** Nothing left to filter: everything owed is still to be sent. */
  lemma FilteredStanding(a: State, reg: Reg, now: State)
    requires reg.c in a.channels && now == RegisterConsumer(a, reg.q, reg.c)
    ensures Standing(a, reg.(phase := Collecting([], Owed(a, reg.q))), now)
  {
    var owed := Owed(a, reg.q);
    assert owed[0..] == owed && owed[..0] == [];
    SendNone(now, reg.c);
  }

  lemma CopyStanding(a: State, reg: Reg, now: State)
    requires Standing(a, reg, now) && reg.phase.Copying?
    ensures Standing(a, reg.(phase := Collecting(BrokerHistory.QueueOf(a.tables, reg.q), [])), now)
  {
    var es := BrokerHistory.QueueOf(a.tables, reg.q);
    assert es[0..] == es && es[..0] == [];
    if es == [] {
      FilteredStanding(a, reg, now);
    }
  }

  lemma CopyAlone(s0: System, s: System, r: TaskId, b: Setting)
    requires AloneRegistering(s0, s, r, b) && RegEnabled(s, r, Copy)
    ensures AloneRegistering(s0, SetReg(s, r, Collecting(BrokerHistory.QueueOf(TablesOf(s), s.regs[r].q), [])), r, b)
  {
    CopyStanding(StateOf(s0, b), s.regs[r], StateOf(s, b));
    SameQueue(StateOf(s0, b), s.regs[r].q, s.regs[r].c);
    PhaseAlone(s0, s, r, Collecting(BrokerHistory.QueueOf(TablesOf(s), s.regs[r].q), []), b);
  }

  lemma SameQueue(a: State, q: Queue, c: ChannelId)
    ensures BrokerHistory.QueueOf(RegisterConsumer(a, q, c).tables, q) == BrokerHistory.QueueOf(a.tables, q)
  {
  }

  lemma CopyNext(s: System, r: TaskId)
    requires RegEnabled(s, r, Copy)
    ensures RegNext(s, r, Copy) == SetReg(s, r, Collecting(BrokerHistory.QueueOf(TablesOf(s), s.regs[r].q), []))
  {
  }

  lemma FilterStanding(a: State, reg: Reg, now: State)
    requires Standing(a, reg, now) && reg.phase.Collecting? && reg.phase.todo != []
    ensures var e := reg.phase.todo[0];
      var ok := e.id in a.tables.status && a.tables.status[e.id].CanDeliver();
      Standing(a, reg.(phase := Collecting(reg.phase.todo[1..],
        if ok then reg.phase.kept + [e] else reg.phase.kept)), now)
  {
    var es, todo := BrokerHistory.QueueOf(a.tables, reg.q), reg.phase.todo;
    var n := |es| - |todo|;
    assert todo[0] == es[n] && todo[1..] == es[n + 1..];
    assert es[..n + 1][..n] == es[..n];
    if todo[1..] == [] {
      assert es[..n + 1] == es;
      FilteredStanding(a, reg, now);
    }
  }

  lemma FilterAlone(s0: System, s: System, r: TaskId, b: Setting)
    requires AloneRegistering(s0, s, r, b) && RegEnabled(s, r, Filter)
    ensures AloneRegistering(s0, RegNext(s, r, Filter), r, b)
  {
    FilterStanding(StateOf(s0, b), s.regs[r], StateOf(s, b));
    PhaseAlone(s0, s, r, RegNext(s, r, Filter).regs[r].phase, b);
  }

  lemma SendStanding(a: State, reg: Reg, now: State)
    requires Standing(a, reg, now) && reg.phase.Collecting? && reg.phase.todo == [] && reg.phase.kept != []
    ensures reg.c in now.channels && Owed(a, reg.q) != []
    ensures Standing(a, reg.(phase := Collecting([], reg.phase.kept[1..])), SendAll(now, reg.c, [reg.phase.kept[0]]))
  {
    var owed, kept := Owed(a, reg.q), reg.phase.kept;
    var n := |owed| - |kept|;
    assert kept[0] == owed[n] && kept[1..] == owed[n + 1..] && owed[..n] + [owed[n]] == owed[..n + 1];
    SendOneMore(RegisterConsumer(a, reg.q, reg.c), reg.c, owed[..n], owed[n]);
  }

  lemma SendAlone(s0: System, s: System, r: TaskId, b: Setting)
    requires AloneRegistering(s0, s, r, b) && RegEnabled(s, r, Send)
    ensures AloneRegistering(s0, RegNext(s, r, Send), r, b)
  {
    var reg := s.regs[r];
    SendStanding(StateOf(s0, b), reg, StateOf(s, b));
    if s.chans[reg.c].Open() {
      var kept := reg.phase.kept;
      PutIsSend(s.chans, reg.c, Put(kept[0], r, Snapshot));
      ListsIgnorePhase(s.regs, s.consumers, r, Collecting([], kept[1..]));
      assert StateOf(RegNext(s, r, Send), b) == SendAll(StateOf(s, b), reg.c, [kept[0]]);
    } else {
      PhaseAlone(s0, s, r, Ended, b);
    }
  }

  lemma SendOneMore(a: State, c: ChannelId, es: seq<Entry>, e: Entry)
    requires c in a.channels
    ensures SendAll(SendAll(a, c, es), c, [e]) == SendAll(a, c, es + [e])
  {
    assert a.channels[c].items + es + [e] == a.channels[c].items + (es + [e]);
  }

  lemma RegistersAlone(s0: System, s: System, r: TaskId, step: RegStep, b: Setting)
    requires AloneRegistering(s0, s, r, b) && RegEnabled(s, r, step)
    ensures AloneRegistering(s0, RegNext(s, r, step), r, b)
  {
    match step {
      case Consume(q, c) => ConsumeAlone(s, r, q, c, b);
      case Declare => DeclareAlone(s0, s, r, b);
      case Join => JoinAlone(s0, s, r, b);
      case Copy =>
        CopyNext(s, r);
        CopyAlone(s0, s, r, b);
      case Filter => FilterAlone(s0, s, r, b);
      case Send => SendAlone(s0, s, r, b);
    }
  }

  lemma {:induction false} RegistrationRun(s0: System, s: System, r: TaskId, evs: seq<Event>, t: System, b: Setting)
    requires AloneRegistering(s0, s, r, b) && Runs(s, evs, t) && RegistrationOnly(evs, r)
    ensures AloneRegistering(s0, t, r, b)
    decreases |evs|
  {
    if evs == [] {
    } else {
      RegistersAlone(s0, s, r, evs[0].rs, b);
      RegistrationRun(s0, Next(s, evs[0]), r, evs[1..], t, b);
    }
  }

  /** From any reachable state, a registration that runs alone until it has sent its snapshot is the atomic
      registration, followed by the deliverable entries of the queue on the consumer's channel. */
  lemma WholeRegistration(max: nat, before: seq<Event>, s: System, r: TaskId, evs: seq<Event>, t: System, b: Setting)
    requires Runs(Start(max), before, s) && r !in s.regs && Runs(s, evs, t) && RegistrationOnly(evs, r)
    requires r in t.regs && NoDeliveryGap.SnapshotDone(t.regs[r])
    ensures var a, reg := StateOf(s, b), t.regs[r];
      && reg.c in a.channels
      && StateOf(t, b) == SendAll(RegisterConsumer(a, reg.q, reg.c), reg.c,
                                  Deliverable(a.tables, BrokerHistory.QueueOf(a.tables, reg.q)))
  {
    ReachableKnown(max, before, s);
    RegistrationRun(s, s, r, evs, t, b);
    SentAll(StateOf(s, b), t.regs[r], StateOf(t, b));
  }

  lemma SentAll(a: State, reg: Reg, now: State)
    requires Standing(a, reg, now) && NoDeliveryGap.SnapshotDone(reg)
    ensures reg.c in a.channels
    ensures now == SendAll(RegisterConsumer(a, reg.q, reg.c), reg.c, Deliverable(a.tables,
      BrokerHistory.QueueOf(a.tables, reg.q)))
  {
    var owed := Owed(a, reg.q);
    assert owed[..|owed|] == owed;
  }
}
