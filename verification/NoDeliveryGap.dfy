/** No delivery gap: whatever the interleaving, a message accepted into a queue reaches every consumer of that queue. */
module NoDeliveryGap {
  import opened Prelude
  import opened Broker
  import opened BrokerIndex
  import opened Interleaving

  type Pubs = map<TaskId, Pub>
  type Regs = map<TaskId, Reg>
  type Queues = map<Queue, seq<Entry>>
  type Chans = map<ChannelId, Chan>
  type Lists = map<Queue, seq<TaskId>>

  // ----- The invariant, part by part

  predicate InPushLoop(ph: PubPhase) {
    ph.Room? || ph.Unindexing? || ph.Unstatusing? || ph.Appending?
  }

  predicate PushLoopOver(ph: PubPhase) {
    ph.Indexing? || ph.Accepting? || ph.Notifying?
  }

  ghost predicate PubOk(queues: Queues, pub: Pub) {
    && Distinct(pub.targets)
    && (forall q :: q in pub.targets ==> q in queues)
    && pub.pushed <= |pub.targets| && pub.notified <= |pub.targets|
    && (InPushLoop(pub.phase) ==> pub.pushed < |pub.targets|)
    && (PushLoopOver(pub.phase) ==> pub.pushed == |pub.targets|)
    && (!InPushLoop(pub.phase) && !PushLoopOver(pub.phase) ==> pub.pushed == 0)
    && (!pub.phase.Notifying? ==> pub.notified == 0)
  }

  ghost predicate PubsOk(pubs: Pubs, queues: Queues) {
    forall p :: p in pubs ==> PubOk(queues, pubs[p])
  }

  /** The target queues a publish has pushed to. */
  function Reached(pub: Pub): seq<Queue> {
    if pub.pushed <= |pub.targets| then pub.targets[..pub.pushed] else pub.targets
  }

  /** The target queues whose consumers a publish has told. */
  function Told(pub: Pub): seq<Queue> {
    if pub.notified <= |pub.targets| then pub.targets[..pub.notified] else pub.targets
  }

  predicate Holds(queues: Queues, q: Queue, e: Entry) {
    q in queues && e in queues[q]
  }

  /** An undropped publish is in every queue it has reached. */
  ghost predicate InQueues(pubs: Pubs, queues: Queues, dropped: set<TaskId>) {
    forall p, q :: p in pubs && p !in dropped && q in Reached(pubs[p]) ==> Holds(queues, q, EntryOf(p, pubs[p]))
  }

  predicate CanReach(status: map<Id, Status>, m: Id) {
    m in status && status[m].CanDeliver()
  }

  /** An undropped publish, once accepted, can be delivered. */
  ghost predicate CanBeDelivered(pubs: Pubs, status: map<Id, Status>, dropped: set<TaskId>) {
    forall p :: p in pubs && p !in dropped && pubs[p].phase.Notifying? ==> CanReach(status, pubs[p].message.messageId)
  }

  ghost predicate DistinctStamps(es: seq<Entry>) {
    forall i, j :: 0 <= i < j < |es| ==> es[i].stamp != es[j].stamp
  }

  predicate Known(pubs: Pubs, e: Entry) {
    e.stamp in pubs && e == EntryOf(e.stamp, pubs[e.stamp])
  }

  /** A queue holds each publish at most once, and only publishes that have reached it. */
  ghost predicate QueuesOk(pubs: Pubs, queues: Queues) {
    && (forall q :: q in queues ==> DistinctStamps(queues[q]))
    && (forall q, e :: Holds(queues, q, e) ==> Known(pubs, e) && q in Reached(pubs[e.stamp]))
  }

  predicate Joined(reg: Reg) {
    reg.phase.Copying? || reg.phase.Collecting? || reg.phase.Ended?
  }

  predicate OpenChan(chans: Chans, c: ChannelId) {
    c in chans && chans[c].Open()
  }

  predicate ListedIn(consumers: Lists, q: Queue, r: TaskId) {
    q in consumers && r in consumers[q]
  }

  /** A joined registration stays listed while its channel is open. */
  ghost predicate RegsListed(regs: Regs, chans: Chans, consumers: Lists) {
    forall r :: r in regs ==>
      && regs[r].c in chans
      && (Joined(regs[r]) && OpenChan(chans, regs[r].c) ==> ListedIn(consumers, regs[r].q, r))
      && (regs[r].phase.Ended? ==> !OpenChan(chans, regs[r].c))
  }

  ghost predicate RegsQueued(regs: Regs, queues: Queues) {
    forall r :: r in regs && !regs[r].phase.Declaring? ==> regs[r].q in queues
  }

  ghost predicate CopyOk(pubs: Pubs, es: seq<Entry>) {
    DistinctStamps(es) && (forall e :: e in es ==> Known(pubs, e))
  }

  ghost predicate CopiesOk(regs: Regs, pubs: Pubs) {
    forall r :: r in regs && regs[r].phase.Collecting? ==> CopyOk(pubs, regs[r].phase.kept + regs[r].phase.todo)
  }

  /** A consumer list names each registration once, and only registrations on its queue. */
  ghost predicate ListsOk(consumers: Lists, regs: Regs) {
    && (forall q :: q in consumers ==> Distinct(consumers[q]))
    && (forall q, r :: ListedIn(consumers, q, r) ==> r in regs && Joined(regs[r]) && regs[r].q == q)
  }

  /** Where a put came from: a notice for a queue already told, or a snapshot copy already sent. */
  ghost predicate PutOk(regs: Regs, pubs: Pubs, c: ChannelId, x: Put) {
    && x.r in regs && regs[x.r].c == c && Known(pubs, x.e)
    && (x.via.Notice? ==> regs[x.r].q in Told(pubs[x.e.stamp]))
    && (x.via.Snapshot? ==>
          regs[x.r].phase.Ended?
          || (regs[x.r].phase.Collecting? && x.e.stamp !in Stamps(regs[x.r].phase.kept + regs[x.r].phase.todo)))
  }

  predicate HasPut(chans: Chans, c: ChannelId, x: Put) {
    c in chans && x in chans[c].puts
  }

  /** Nothing is put twice: at most one notice and one snapshot copy of a publish per registration. */
  ghost predicate PutsOk(chans: Chans, regs: Regs, pubs: Pubs) {
    && (forall c :: c in chans ==> Distinct(chans[c].puts))
    && (forall c, x :: HasPut(chans, c, x) ==> PutOk(regs, pubs, c, x))
  }

  /** The message is on the registration's channel, or one of the two tasks will still put it there. */
  ghost predicate Covered(pub: Pub, e: Entry, r: TaskId, reg: Reg, chans: Chans) {
    || !OpenChan(chans, reg.c)
    || reg.q !in Told(pub)
    || reg.phase.Copying?
    || (reg.phase.Collecting? && (e in reg.phase.todo || e in reg.phase.kept))
    || HasPut(chans, reg.c, Put(e, r, Notice))
    || HasPut(chans, reg.c, Put(e, r, Snapshot))
  }

  predicate Matters(pubs: Pubs, regs: Regs, dropped: set<TaskId>, p: TaskId, r: TaskId) {
    && p in pubs && p !in dropped && pubs[p].phase.Notifying?
    && r in regs && Joined(regs[r]) && regs[r].q in pubs[p].targets
  }

  ghost predicate NoGap(pubs: Pubs, regs: Regs, chans: Chans, dropped: set<TaskId>) {
    forall p, r :: Matters(pubs, regs, dropped, p, r) ==> Covered(pubs[p], EntryOf(p, pubs[p]), r, regs[r], chans)
  }

  ghost predicate Inv(s: System) {
    && PubsOk(s.pubs, s.queues)
    && InQueues(s.pubs, s.queues, s.dropped)
    && CanBeDelivered(s.pubs, s.status, s.dropped)
    && QueuesOk(s.pubs, s.queues)
    && RegsListed(s.regs, s.chans, s.consumers)
    && RegsQueued(s.regs, s.queues)
    && CopiesOk(s.regs, s.pubs)
    && ListsOk(s.consumers, s.regs)
    && PutsOk(s.chans, s.regs, s.pubs)
    && NoGap(s.pubs, s.regs, s.chans, s.dropped)
  }

  // ----- Changes that only grow

  /** A publish moves on: its message stays, its targets are fixed once it pushes, its counters grow. */
  predicate Grows(a: Pub, b: Pub) {
    && a.message == b.message
    && Reached(a) <= Reached(b) && Told(a) <= Told(b)
    && (a.phase.Notifying? ==> b == a.(notified := b.notified))
  }

  ghost predicate PubsGrow(pubs: Pubs, pubs': Pubs) {
    forall p :: p in pubs ==> p in pubs' && Grows(pubs[p], pubs'[p])
  }

  lemma PubsGrowKeeps(pubs: Pubs, pubs': Pubs, queues: Queues, regs: Regs, chans: Chans)
    requires PubsGrow(pubs, pubs')
    ensures QueuesOk(pubs, queues) ==> QueuesOk(pubs', queues)
    ensures CopiesOk(regs, pubs) ==> CopiesOk(regs, pubs')
    ensures PutsOk(chans, regs, pubs) ==> PutsOk(chans, regs, pubs')
  {
    assert forall e :: Known(pubs, e) ==> Known(pubs', e);
    assert forall p, q :: p in pubs && q in Reached(pubs[p]) ==> q in Reached(pubs'[p]);
    assert forall p, q :: p in pubs && q in Told(pubs[p]) ==> q in Told(pubs'[p]);
  }

  /** Channels keep what was put on them, and a closed one stays closed. */
  ghost predicate ChansGrow(chans: Chans, chans': Chans) {
    && (forall c :: c in chans ==> c in chans' && chans[c].puts <= chans'[c].puts)
    && (forall c :: c in chans && OpenChan(chans', c) ==> OpenChan(chans, c))
  }

  lemma CoveredGrows(pub: Pub, e: Entry, r: TaskId, reg: Reg, chans: Chans, chans': Chans)
    requires Covered(pub, e, r, reg, chans) && ChansGrow(chans, chans') && reg.c in chans
    ensures Covered(pub, e, r, reg, chans')
  {
  }

  lemma NoGapGrows(pubs: Pubs, regs: Regs, chans: Chans, chans': Chans, dropped: set<TaskId>, dropped': set<TaskId>)
    requires NoGap(pubs, regs, chans, dropped) && ChansGrow(chans, chans') && dropped <= dropped'
    requires forall r :: r in regs ==> regs[r].c in chans
    ensures NoGap(pubs, regs, chans', dropped')
  {
    forall p, r | Matters(pubs, regs, dropped', p, r)
      ensures Covered(pubs[p], EntryOf(p, pubs[p]), r, regs[r], chans')
    {
      CoveredGrows(pubs[p], EntryOf(p, pubs[p]), r, regs[r], chans, chans');
    }
  }

  // ----- Sessions

  lemma SessionChans(s: System, c: ChannelId, step: SessionStep)
    requires SessionEnabled(s, c, step)
    ensures var t := SessionNext(s, c, step);
      && t == s.(chans := t.chans, status := t.status)
      && ChansGrow(s.chans, t.chans)
      && (forall d :: d in t.chans ==> t.chans[d].puts == if d in s.chans then s.chans[d].puts else [])
      && (forall m :: CanReach(s.status, m) ==> CanReach(t.status, m))
  {
  }

  lemma SessionKeeps(s: System, c: ChannelId, step: SessionStep)
    requires Inv(s) && SessionEnabled(s, c, step)
    ensures Inv(SessionNext(s, c, step))
  {
    SessionChans(s, c, step);
    SamePuts(s.chans, SessionNext(s, c, step).chans, s.regs, s.pubs, s.consumers);
    NoGapGrows(s.pubs, s.regs, s.chans, SessionNext(s, c, step).chans, s.dropped, s.dropped);
  }

  lemma SamePuts(chans: Chans, chans': Chans, regs: Regs, pubs: Pubs, consumers: Lists)
    requires ChansGrow(chans, chans')
    requires forall d :: d in chans' ==> chans'[d].puts == if d in chans then chans[d].puts else []
    requires PutsOk(chans, regs, pubs) && RegsListed(regs, chans, consumers)
    ensures PutsOk(chans', regs, pubs) && RegsListed(regs, chans', consumers)
  {
    forall c, x | HasPut(chans', c, x) ensures HasPut(chans, c, x) {
    }
  }

  // ----- Removals

  lemma {:induction false} WithoutStamps(es: seq<Entry>, ids: set<Id>)
    requires DistinctStamps(es)
    ensures DistinctStamps(Without(es, ids))
  {
    if es == [] {
    } else {
      var front, last := es[..|es| - 1], es[|es| - 1];
      WithoutStamps(front, ids);
      WithoutKeeps(front, ids);
      forall i | 0 <= i < |Without(front, ids)| ensures Without(front, ids)[i].stamp != last.stamp {
        assert Without(front, ids)[i] in front;
      }
    }
  }

  /** Queues only lose entries, and the publishes that lose one are dropped. */
  ghost predicate Shrinks(queues: Queues, queues': Queues, dropped': set<TaskId>) {
    && queues.Keys == queues'.Keys
    && (forall q :: q in queues' ==> DistinctStamps(queues'[q]))
    && (forall q, e :: Holds(queues', q, e) ==> Holds(queues, q, e))
    && (forall q, e :: Holds(queues, q, e) && e.stamp !in dropped' ==> Holds(queues', q, e))
  }

  lemma ShrinksKeeps(pubs: Pubs, queues: Queues, queues': Queues, dropped: set<TaskId>, dropped': set<TaskId>,
                     regs: Regs)
    requires Shrinks(queues, queues', dropped') && dropped <= dropped'
    ensures PubsOk(pubs, queues) ==> PubsOk(pubs, queues')
    ensures QueuesOk(pubs, queues) ==> QueuesOk(pubs, queues')
    ensures RegsQueued(regs, queues) ==> RegsQueued(regs, queues')
    ensures InQueues(pubs, queues, dropped) ==> InQueues(pubs, queues', dropped')
  {
  }

  lemma ClearShrinks(s: System, m: Id, q: Queue)
    requires QueuesOk(s.pubs, s.queues)
    ensures var t := ClearOne(s, m, q);
      && Shrinks(s.queues, t.queues, t.dropped) && s.dropped <= t.dropped
      && t == s.(queues := t.queues, dropped := t.dropped)
  {
    if q in s.queues {
      WithoutKeeps(s.queues[q], {m});
      WithoutStamps(s.queues[q], {m});
    }
  }

  lemma ReleaseKeeps(s: System, m: Id, status': map<Id, Status>)
    requires CanBeDelivered(s.pubs, s.status, s.dropped)
    requires forall i :: i != m && CanReach(s.status, i) ==> CanReach(status', i)
    ensures CanBeDelivered(s.pubs, status', s.dropped + AcceptedOf(s, m))
  {
  }

  lemma RemKeeps(s: System, a: TaskId, step: RemStep)
    requires Inv(s) && RemEnabled(s, a, step)
    ensures Inv(RemNext(s, a, step))
  {
    var t := RemNext(s, a, step);
    if step.MarkAcknowledged? || step.DropStatus? {
      ReleaseKeeps(s, s.removers[a].m, t.status);
      NoGapGrows(s.pubs, s.regs, s.chans, s.chans, s.dropped, t.dropped);
      ShrinksKeeps(s.pubs, s.queues, s.queues, s.dropped, t.dropped, s.regs);
    } else if step.Clear? {
      ClearShrinks(s, s.removers[a].m, step.q);
      ShrinksKeeps(s.pubs, s.queues, t.queues, s.dropped, t.dropped, s.regs);
      NoGapGrows(s.pubs, s.regs, s.chans, s.chans, s.dropped, t.dropped);
    }
  }

  // ----- Registrations

  lemma DeclareKeeps(pubs: Pubs, queues: Queues, q: Queue, dropped: set<TaskId>, regs: Regs)
    ensures PubsOk(pubs, queues) ==> PubsOk(pubs, DeclareIn(queues, q))
    ensures QueuesOk(pubs, queues) ==> QueuesOk(pubs, DeclareIn(queues, q))
    ensures RegsQueued(regs, queues) ==> RegsQueued(regs, DeclareIn(queues, q))
    ensures InQueues(pubs, queues, dropped) ==> InQueues(pubs, DeclareIn(queues, q), dropped)
  {
    forall x, e ensures Holds(DeclareIn(queues, q), x, e) <==> Holds(queues, x, e) {
    }
  }

  /** A registration that joins no list and sends nothing: what the other parts see of it. */
  lemma RegMoves(s: System, r: TaskId, reg: Reg)
    requires Inv(s)
    requires r in s.regs ==> s.regs[r].c == reg.c && s.regs[r].q == reg.q && Joined(s.regs[r]) == Joined(reg)
    requires r !in s.regs ==> !Joined(reg) && reg.c in s.chans && reg.phase.Declaring?
    requires reg.phase.Ended? ==> !OpenChan(s.chans, reg.c)
    requires reg.phase.Declaring? || reg.q in s.queues
    ensures var regs := s.regs[r := reg];
      RegsListed(regs, s.chans, s.consumers) && RegsQueued(regs, s.queues) && ListsOk(s.consumers, regs)
  {
    var regs := s.regs[r := reg];
    forall q, x | ListedIn(s.consumers, q, x) ensures x in regs && Joined(regs[x]) && regs[x].q == q {
    }
  }

  lemma RegKeeps(s: System, r: TaskId, step: RegStep)
    requires Inv(s) && RegEnabled(s, r, step)
    ensures Inv(RegNext(s, r, step))
  {
    match step {
      case Consume(q, c) => ConsumeKeeps(s, r, q, c);
      case Declare => RegDeclareKeeps(s, r);
      case Join => JoinKeeps(s, r);
      case Copy => CopyKeeps(s, r);
      case Filter => FilterKeeps(s, r);
      case Send => SendKeeps(s, r);
    }
  }

  /** Puts are told apart from an unjoined registration: it has none. */
  lemma UnjoinedHasNoPuts(s: System, r: TaskId, reg: Reg)
    requires Inv(s) && (r in s.regs ==> !Joined(s.regs[r]) && s.regs[r].q == reg.q && s.regs[r].c == reg.c)
    ensures PutsOk(s.chans, s.regs[r := reg], s.pubs)
  {
    forall c, x | HasPut(s.chans, c, x) ensures PutOk(s.regs[r := reg], s.pubs, c, x) {
      assert PutOk(s.regs, s.pubs, c, x);
    }
  }

  lemma ConsumeKeeps(s: System, r: TaskId, q: Queue, c: ChannelId)
    requires Inv(s) && RegEnabled(s, r, Consume(q, c))
    ensures Inv(RegNext(s, r, Consume(q, c)))
  {
    UnjoinedMoves(s, r, Reg(q, c, Declaring));
  }

  lemma UnjoinedMoves(s: System, r: TaskId, reg: Reg)
    requires Inv(s) && !Joined(reg) && reg.c in s.chans
    requires r in s.regs ==> !Joined(s.regs[r]) && s.regs[r].q == reg.q && s.regs[r].c == reg.c
    requires r !in s.regs ==> reg.phase.Declaring?
    requires reg.phase.Declaring? || reg.q in s.queues
    ensures Inv(s.(regs := s.regs[r := reg]))
  {
    RegMoves(s, r, reg);
    UnjoinedHasNoPuts(s, r, reg);
  }

  lemma DeclareInv(s: System, q: Queue)
    requires Inv(s)
    ensures Inv(s.(queues := DeclareIn(s.queues, q)))
  {
    DeclareKeeps(s.pubs, s.queues, q, s.dropped, s.regs);
  }

  lemma RegDeclareKeeps(s: System, r: TaskId)
    requires Inv(s) && RegEnabled(s, r, Declare)
    ensures Inv(RegNext(s, r, Declare))
  {
    var reg := s.regs[r].(phase := Joining);
    DeclareInv(s, reg.q);
    UnjoinedMoves(s.(queues := DeclareIn(s.queues, reg.q)), r, reg);
  }

  lemma JoinKeeps(s: System, r: TaskId)
    requires Inv(s) && RegEnabled(s, r, Join)
    ensures Inv(RegNext(s, r, Join))
  {
    UnjoinedHasNoPuts(s, r, s.regs[r].(phase := Copying));
    JoinLists(s, r);
  }

  lemma JoinLists(s: System, r: TaskId)
    requires RegsListed(s.regs, s.chans, s.consumers) && ListsOk(s.consumers, s.regs) && RegEnabled(s, r, Join)
    ensures var t := RegNext(s, r, Join); RegsListed(t.regs, t.chans, t.consumers) && ListsOk(t.consumers, t.regs)
  {
    var t := RegNext(s, r, Join);
    forall q, x ensures ListedIn(t.consumers, q, x) <==> ListedIn(s.consumers, q, x) || (q == s.regs[r].q && x == r) {
    }
    assert !ListedIn(s.consumers, s.regs[r].q, r);
  }

  lemma CopyKeeps(s: System, r: TaskId)
    requires Inv(s) && RegEnabled(s, r, Copy)
    ensures Inv(RegNext(s, r, Copy))
  {
    var reg := s.regs[r];
    var todo := s.queues[reg.q];
    var reg' := reg.(phase := Collecting(todo, []));
    RegMoves(s, r, reg');
    assert [] + todo == todo;
    assert CopyOk(s.pubs, todo) by {
      forall e | e in todo ensures Known(s.pubs, e) {
        assert Holds(s.queues, reg.q, e);
      }
    }
    assert PutsOk(s.chans, s.regs[r := reg'], s.pubs) by {
      forall c, x | HasPut(s.chans, c, x) ensures PutOk(s.regs[r := reg'], s.pubs, c, x) {
        assert PutOk(s.regs, s.pubs, c, x);
      }
    }
    var regs := s.regs[r := reg'];
    forall p, x | Matters(s.pubs, regs, s.dropped, p, x)
      ensures Covered(s.pubs[p], EntryOf(p, s.pubs[p]), x, regs[x], s.chans)
    {
      assert Matters(s.pubs, s.regs, s.dropped, p, x);
      if x == r {
        assert PubOk(s.queues, s.pubs[p]);
        assert reg.q in Reached(s.pubs[p]);
        assert Holds(s.queues, reg.q, EntryOf(p, s.pubs[p]));
      }
    }
  }

  /** A registration already collecting changes its lists or sends: what must be shown of the new lists. */
  lemma CollectingMoves(s: System, r: TaskId, reg: Reg, chans: Chans)
    requires Inv(s) && r in s.regs && s.regs[r].phase.Collecting?
    requires reg.c == s.regs[r].c && reg.q == s.regs[r].q
    requires reg.phase.Collecting? || (reg.phase.Ended? && !OpenChan(s.chans, reg.c))
    requires ChansGrow(s.chans, chans) && chans.Keys == s.chans.Keys
    requires reg.phase.Collecting? ==> CopyOk(s.pubs, reg.phase.kept + reg.phase.todo)
    requires PutsOk(chans, s.regs[r := reg], s.pubs)
    requires reg.phase.Collecting? ==> forall e ::
      (e in s.regs[r].phase.todo || e in s.regs[r].phase.kept) && Known(s.pubs, e) && e.stamp !in s.dropped
      && s.pubs[e.stamp].phase.Notifying? ==>
      e in reg.phase.todo || e in reg.phase.kept || HasPut(chans, reg.c, Put(e, r, Snapshot))
    ensures Inv(s.(regs := s.regs[r := reg], chans := chans))
  {
    var regs := s.regs[r := reg];
    RegMoves(s, r, reg);
    forall p, x | Matters(s.pubs, regs, s.dropped, p, x)
      ensures Covered(s.pubs[p], EntryOf(p, s.pubs[p]), x, regs[x], chans)
    {
      assert Matters(s.pubs, s.regs, s.dropped, p, x);
      CoveredGrows(s.pubs[p], EntryOf(p, s.pubs[p]), x, s.regs[x], s.chans, chans);
    }
  }

  lemma DropOne(pubs: Pubs, a: seq<Entry>, e: Entry, b: seq<Entry>)
    requires CopyOk(pubs, a + [e] + b)
    ensures CopyOk(pubs, a + b) && e.stamp !in Stamps(a + b) && Stamps(a + b) <= Stamps(a + [e] + b)
    ensures e.stamp in Stamps(a + [e] + b)
  {
    var es, f := a + [e] + b, a + b;
    assert es[|a|] == e;
    assert forall i :: 0 <= i < |f| ==> f[i] == es[if i < |a| then i else i + 1];
  }

  lemma FilterKeeps(s: System, r: TaskId)
    requires Inv(s) && RegEnabled(s, r, Filter)
    ensures Inv(RegNext(s, r, Filter))
  {
    var t := RegNext(s, r, Filter);
    var old_, reg := s.regs[r].phase, t.regs[r];
    var e := old_.todo[0];
    assert old_.todo == [e] + old_.todo[1..];
    assert CopyOk(s.pubs, old_.kept + old_.todo);
    assert old_.kept + [e] + old_.todo[1..] == old_.kept + old_.todo;
    DropOne(s.pubs, old_.kept, e, old_.todo[1..]);
    forall c, x | HasPut(s.chans, c, x) ensures PutOk(t.regs, s.pubs, c, x) {
      assert PutOk(s.regs, s.pubs, c, x);
    }
    CollectingMoves(s, r, reg, s.chans);
  }

  lemma SendKeeps(s: System, r: TaskId)
    requires Inv(s) && RegEnabled(s, r, Send)
    ensures Inv(RegNext(s, r, Send))
  {
    if OpenChan(s.chans, s.regs[r].c) {
      var t := RegNext(s, r, Send);
      SendPuts(s, r);
      CollectingMoves(s, r, t.regs[r], t.chans);
    } else {
      SendEnds(s, r);
    }
  }

  lemma SendEnds(s: System, r: TaskId)
    requires Inv(s) && RegEnabled(s, r, Send) && !OpenChan(s.chans, s.regs[r].c)
    ensures Inv(RegNext(s, r, Send))
  {
    var regs := s.regs[r := s.regs[r].(phase := Ended)];
    forall c, x | HasPut(s.chans, c, x) ensures PutOk(regs, s.pubs, c, x) {
      assert PutOk(s.regs, s.pubs, c, x);
    }
    CollectingMoves(s, r, regs[r], s.chans);
  }

  lemma SendPuts(s: System, r: TaskId)
    requires CopiesOk(s.regs, s.pubs) && PutsOk(s.chans, s.regs, s.pubs)
    requires RegEnabled(s, r, Send) && OpenChan(s.chans, s.regs[r].c)
    ensures var t, kept := RegNext(s, r, Send), s.regs[r].phase.kept;
      && PutsOk(t.chans, t.regs, s.pubs)
      && CopyOk(s.pubs, t.regs[r].phase.kept + t.regs[r].phase.todo)
      && HasPut(t.chans, s.regs[r].c, Put(kept[0], r, Snapshot))
  {
    var t, reg := RegNext(s, r, Send), s.regs[r];
    var e, rest := reg.phase.kept[0], reg.phase.kept[1..];
    assert reg.phase.kept + reg.phase.todo == [] + [e] + rest && [] + rest == rest + [];
    DropOne(s.pubs, [], e, rest);
    assert !HasPut(s.chans, reg.c, Put(e, r, Snapshot));
    assert t.chans[reg.c].puts[|s.chans[reg.c].puts|] == Put(e, r, Snapshot);
    forall c, x | HasPut(t.chans, c, x) ensures PutOk(t.regs, s.pubs, c, x) {
      if HasPut(s.chans, c, x) {
        assert PutOk(s.regs, s.pubs, c, x);
      }
    }
  }

  // ----- Publishes

  /** A publish moves without reaching another queue, telling anyone or becoming accepted. */
  lemma PubMoves(s: System, p: TaskId, pub: Pub)
    requires Inv(s) && PubOk(s.queues, pub)
    requires p in s.pubs ==> Grows(s.pubs[p], pub) && Reached(pub) == Reached(s.pubs[p]) && Told(pub) == Told(s.pubs[p])
    requires p !in s.pubs ==> Reached(pub) == []
    requires pub.phase.Notifying? ==> p in s.pubs && pub == s.pubs[p]
    ensures Inv(SetPub(s, p, pub))
  {
    var pubs := s.pubs[p := pub];
    assert PubsGrow(s.pubs, pubs);
    PubsGrowKeeps(s.pubs, pubs, s.queues, s.regs, s.chans);
    forall x, q | x in pubs && x !in s.dropped && q in Reached(pubs[x]) ensures Holds(s.queues, q, EntryOf(x,
      pubs[x])) {
      assert q in Reached(s.pubs[x]);
    }
    forall x, r | Matters(pubs, s.regs, s.dropped, x, r)
      ensures Covered(pubs[x], EntryOf(x, pubs[x]), r, s.regs[r], s.chans)
    {
      assert Matters(s.pubs, s.regs, s.dropped, x, r);
    }
  }

  lemma EvictKeeps(s: System, p: TaskId, q: Queue)
    requires Inv(s) && PubAt(s, p, Room) && q in s.queues && s.queues[q] != []
    ensures Inv(EvictOne(s, p, s.pubs[p], q))
  {
    var queues, dropped := s.queues[q := s.queues[q][1..]], s.dropped + {s.queues[q][0].stamp};
    assert s.queues[q] == [s.queues[q][0]] + s.queues[q][1..];
    assert Shrinks(s.queues, queues, dropped);
    ShrinksKeeps(s.pubs, s.queues, queues, s.dropped, dropped, s.regs);
    NoGapGrows(s.pubs, s.regs, s.chans, s.chans, s.dropped, dropped);
    PubMoves(s.(queues := queues, dropped := dropped), p, s.pubs[p].(phase := Unindexing(s.queues[q][0].id)));
  }

  lemma UnstatusKeeps(s: System, p: TaskId)
    requires Inv(s) && PubEnabled(s, p, Unstatus)
    ensures Inv(PubNext(s, p, Unstatus))
  {
    var t := PubNext(s, p, Unstatus);
    ReleaseKeeps(s, s.pubs[p].phase.victim, t.status);
    NoGapGrows(s.pubs, s.regs, s.chans, s.chans, s.dropped, t.dropped);
    ShrinksKeeps(s.pubs, s.queues, s.queues, s.dropped, t.dropped, s.regs);
    PubMoves(s.(status := t.status, dropped := t.dropped), p, s.pubs[p].(phase := Appending));
  }

  lemma AppendQueues(pubs: Pubs, queues: Queues, dropped: set<TaskId>, p: TaskId, pub: Pub, q: Queue)
    requires p in pubs && pub == pubs[p] && pub.pushed < |pub.targets| && q == pub.targets[pub.pushed] && q in queues
    requires PubsOk(pubs, queues) && InQueues(pubs, queues, dropped) && QueuesOk(pubs, queues)
    requires pub.phase.Appending?
    ensures var pubs', queues' := pubs[p := NextTarget(pub)], queues[q := queues[q] + [EntryOf(p, pub)]];
      PubsOk(pubs', queues') && InQueues(pubs', queues', dropped) && QueuesOk(pubs', queues') && PubsGrow(pubs, pubs')
  {
    var e, pubs' := EntryOf(p, pub), pubs[p := NextTarget(pub)];
    var queues' := queues[q := queues[q] + [e]];
    assert Reached(pubs'[p]) == Reached(pub) + [q];
    forall x, f ensures Holds(queues', x, f) <==> Holds(queues, x, f) || (x == q && f == e) {
    }
    assert q !in Reached(pub);
    forall i | 0 <= i < |queues[q]| ensures queues[q][i].stamp != p {
      assert Holds(queues, q, queues[q][i]);
    }
    forall x, f | Holds(queues', x, f) ensures Known(pubs', f) && x in Reached(pubs'[f.stamp]) {
    }
  }

  lemma SamePubsMatter(pubs: Pubs, pubs': Pubs, regs: Regs, chans: Chans, dropped: set<TaskId>, p: TaskId)
    requires NoGap(pubs, regs, chans, dropped) && p in pubs' && pubs' == pubs[p := pubs'[p]]
    requires pubs'[p].phase.Notifying? ==> Told(pubs'[p]) == []
    ensures NoGap(pubs', regs, chans, dropped)
  {
    forall x, r | Matters(pubs', regs, dropped, x, r)
      ensures Covered(pubs'[x], EntryOf(x, pubs'[x]), r, regs[r], chans)
    {
      if x != p {
        assert Matters(pubs, regs, dropped, x, r);
      }
    }
  }

  lemma AppendKeeps(s: System, p: TaskId)
    requires Inv(s) && PubEnabled(s, p, Append)
    ensures Inv(PubNext(s, p, Append))
  {
    var t, pub := PubNext(s, p, Append), s.pubs[p];
    AppendQueues(s.pubs, s.queues, s.dropped, p, pub, pub.targets[pub.pushed]);
    PubsGrowKeeps(s.pubs, t.pubs, s.queues, s.regs, s.chans);
    SamePubsMatter(s.pubs, t.pubs, s.regs, s.chans, s.dropped, p);
  }

  lemma AcceptQueues(pubs: Pubs, queues: Queues, status: map<Id, Status>, dropped: set<TaskId>, p: TaskId, now: Time)
    requires p in pubs && pubs[p].phase.Accepting?
    requires PubsOk(pubs, queues) && InQueues(pubs, queues, dropped) && CanBeDelivered(pubs, status, dropped)
    ensures var pubs', status' := pubs[p := pubs[p].(phase := Notifying)],
      status[pubs[p].message.messageId := Sent(now)];
      && PubsOk(pubs', queues) && InQueues(pubs', queues, dropped) && CanBeDelivered(pubs', status', dropped)
      && PubsGrow(pubs, pubs') && Told(pubs'[p]) == []
  {
    var pubs', status' := pubs[p := pubs[p].(phase := Notifying)], status[pubs[p].message.messageId := Sent(now)];
    assert forall m :: CanReach(status, m) ==> CanReach(status', m);
    assert CanReach(status', pubs[p].message.messageId);
    assert PubOk(queues, pubs[p]);
    assert forall x :: x in pubs ==> Reached(pubs'[x]) == Reached(pubs[x]);
  }

  lemma AcceptKeeps(s: System, p: TaskId, now: Time)
    requires Inv(s) && PubEnabled(s, p, Accept(now))
    ensures Inv(PubNext(s, p, Accept(now)))
  {
    var t := PubNext(s, p, Accept(now));
    AcceptQueues(s.pubs, s.queues, s.status, s.dropped, p, now);
    PubsGrowKeeps(s.pubs, t.pubs, s.queues, s.regs, s.chans);
    SamePubsMatter(s.pubs, t.pubs, s.regs, s.chans, s.dropped, p);
  }

  // ----- Notification

  lemma {:induction false} AliveKeeps(s: System, rs: seq<TaskId>)
    ensures forall r :: r in Alive(s, rs) <==> r in rs && r in s.regs && OpenChan(s.chans, s.regs[r].c)
    ensures Distinct(rs) ==> Distinct(Alive(s, rs))
  {
    if rs == [] {
    } else {
      AliveKeeps(s, rs[..|rs| - 1]);
      assert rs == rs[..|rs| - 1] + [rs[|rs| - 1]];
    }
  }

  /** `t` has, beyond `chans`, one notice of `e` for each listed registration. */
  ghost predicate Noticed(chans: Chans, t: Chans, regs: Regs, rs: seq<TaskId>, e: Entry)
    requires forall r :: r in rs ==> r in regs
  {
    forall c, x :: HasPut(t, c, x) <==>
      HasPut(chans, c, x) || (x.r in rs && regs[x.r].c == c && x == Put(e, x.r, Notice))
  }

  lemma NoticedSnoc(chans: Chans, u: Chans, t: Chans, regs: Regs, rs: seq<TaskId>, r: TaskId, e: Entry)
    requires r in regs && forall x :: x in rs ==> x in regs
    requires Noticed(chans, u, regs, rs, e)
    requires forall d, y :: HasPut(t, d, y) <==> HasPut(u, d, y) || (d == regs[r].c && y == Put(e, r, Notice))
    ensures Noticed(chans, t, regs, rs + [r], e)
  {
  }

  /** Each listed registration gets the entry once, and nothing else changes. */
  lemma {:induction false} PutEachEffect(chans: Chans, regs: Regs, rs: seq<TaskId>, e: Entry)
    requires Distinct(rs) && forall r :: r in rs ==> r in regs && regs[r].c in chans
    requires forall c :: c in chans ==> Distinct(chans[c].puts)
    requires forall c, r :: r in rs ==> !HasPut(chans, c, Put(e, r, Notice))
    ensures var t := PutEach(chans, regs, rs, e);
      && t.Keys == chans.Keys
      && ChansGrow(chans, t)
      && (forall c :: c in t ==> Distinct(t[c].puts))
      && Noticed(chans, t, regs, rs, e)
  {
    if rs == [] {
    } else {
      var front, r := rs[..|rs| - 1], rs[|rs| - 1];
      assert rs == front + [r] && r !in front;
      PutEachEffect(chans, regs, front, e);
      var u, t, c := PutEach(chans, regs, front, e), PutEach(chans, regs, rs, e), regs[r].c;
      assert !HasPut(chans, c, Put(e, r, Notice)) && !HasPut(u, c, Put(e, r, Notice));
      PutOneEffect(u, c, Put(e, r, Notice), t);
      NoticedSnoc(chans, u, t, regs, front, r, e);
    }
  }

  lemma PutOneEffect(u: Chans, c: ChannelId, x: Put, t: Chans)
    requires c in u && t == u[c := u[c].(puts := u[c].puts + [x])] && x !in u[c].puts
    requires forall d :: d in u ==> Distinct(u[d].puts)
    ensures ChansGrow(u, t) && forall d :: d in t ==> Distinct(t[d].puts)
    ensures forall d, y :: HasPut(t, d, y) <==> HasPut(u, d, y) || (d == c && y == x)
  {
  }

  /** One more target told. */
  function Tell(pub: Pub): Pub {
    pub.(notified := pub.notified + 1)
  }

  lemma TellGrows(pubs: Pubs, queues: Queues, status: map<Id, Status>, dropped: set<TaskId>, p: TaskId)
    requires p in pubs && pubs[p].phase.Notifying? && pubs[p].notified < |pubs[p].targets|
    requires PubsOk(pubs, queues) && InQueues(pubs, queues, dropped) && CanBeDelivered(pubs, status, dropped)
    ensures var pub, pubs' := pubs[p], pubs[p := Tell(pubs[p])];
      && PubsGrow(pubs, pubs')
      && PubsOk(pubs', queues) && InQueues(pubs', queues, dropped) && CanBeDelivered(pubs', status, dropped)
      && Told(pubs'[p]) == Told(pub) + [pub.targets[pub.notified]]
      && pub.targets[pub.notified] !in Told(pub)
  {
    var pub, pubs' := pubs[p], pubs[p := Tell(pubs[p])];
    assert PubOk(queues, pub);
    assert Told(pubs'[p]) == Told(pub) + [pub.targets[pub.notified]];
    assert forall x :: x in pubs ==> Reached(pubs'[x]) == Reached(pubs[x]);
  }

  /** Telling the consumers of `q`: the list keeps the open ones, each of which gets the message, none twice. */
  lemma NotifyPuts(s: System, p: TaskId, q: Queue, chans: Chans)
    requires p in s.pubs && q in s.consumers && q !in Told(s.pubs[p])
    requires RegsListed(s.regs, s.chans, s.consumers) && ListsOk(s.consumers, s.regs) && PutsOk(s.chans, s.regs, s.pubs)
    requires chans == PutEach(s.chans, s.regs, Alive(s, s.consumers[q]), EntryOf(p, s.pubs[p]))
    ensures var e := EntryOf(p, s.pubs[p]);
      && ChansGrow(s.chans, chans) && chans.Keys == s.chans.Keys
      && (forall c :: c in chans ==> Distinct(chans[c].puts))
      && (forall c, x :: HasPut(chans, c, x) <==>
            HasPut(s.chans, c, x)
            || (ListedIn(s.consumers, q, x.r) && OpenChan(s.chans, c)
                && s.regs[x.r].c == c && x == Put(e, x.r, Notice)))
  {
    var e, alive := EntryOf(p, s.pubs[p]), Alive(s, s.consumers[q]);
    AliveKeeps(s, s.consumers[q]);
    forall r | r in s.consumers[q] ensures r in s.regs && s.regs[r].q == q && s.regs[r].c in s.chans {
      assert ListedIn(s.consumers, q, r);
    }
    forall c, r | r in alive ensures !HasPut(s.chans, c, Put(e, r, Notice)) {
      assert HasPut(s.chans, c, Put(e, r, Notice)) ==> PutOk(s.regs, s.pubs, c, Put(e, r, Notice));
    }
    PutEachEffect(s.chans, s.regs, alive, e);
  }

  lemma NotifyLists(s: System, q: Queue, chans: Chans)
    requires q in s.consumers && RegsListed(s.regs, s.chans, s.consumers) && ListsOk(s.consumers, s.regs)
    requires ChansGrow(s.chans, chans) && chans.Keys == s.chans.Keys
    ensures var consumers := s.consumers[q := Alive(s, s.consumers[q])];
      RegsListed(s.regs, chans, consumers) && ListsOk(consumers, s.regs)
  {
    var consumers := s.consumers[q := Alive(s, s.consumers[q])];
    AliveKeeps(s, s.consumers[q]);
    forall x, r ensures ListedIn(consumers, x, r) <==>
      ListedIn(s.consumers, x, r) && (x == q ==> r in s.regs && OpenChan(s.chans, s.regs[r].c))
    {
    }
  }

  /** Every listed registration with an open channel has got `e`. */
  ghost predicate AllTold(s: System, q: Queue, e: Entry, chans: Chans) {
    forall r :: ListedIn(s.consumers, q, r) && r in s.regs && OpenChan(s.chans, s.regs[r].c) ==>
      HasPut(chans, s.regs[r].c, Put(e, r, Notice))
  }

  lemma NotifyListed(s: System, p: TaskId, q: Queue, pubs: Pubs, chans: Chans)
    requires p in s.pubs && q in s.consumers && q !in Told(s.pubs[p])
    requires pubs == s.pubs[p := Tell(s.pubs[p])] && Told(pubs[p]) == Told(s.pubs[p]) + [q]
    requires RegsListed(s.regs, s.chans, s.consumers) && ListsOk(s.consumers, s.regs) && PutsOk(s.chans, s.regs, s.pubs)
    requires PutsOk(s.chans, s.regs, pubs)
    requires chans == PutEach(s.chans, s.regs, Alive(s, s.consumers[q]), EntryOf(p, s.pubs[p]))
    ensures ChansGrow(s.chans, chans) && chans.Keys == s.chans.Keys && PutsOk(chans, s.regs, pubs)
    ensures AllTold(s, q, EntryOf(p, s.pubs[p]), chans)
  {
    NotifyPuts(s, p, q, chans);
    forall c, x | HasPut(chans, c, x) ensures PutOk(s.regs, pubs, c, x) {
    }
  }

  lemma NotifyCovers(s: System, p: TaskId, q: Queue, pubs: Pubs, chans: Chans)
    requires p in s.pubs && q !in Told(s.pubs[p]) && pubs == s.pubs[p := Tell(s.pubs[p])]
    requires Told(pubs[p]) == Told(s.pubs[p]) + [q]
    requires RegsListed(s.regs, s.chans, s.consumers) && NoGap(s.pubs, s.regs, s.chans, s.dropped)
    requires ChansGrow(s.chans, chans)
    requires AllTold(s, q, EntryOf(p, s.pubs[p]), chans)
    ensures NoGap(pubs, s.regs, chans, s.dropped)
  {
    forall x, r | Matters(pubs, s.regs, s.dropped, x, r)
      ensures Covered(pubs[x], EntryOf(x, pubs[x]), r, s.regs[r], chans)
    {
      assert Matters(s.pubs, s.regs, s.dropped, x, r);
      CoveredGrows(s.pubs[x], EntryOf(x, s.pubs[x]), r, s.regs[r], s.chans, chans);
    }
  }

  lemma NotifyTells(s: System, p: TaskId, q: Queue, pubs: Pubs)
    requires Inv(s) && p in s.pubs && q !in Told(s.pubs[p])
    requires pubs == s.pubs[p := Tell(s.pubs[p])] && Told(pubs[p]) == Told(s.pubs[p]) + [q]
    requires PutsOk(s.chans, s.regs, pubs)
    ensures var t := NotifyOne(s, p, s.pubs[p], q);
      && RegsListed(s.regs, t.chans, t.consumers) && ListsOk(t.consumers, s.regs)
      && PutsOk(t.chans, s.regs, pubs) && NoGap(pubs, s.regs, t.chans, s.dropped)
  {
    var t := NotifyOne(s, p, s.pubs[p], q);
    if q in s.consumers {
      NotifyListed(s, p, q, pubs, t.chans);
      NotifyLists(s, q, t.chans);
    }
    NotifyCovers(s, p, q, pubs, t.chans);
  }

  lemma TellKeeps(s: System, p: TaskId, q: Queue, pubs: Pubs)
    requires Inv(s) && PubAt(s, p, Notifying) && s.pubs[p].notified < |s.pubs[p].targets|
    requires q == s.pubs[p].targets[s.pubs[p].notified] && pubs == s.pubs[p := Tell(s.pubs[p])]
    ensures PubsOk(pubs, s.queues) && InQueues(pubs, s.queues, s.dropped) && CanBeDelivered(pubs, s.status, s.dropped)
    ensures QueuesOk(pubs, s.queues) && CopiesOk(s.regs, pubs) && PutsOk(s.chans, s.regs, pubs)
    ensures q !in Told(s.pubs[p]) && Told(pubs[p]) == Told(s.pubs[p]) + [q]
  {
    TellGrows(s.pubs, s.queues, s.status, s.dropped, p);
    PubsGrowKeeps(s.pubs, pubs, s.queues, s.regs, s.chans);
  }

  lemma NotifyKeeps(s: System, p: TaskId, q: Queue)
    requires Inv(s) && PubAt(s, p, Notifying) && s.pubs[p].notified < |s.pubs[p].targets|
    requires q == s.pubs[p].targets[s.pubs[p].notified]
    ensures Inv(NotifyOne(s, p, s.pubs[p], q))
  {
    var t, pubs := NotifyOne(s, p, s.pubs[p], q), s.pubs[p := Tell(s.pubs[p])];
    TellKeeps(s, p, q, pubs);
    NotifyTells(s, p, q, pubs);
    assert t == s.(pubs := pubs, consumers := t.consumers, chans := t.chans);
  }

  lemma PubKeeps(s: System, p: TaskId, step: PubStep)
    requires Inv(s) && PubEnabled(s, p, step)
    ensures Inv(PubNext(s, p, step))
  {
    match step {
      case MakeRoom => MakeRoomKeeps(s, p);
      case Unstatus => UnstatusKeeps(s, p);
      case Append => AppendKeeps(s, p);
      case Accept(now) => AcceptKeeps(s, p, now);
      case Notify => NotifyKeeps(s, p, s.pubs[p].targets[s.pubs[p].notified]);
      case _ => QuietKeeps(s, p, step);
    }
  }

  lemma MakeRoomKeeps(s: System, p: TaskId)
    requires Inv(s) && PubEnabled(s, p, MakeRoom)
    ensures Inv(PubNext(s, p, MakeRoom))
  {
    var q := s.pubs[p].targets[s.pubs[p].pushed];
    if |s.queues[q]| >= s.max && s.queues[q] != [] {
      EvictKeeps(s, p, q);
    } else {
      PubMoves(s, p, s.pubs[p].(phase := Appending));
    }
  }

  lemma QuietKeeps(s: System, p: TaskId, step: PubStep)
    requires Inv(s) && PubEnabled(s, p, step) && (BeforePush(step) || step.Unindex? || step.Index?)
    ensures Inv(PubNext(s, p, step))
  {
    assert p in s.pubs ==> PubOk(s.queues, s.pubs[p]);
    if BeforePush(step) {
      EarlyMoves(s, p, step);
      PubMoves(s, p, Moved(s, p, step));
    } else {
      LateMoves(s, p, step);
      PubMoves(s, p, PubNext(s, p, step).pubs[p]);
    }
  }

  /** A publish about to make such a move, and after it. */
  ghost predicate Moves(queues: Queues, was: Pub, pub: Pub) {
    && PubOk(queues, pub) && !was.phase.Notifying? && !pub.phase.Notifying?
    && Grows(was, pub) && Reached(pub) == Reached(was) && Told(pub) == Told(was)
  }

  lemma EarlyMoves(s: System, p: TaskId, step: PubStep)
    requires PubEnabled(s, p, step) && BeforePush(step) && (p in s.pubs ==> PubOk(s.queues, s.pubs[p]))
    ensures p in s.pubs ==> Moves(s.queues, s.pubs[p], Moved(s, p, step))
    ensures p !in s.pubs ==> PubOk(s.queues, Moved(s, p, step)) && Reached(Moved(s, p, step)) == [] && step.Begin?
    ensures !Moved(s, p, step).phase.Notifying?
  {
  }

  lemma LateMoves(s: System, p: TaskId, step: PubStep)
    requires PubEnabled(s, p, step) && (step.Unindex? || step.Index?) && PubOk(s.queues, s.pubs[p])
    ensures var t := PubNext(s, p, step);
      p in t.pubs && t == SetPub(s, p, t.pubs[p]).(index := t.index) && Moves(s.queues, s.pubs[p], t.pubs[p])
  {
  }

  // ----- Every run

  lemma NextKeeps(s: System, ev: Event)
    requires Inv(s) && Enabled(s, ev)
    ensures Inv(Next(s, ev))
  {
    match ev {
      case DeclareEv(q) => DeclareInv(s, q);
      case PubEv(p, step) => PubKeeps(s, p, step);
      case RegEv(r, step) => RegKeeps(s, r, step);
      case RemEv(a, step) => RemKeeps(s, a, step);
      case SessionEv(c, step) => SessionKeeps(s, c, step);
    }
  }

  lemma {:induction false} RunKeeps(s: System, evs: seq<Event>, t: System)
    requires Inv(s) && Runs(s, evs, t)
    ensures Inv(t)
    decreases |evs|
  {
    if evs == [] {
    } else {
      NextKeeps(s, evs[0]);
      RunKeeps(Next(s, evs[0]), evs[1..], t);
    }
  }

  // ----- Which events take a message out of tracking

  /** The event acknowledges, evicts or expires the message of publish `p`. */
  ghost predicate Drops(s: System, ev: Event, p: TaskId) {
    p in s.pubs && Enabled(s, ev)
    && var pub := s.pubs[p];
      match ev
      case PubEv(x, step) => PubDrops(s, x, step, p, pub)
      case RemEv(a, step) => RemDrops(s, a, step, p, pub)
      case _ => false
  }

  ghost predicate PubDrops(s: System, x: TaskId, step: PubStep, p: TaskId, pub: Pub)
    requires PubEnabled(s, x, step)
  {
    || (step.Unstatus? && pub.phase.Notifying? && s.pubs[x].phase.victim == pub.message.messageId)
    || (step.MakeRoom? && var q := s.pubs[x].targets[s.pubs[x].pushed];
          |s.queues[q]| >= s.max && s.queues[q] != [] && s.queues[q][0] == EntryOf(p, pub))
  }

  predicate RemDrops(s: System, a: TaskId, step: RemStep, p: TaskId, pub: Pub)
    requires RemEnabled(s, a, step)
  {
    || ((step.MarkAcknowledged? || step.DropStatus?)
        && pub.phase.Notifying? && s.removers[a].m == pub.message.messageId)
    || (step.Clear? && s.removers[a].m == pub.message.messageId && Holds(s.queues, step.q, EntryOf(p, pub)))
  }

  lemma PubDropsIff(s: System, x: TaskId, step: PubStep, p: TaskId)
    requires QueuesOk(s.pubs, s.queues) && PubEnabled(s, x, step)
    ensures p in PubNext(s, x, step).dropped <==> p in s.dropped || (p in s.pubs && PubDrops(s, x, step, p, s.pubs[p]))
  {
    if step.MakeRoom? {
      var q := s.pubs[x].targets[s.pubs[x].pushed];
      if s.queues[q] != [] {
        assert Holds(s.queues, q, s.queues[q][0]);
      }
    } else if !step.Unstatus? {
      PubDropsNone(s, x, step);
    }
  }

  lemma PubDropsNone(s: System, x: TaskId, step: PubStep)
    requires PubEnabled(s, x, step) && !step.MakeRoom? && !step.Unstatus?
    ensures PubNext(s, x, step).dropped == s.dropped
  {
    match step
    case Begin(_) =>
    case CheckDuplicate =>
    case Saved(_) =>
    case Route(_) =>
    case Unindex =>
    case Append =>
    case Index =>
    case Accept(_) =>
    case Notify =>
    case _ =>
  }

  lemma RemDropsIff(s: System, a: TaskId, step: RemStep, p: TaskId)
    requires QueuesOk(s.pubs, s.queues) && RemEnabled(s, a, step)
    ensures p in RemNext(s, a, step).dropped <==> p in s.dropped || (p in s.pubs && RemDrops(s, a, step, p, s.pubs[p]))
  {
    if step.Clear? && step.q in s.queues {
      forall e | e in s.queues[step.q] ensures Known(s.pubs, e) {
        assert Holds(s.queues, step.q, e);
      }
    }
  }

  lemma RegDropsNone(s: System, r: TaskId, step: RegStep)
    requires RegEnabled(s, r, step)
    ensures RegNext(s, r, step).dropped == s.dropped
  {
    match step
    case Consume(_, _) =>
    case Declare =>
    case Join =>
    case Copy =>
    case Filter =>
    case Send =>
  }

  lemma DroppedIff(s: System, ev: Event, p: TaskId)
    requires Inv(s) && Enabled(s, ev)
    ensures p in Next(s, ev).dropped <==> p in s.dropped || Drops(s, ev, p)
  {
    match ev {
      case DeclareEv(_) =>
      case PubEv(x, step) => PubDropsIff(s, x, step, p);
      case RemEv(a, step) => RemDropsIff(s, a, step, p);
      case RegEv(r, step) => RegDropsNone(s, r, step);
      case SessionEv(c, step) => SessionChans(s, c, step);
    }
  }

  /** A publish counts as dropped exactly when some event of the run acknowledged, evicted or expired its message. */
  lemma {:induction false} DroppedByRun(max: nat, states: seq<System>, evs: seq<Event>, p: TaskId, k: nat)
    requires Trace(max, states, evs) && k <= |evs|
    ensures Inv(states[k])
    ensures p in states[k].dropped <==> exists i: nat :: i < k && Drops(states[i], evs[i], p)
  {
    if k == 0 {
    } else {
      DroppedByRun(max, states, evs, p, k - 1);
      assert StepAt(states, evs, k - 1);
      NextKeeps(states[k - 1], evs[k - 1]);
      DroppedIff(states[k - 1], evs[k - 1], p);
    }
  }

  // ----- No gap, nothing twice

  /** The registration has listed its queue and sent all it kept. */
  predicate SnapshotDone(reg: Reg) {
    reg.phase.Collecting? && reg.phase.todo == [] && reg.phase.kept == []
  }

  /** In every interleaving: once a publish has told a queue's consumers and a registration on that queue has sent its
      snapshot, the message is on the registration's channel, unless some event acknowledged, evicted or expired the
      message or the channel was closed. */
  lemma NoDeliveryGapEver(max: nat, states: seq<System>, evs: seq<Event>, p: TaskId, r: TaskId)
    requires Trace(max, states, evs)
    requires forall i: nat :: i < |evs| ==> !Drops(states[i], evs[i], p)
    requires var s := states[|evs|];
      && p in s.pubs && r in s.regs && SnapshotDone(s.regs[r])
      && s.regs[r].q in Told(s.pubs[p]) && OpenChan(s.chans, s.regs[r].c)
    ensures var s := states[|evs|];
      var e, c := EntryOf(p, s.pubs[p]), s.regs[r].c;
      HasPut(s.chans, c, Put(e, r, Notice)) || HasPut(s.chans, c, Put(e, r, Snapshot))
  {
    DroppedByRun(max, states, evs, p, |evs|);
    var s := states[|evs|];
    assert PubOk(s.queues, s.pubs[p]);
    assert Matters(s.pubs, s.regs, s.dropped, p, r);
  }

  function Copies(puts: seq<Put>, e: Entry, r: TaskId): nat {
    if puts == [] then 0
    else
      var last := puts[|puts| - 1];
      Copies(puts[..|puts| - 1], e, r) + if last.e == e && last.r == r then 1 else 0
  }

  lemma {:induction false} CopiesAre(puts: seq<Put>, e: Entry, r: TaskId)
    requires Distinct(puts)
    ensures Copies(puts, e, r)
         == (if Put(e, r, Notice) in puts then 1 else 0) + (if Put(e, r, Snapshot) in puts then 1 else 0)
  {
    if puts == [] {
    } else {
      var front, last := puts[..|puts| - 1], puts[|puts| - 1];
      assert puts == front + [last] && last !in front;
      CopiesAre(front, e, r);
      assert forall x :: x in puts <==> x in front || x == last;
      assert last == Put(last.e, last.r, last.via) && (last.via == Notice || last.via == Snapshot);
    }
  }

  /** In every interleaving a registration is given a publish at most twice, once by notice and once by its snapshot,
      and a channel is given only real publishes for its own registrations. */
  lemma NoPutTwice(max: nat, evs: seq<Event>, s: System, c: ChannelId, e: Entry, r: TaskId)
    requires Runs(Start(max), evs, s) && c in s.chans
    ensures Copies(s.chans[c].puts, e, r) <= 2 && Distinct(s.chans[c].puts)
    ensures forall x :: x in s.chans[c].puts ==> x.r in s.regs && s.regs[x.r].c == c && Known(s.pubs, x.e)
  {
    RunKeeps(Start(max), evs, s);
    CopiesAre(s.chans[c].puts, e, r);
    forall x | x in s.chans[c].puts ensures PutOk(s.regs, s.pubs, c, x) {
      assert HasPut(s.chans, c, x);
    }
  }

  /** A publish inside its push loop always finds its next target queue, so it is never stuck. */
  lemma PublishNeverStuck(max: nat, evs: seq<Event>, s: System, p: TaskId)
    requires Runs(Start(max), evs, s) && p in s.pubs && InPushLoop(s.pubs[p].phase)
    ensures NextQueueOk(s, s.pubs[p])
  {
    RunKeeps(Start(max), evs, s);
    assert PubOk(s.queues, s.pubs[p]);
  }
}
