/** Whole runs of the broker, one method per step: what holds in every reachable state. */
module BrokerRuns {
  import opened Prelude
  import opened Broker
  import opened BrokerIndex

  datatype Op =
    | Declare(q: Queue)
    | DeclareX(x: Exchange)
    | BindTo(q: Queue, x: Exchange, k: Key)
    | Pub(x: Exchange, k: Key, message: Message, saved: bool, now: Time)
    | Consume(q: Queue, c: ChannelId)
    | Ack(m: Id)
    | Delivered(m: Id, now: Time)
    | ExpireOld(now: Time, maxAge: nat)
    | DropClosed
    | Environment(channels: map<ChannelId, Channel>)  // sessions open, drain and close their channels

  function Apply(s: State, op: Op, stamp: nat): State {
    match op
    case Declare(q) => DeclareQueue(s, q)
    case DeclareX(x) => DeclareExchange(s, x)
    case BindTo(q, x, k) => Bind(s, q, x, k)
    case Pub(x, k, m, saved, now) => Publish(s, x, k, m, saved, stamp, now)
    case Consume(q, c) => RegisterConsumer(s, q, c)
    case Ack(m) => s.(tables := Acknowledge(s.tables, m))
    case Delivered(m, now) => s.(tables := MarkDelivered(s.tables, m, now))
    case ExpireOld(now, maxAge) => s.(tables := Sweep(s.tables, now, maxAge))
    case DropClosed => SweepConsumers(s)
    case Environment(channels) => s.(channels := channels)
  }

  /** The state after `ops`; each publish is stamped with its position. */
  function Run(max: nat, ops: seq<Op>): State {
    if ops == [] then Init(max)
    else Apply(Run(max, ops[..|ops| - 1]), ops[|ops| - 1], |ops| - 1)
  }

  predicate Accepts(s: State, op: Op) {
    op.Pub? && PublishOutcome(s, op.x, op.k, op.message, op.saved) == Accepted
  }

  function Route(s: State, op: Op): seq<Queue> {
    if Accepts(s, op) then Targets(s, op.x, op.k) else []
  }

  function NewEntry(op: Op, stamp: nat): Entry
    requires op.Pub?
  {
    Entry(op.message.messageId, op.message, stamp)
  }

  // ----- Bindings

  lemma {:induction false} MatchingQueues(bs: seq<(Queue, Key)>, k: Key)
    ensures forall q :: q in Matching(bs, k) <==> (q, k) in bs
  {
    if bs == [] {
    } else {
      MatchingQueues(bs[..|bs| - 1], k);
      assert bs == bs[..|bs| - 1] + [bs[|bs| - 1]];
    }
  }

  lemma {:induction false} MatchingDistinct(bs: seq<(Queue, Key)>, k: Key)
    requires Distinct(bs)
    ensures Distinct(Matching(bs, k))
  {
    if bs == [] {
    } else {
      var front, last := bs[..|bs| - 1], bs[|bs| - 1];
      MatchingDistinct(front, k);
      MatchingQueues(front, k);
      assert last !in front;
    }
  }

  ghost predicate BindingsOk(s: State) {
    forall x :: x in s.bindings ==>
      Distinct(s.bindings[x]) && (forall b :: b in s.bindings[x] ==> b.0 in s.tables.queues)
  }

  lemma TargetsOk(s: State, x: Exchange, k: Key)
    requires BindingsOk(s)
    ensures Distinct(Targets(s, x, k))
    ensures forall q :: q in Targets(s, x, k) ==> q in s.tables.queues
  {
    if x in s.bindings {
      MatchingDistinct(s.bindings[x], k);
      MatchingQueues(s.bindings[x], k);
    }
  }

  lemma MatchingSnoc(bs: seq<(Queue, Key)>, q: Queue, k: Key, j: Key)
    ensures Matching(bs + [(q, k)], j) == Matching(bs, j) + if j == k then [q] else []
  {
    assert (bs + [(q, k)])[..|bs|] == bs;
  }

  /** Binding adds the queue at the end of the one route it names, if queue and exchange are declared and it is not on
      that route yet, and changes no other route. */
  lemma BindRoutes(s: State, q: Queue, x: Exchange, k: Key, y: Exchange, j: Key)
    ensures Targets(Bind(s, q, x, k), y, j) == Targets(s, y, j) +
      if y == x && j == k && q in s.tables.queues && x in s.exchanges && q !in Targets(s, x, k) then [q] else []
  {
    var bs := if x in s.bindings then s.bindings[x] else [];
    MatchingQueues(bs, k);
    MatchingSnoc(bs, q, k, j);
    assert [] + [(q, k)] == [(q, k)];
  }

  /** Declaring twice is declaring once, and declaring changes no route and no queue's contents. */
  lemma DeclareChangesNoRoute(s: State, q: Queue, x: Exchange, y: Exchange, j: Key)
    ensures DeclareQueue(DeclareQueue(s, q), q) == DeclareQueue(s, q)
    ensures DeclareExchange(DeclareExchange(s, x), x) == DeclareExchange(s, x)
    ensures Targets(DeclareQueue(s, q), y, j) == Targets(DeclareExchange(s, x), y, j) == Targets(s, y, j)
    ensures forall p :: p in s.tables.queues ==> DeclareQueue(s, q).tables.queues[p] == s.tables.queues[p]
  {
  }

  /** After queue and exchange are declared and bound, a publish with the key is routed to the queue. */
  lemma DeclaredAndBoundRoutes(s: State, q: Queue, x: Exchange, k: Key)
    ensures q in Targets(Bind(DeclareExchange(DeclareQueue(s, q), x), q, x, k), x, k)
  {
    BindRoutes(DeclareExchange(DeclareQueue(s, q), x), q, x, k, x, k);
  }

  // ----- One step, seen from the tables

  lemma NotifyKeeps(s: State, targets: seq<Queue>, e: Entry)
    ensures var r := NotifyAll(s, targets, e);
      r.tables == s.tables && r.bindings == s.bindings && r.exchanges == s.exchanges && r.maxQueueSize == s.maxQueueSize
  {
  }

  function NextTables(s: State, op: Op, stamp: nat): Tables {
    match op
    case Declare(q) => DeclareQueue(s, q).tables
    case Consume(q, _) => DeclareQueue(s, q).tables
    case Pub(_, _, _, _, now) =>
      if Accepts(s, op) then Enqueue(s.tables, s.maxQueueSize, Route(s, op), NewEntry(op, stamp), now) else s.tables
    case Ack(m) => Acknowledge(s.tables, m)
    case Delivered(m, now) => MarkDelivered(s.tables, m, now)
    case ExpireOld(now, maxAge) => Sweep(s.tables, now, maxAge)
    case _ => s.tables
  }

  lemma ApplyTables(s: State, op: Op, stamp: nat)
    ensures Apply(s, op, stamp).tables == NextTables(s, op, stamp)
    ensures Apply(s, op, stamp).maxQueueSize == s.maxQueueSize
    ensures s.tables.queues.Keys <= Apply(s, op, stamp).tables.queues.Keys
  {
    if Accepts(s, op) {
      var targets, e := Route(s, op), NewEntry(op, stamp);
      NotifyKeeps(s.(tables := Enqueue(s.tables, s.maxQueueSize, targets, e, op.now)), targets, e);
      PushKeepsKeys(s.tables, s.maxQueueSize, targets, e);
    }
  }

  lemma PushKeepsKeys(t: Tables, max: nat, targets: seq<Queue>, e: Entry)
    ensures PushAll(t, max, targets, e).queues.Keys == t.queues.Keys
  {
  }

  /** Bindings have no repeats and name declared queues, and indexed queues hold their messages. */
  ghost predicate Sound(s: State) {
    BindingsOk(s) && Tracked(s.tables)
  }

  lemma ApplyBindings(s: State, op: Op, stamp: nat)
    requires BindingsOk(s)
    ensures BindingsOk(Apply(s, op, stamp))
  {
    ApplyTables(s, op, stamp);
    match op {
      case Pub(x, k, m, saved, now) =>
        if Accepts(s, op) {
          var targets, e := Route(s, op), NewEntry(op, stamp);
          NotifyKeeps(s.(tables := Enqueue(s.tables, s.maxQueueSize, targets, e, now)), targets, e);
        }
      case BindTo(q, x, k) =>
      case _ =>
    }
  }

  lemma ApplyTracked(s: State, op: Op, stamp: nat)
    requires Sound(s)
    ensures Tracked(Apply(s, op, stamp).tables)
  {
    ApplyTables(s, op, stamp);
    match op {
      case Pub(x, k, m, saved, now) =>
        if Accepts(s, op) {
          TargetsOk(s, x, k);
          EnqueueTracks(s.tables, s.maxQueueSize, Route(s, op), NewEntry(op, stamp), now);
        }
      case Ack(m) => RemoveTracks(s.tables, {m});
      case ExpireOld(now, maxAge) => RemoveTracks(s.tables, ExpiredIds(s.tables, now, maxAge));
      case _ =>
    }
  }

  lemma ApplySound(s: State, op: Op, stamp: nat)
    requires Sound(s)
    ensures Sound(Apply(s, op, stamp))
  {
    ApplyBindings(s, op, stamp);
    ApplyTracked(s, op, stamp);
  }

  /** In every reachable state each indexed queue is declared and holds its message, and each tracked message is
      indexed. */
  lemma {:induction false} RunSound(max: nat, ops: seq<Op>)
    ensures Sound(Run(max, ops)) && Run(max, ops).maxQueueSize == max
  {
    if ops == [] {
    } else {
      var n := |ops| - 1;
      RunSound(max, ops[..n]);
      ApplySound(Run(max, ops[..n]), ops[n], n);
      ApplyTables(Run(max, ops[..n]), ops[n], n);
    }
  }

  // ----- Exactness over runs

  /** The index is exact in every state the run passes through. */
  ghost predicate AlwaysExact(max: nat, ops: seq<Op>) {
    Exact(Run(max, ops).tables) && (ops != [] ==> AlwaysExact(max, ops[..|ops| - 1]))
  }

  /** Each accepted publish of the run evicts its victims from all the queues that hold them. */
  ghost predicate AlwaysWhole(max: nat, ops: seq<Op>) {
    ops != [] ==>
      AlwaysWhole(max, ops[..|ops| - 1]) && WholeStep(Run(max, ops[..|ops| - 1]), ops[|ops| - 1])
  }

  ghost predicate WholeStep(s: State, op: Op) {
    Accepts(s, op) ==> EvictsWhole(s.tables, s.maxQueueSize, Route(s, op))
  }

  lemma ApplyExactIff(s: State, op: Op, stamp: nat)
    requires Sound(s) && Exact(s.tables)
    ensures Exact(Apply(s, op, stamp).tables) <==> WholeStep(s, op)
  {
    ApplyTables(s, op, stamp);
    match op {
      case Pub(x, k, m, saved, now) =>
        if Accepts(s, op) {
          TargetsOk(s, x, k);
          EnqueueExactIff(s.tables, s.maxQueueSize, Route(s, op), NewEntry(op, stamp), now);
        }
      case Ack(m) => AckRefinesScan(s.tables, m);
      case ExpireOld(now, maxAge) => SweepRemovesExpired(s.tables, now, maxAge);
      case Delivered(m, now) =>
        var r := MarkDelivered(s.tables, m, now);
        assert forall i, q :: Places(r, i, q) <==> Places(s.tables, i, q);
      case Declare(q) => DeclareExact(s, q);
      case Consume(q, _) => DeclareExact(s, q);
      case _ =>
    }
  }

  lemma DeclareExact(s: State, q: Queue)
    requires Tracked(s.tables) && Exact(s.tables)
    ensures Exact(DeclareQueue(s, q).tables)
  {
    var r := DeclareQueue(s, q).tables;
    assert forall i, p :: Places(r, i, p) <==> Places(s.tables, i, p);
  }

  /** The index is exact throughout a run if and only if no publish of the run leaves a victim behind in another
      queue. */
  lemma {:induction false} AlwaysExactIff(max: nat, ops: seq<Op>)
    ensures AlwaysExact(max, ops) <==> AlwaysWhole(max, ops)
  {
    if ops == [] {
    } else {
      var n := |ops| - 1;
      AlwaysExactIff(max, ops[..n]);
      if AlwaysExact(max, ops[..n]) {
        RunSound(max, ops[..n]);
        ApplyExactIff(Run(max, ops[..n]), ops[n], n);
      }
    }
  }

  /** Every state of an always exact run, by its position. */
  lemma {:induction false} AlwaysExactAt(max: nat, ops: seq<Op>, k: nat)
    requires AlwaysExact(max, ops) && k <= |ops|
    ensures Exact(Run(max, ops[..k]).tables)
  {
    if k == |ops| {
      assert ops[..k] == ops;
    } else {
      AlwaysExactAt(max, ops[..|ops| - 1], k);
      assert ops[..|ops| - 1][..k] == ops[..k];
    }
  }

  /** No publish of the run finds a full queue. */
  ghost predicate NeverEvicts(max: nat, ops: seq<Op>) {
    ops != [] ==>
      var s := Run(max, ops[..|ops| - 1]);
      NeverEvicts(max, ops[..|ops| - 1]) && Victims(s.tables, s.maxQueueSize, Route(s, ops[|ops| - 1])) == {}
  }

  /** Every accepted publish of the run has a single target queue. */
  ghost predicate NeverFansOut(max: nat, ops: seq<Op>) {
    ops != [] ==>
      NeverFansOut(max, ops[..|ops| - 1]) && |Route(Run(max, ops[..|ops| - 1]), ops[|ops| - 1])| <= 1
  }

  ghost predicate OneQueueEach(t: Tables) {
    forall m, p, q :: Places(t, m, p) && Places(t, m, q) ==> p == q
  }

  lemma OneQueueWhole(t: Tables, max: nat, targets: seq<Queue>)
    requires Exact(t) && OneQueueEach(t)
    ensures EvictsWhole(t, max, targets)
  {
    forall v | v in Victims(t, max, targets) && v in t.index ensures t.index[v] <= Evicting(t, max, targets, v) {
      var q :| q in targets && Full(t, max, q) && t.queues[q][0].id == v;
      assert v in Ids(t.queues[q]);
      assert Places(t, v, q);
      forall p | p in t.index[v] ensures p == q {
        assert Places(t, v, p);
      }
    }
  }

  lemma OneQueueEnqueue(t: Tables, max: nat, targets: seq<Queue>, e: Entry, now: Time)
    requires OneQueueEach(t) && Distinct(targets) && |targets| <= 1
    ensures OneQueueEach(Enqueue(t, max, targets, e, now))
  {
    PushAllEffect(t, max, targets, e);
    var r := Enqueue(t, max, targets, e, now);
    forall m, p | Places(r, m, p) && m != e.id ensures Places(t, m, p) {
    }
  }

  lemma OneQueueStep(s: State, op: Op, stamp: nat)
    requires Sound(s) && Exact(s.tables) && OneQueueEach(s.tables) && |Route(s, op)| <= 1
    ensures WholeStep(s, op) && OneQueueEach(Apply(s, op, stamp).tables)
  {
    ApplyTables(s, op, stamp);
    var t, r := s.tables, NextTables(s, op, stamp);
    if Accepts(s, op) {
      OneQueueWhole(t, s.maxQueueSize, Route(s, op));
      TargetsOk(s, op.x, op.k);
      OneQueueEnqueue(t, s.maxQueueSize, Route(s, op), NewEntry(op, stamp), op.now);
    } else {
      assert forall m, p :: Places(r, m, p) ==> Places(t, m, p);
    }
  }

  lemma {:induction false} NeverFansOutIsWhole(max: nat, ops: seq<Op>)
    requires NeverFansOut(max, ops)
    ensures AlwaysWhole(max, ops) && OneQueueEach(Run(max, ops).tables)
  {
    if ops == [] {
    } else {
      var n := |ops| - 1;
      NeverFansOutIsWhole(max, ops[..n]);
      AlwaysExactIff(max, ops[..n]);
      RunSound(max, ops[..n]);
      OneQueueStep(Run(max, ops[..n]), ops[n], n);
    }
  }

  lemma {:induction false} NeverEvictsIsWhole(max: nat, ops: seq<Op>)
    requires NeverEvicts(max, ops)
    ensures AlwaysWhole(max, ops)
  {
    if ops == [] {
    } else {
      NeverEvictsIsWhole(max, ops[..|ops| - 1]);
    }
  }

  /** The two simple regimes: no publish evicts, or no publish fans out. In both, the index is exact throughout
      and the queues hold as many entries as the tracked messages have indexed queues. */
  lemma RegimesAreExact(max: nat, ops: seq<Op>)
    requires NeverEvicts(max, ops) || NeverFansOut(max, ops)
    ensures AlwaysExact(max, ops)
    ensures var t := Run(max, ops).tables;
      t.status.Keys <= t.index.Keys && TotalQueued(t.queues) == TotalIndexed(t.index, t.status.Keys)
  {
    if NeverEvicts(max, ops) {
      NeverEvictsIsWhole(max, ops);
    } else {
      NeverFansOutIsWhole(max, ops);
    }
    AlwaysExactIff(max, ops);
    TotalsAgree(Run(max, ops).tables);
  }

  // ----- Fan-out with eviction is not exact

  /** A victim that another queue still holds becomes a stray copy: queued without a status, so an acknowledgement
      for it is ignored and its id is no longer a duplicate. */
  lemma VictimBecomesStray(s: State, op: Op, stamp: nat, v: Id, q: Queue)
    requires Sound(s) && Exact(s.tables) && Accepts(s, op)
    requires v in Victims(s.tables, s.maxQueueSize, Route(s, op)) && Places(s.tables, v, q)
    requires q !in Evicting(s.tables, s.maxQueueSize, Route(s, op), v)
    ensures var t := Apply(s, op, stamp).tables;
      q in t.queues && v in Ids(t.queues[q]) && v !in t.status && Acknowledge(t, v) == t && !Exact(t)
  {
    ApplyTables(s, op, stamp);
    TargetsOk(s, op.x, op.k);
    var t, e := s.tables, NewEntry(op, stamp);
    PushAllEffect(t, s.maxQueueSize, Route(s, op), e);
    PushedIds(t.queues[q], s.maxQueueSize, e);
    var r := NextTables(s, op, stamp);
    assert v in Ids(t.queues[q]);
    assert v in Ids(r.queues[q]) && !Places(r, v, q);
  }
}
