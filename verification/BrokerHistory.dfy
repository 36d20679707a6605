/** What a run did, step by step: the order of the queues, what became of every pushed entry, and which acceptance
    a status stems from. */
module BrokerHistory {
  import opened Prelude
  import opened Broker
  import opened BrokerIndex
  import opened BrokerRuns
  import opened Publishing

  function QueueOf(t: Tables, q: Queue): seq<Entry> {
    if q in t.queues then t.queues[q] else []
  }

  /** The real bound of a queue: a size of 0 still holds one entry. */
  function Capacity(max: nat): nat {
    Max(1, max)
  }

  // ----- One step, seen from one queue

  /** The ids a step removes from `q` through the index. */
  function RemovedIds(s: State, op: Op, q: Queue): set<Id> {
    match op
    case Ack(m) => if m in s.tables.status then Listed(s.tables.index, {m}, q) else {}
    case ExpireOld(now, maxAge) => Listed(s.tables.index, ExpiredIds(s.tables, now, maxAge), q)
    case _ => {}
  }

  lemma QueueStep(s: State, op: Op, stamp: nat, q: Queue)
    requires Sound(s)
    ensures var es := QueueOf(s.tables, q);
      QueueOf(Apply(s, op, stamp).tables, q)
      == if q in Route(s, op) then Pushed(es, s.maxQueueSize, NewEntry(op, stamp)) else Without(es, RemovedIds(s, op,
        q))
  {
    ApplyTables(s, op, stamp);
    WithoutAbsent(QueueOf(s.tables, q), {});
    if Accepts(s, op) {
      TargetsOk(s, op.x, op.k);
      PushAllEffect(s.tables, s.maxQueueSize, Route(s, op), NewEntry(op, stamp));
    }
  }

  /** What a step means for one queue. */
  datatype QueueEvent = Push(e: Entry) | Acked(ids: set<Id>) | Aged(ids: set<Id>) | Quiet

  function EventOf(s: State, op: Op, stamp: nat, q: Queue): QueueEvent {
    if q in Route(s, op) then Push(NewEntry(op, stamp))
    else if op.Ack? then Acked(RemovedIds(s, op, q))
    else if op.ExpireOld? then Aged(RemovedIds(s, op, q))
    else Quiet
  }

  /** The events of `q` over a run, one per step. */
  function Events(max: nat, ops: seq<Op>, q: Queue): seq<QueueEvent> {
    if ops == [] then []
    else
      var n := |ops| - 1;
      Events(max, ops[..n], q) + [EventOf(Run(max, ops[..n]), ops[n], n, q)]
  }

  function After(es: seq<Entry>, max: nat, ev: QueueEvent): seq<Entry> {
    match ev
    case Push(e) => Pushed(es, max, e)
    case Acked(ids) => Without(es, ids)
    case Aged(ids) => Without(es, ids)
    case Quiet => es
  }

  /** A queue on its own, from its events alone. */
  function Replay(max: nat, evs: seq<QueueEvent>): seq<Entry> {
    if evs == [] then [] else After(Replay(max, evs[..|evs| - 1]), max, evs[|evs| - 1])
  }

  lemma EventStep(s: State, op: Op, stamp: nat, q: Queue)
    requires Sound(s)
    ensures QueueOf(Apply(s, op, stamp).tables, q)
         == After(QueueOf(s.tables, q), s.maxQueueSize, EventOf(s, op, stamp, q))
    ensures EventOf(s, op, stamp, q).Push? ==> EventOf(s, op, stamp, q).e.stamp == stamp
  {
    QueueStep(s, op, stamp, q);
    WithoutAbsent(QueueOf(s.tables, q), {});
  }

  /** The pushes of a queue are stamped with their positions. */
  ghost predicate InOrder(evs: seq<QueueEvent>) {
    forall i :: 0 <= i < |evs| && evs[i].Push? ==> evs[i].e.stamp == i
  }

  lemma ReplaySnoc(max: nat, evs: seq<QueueEvent>, ev: QueueEvent)
    ensures Replay(max, evs + [ev]) == After(Replay(max, evs), max, ev)
  {
    assert (evs + [ev])[..|evs|] == evs;
  }

  /** A queue of the broker is the replay of its own events. */
  lemma {:induction false} QueueIsReplay(max: nat, ops: seq<Op>, q: Queue)
    ensures QueueOf(Run(max, ops).tables, q) == Replay(max, Events(max, ops, q))
    ensures |Events(max, ops, q)| == |ops| && InOrder(Events(max, ops, q))
  {
    if ops == [] {
    } else {
      var n := |ops| - 1;
      QueueIsReplay(max, ops[..n], q);
      RunSound(max, ops[..n]);
      var s := Run(max, ops[..n]);
      EventStep(s, ops[n], n, q);
      ReplaySnoc(max, Events(max, ops[..n], q), EventOf(s, ops[n], n, q));
    }
  }

  /** Step `i` published to `q`: a saved message with a fresh id, under a key that binds `q`. */
  ghost predicate PublishesTo(max: nat, ops: seq<Op>, q: Queue, i: nat) {
    && i < |ops| && ops[i].Pub? && ops[i].saved
    && var s := Run(max, ops[..i]);
      ops[i].message.messageId !in s.tables.status && Bound(s, ops[i].x, ops[i].k, q)
  }

  lemma PushIff(s: State, op: Op, stamp: nat, q: Queue)
    ensures EventOf(s, op, stamp, q).Push? <==>
      && op.Pub? && op.saved && op.message.messageId !in s.tables.status && Bound(s, op.x, op.k, q)
    ensures EventOf(s, op, stamp, q).Push? ==>
      EventOf(s, op, stamp, q).e == Entry(op.message.messageId, op.message, stamp)
  {
    if op.Pub? {
      PublishAnswers(s, op.x, op.k, op.message, op.saved);
      TargetsAre(s, op.x, op.k);
    }
  }

  /** The pushes of a queue are the publishes to it, each of the very message published. */
  lemma {:induction false} PushesArePublishes(max: nat, ops: seq<Op>, q: Queue, i: nat)
    requires i < |ops|
    ensures |Events(max, ops, q)| == |ops|
    ensures Events(max, ops, q)[i].Push? <==> PublishesTo(max, ops, q, i)
    ensures PublishesTo(max, ops, q, i) ==>
      Events(max, ops, q)[i].e == Entry(ops[i].message.messageId, ops[i].message, i)
  {
    var n := |ops| - 1;
    QueueIsReplay(max, ops, q);
    if i == n {
      PushIff(Run(max, ops[..n]), ops[n], n, q);
    } else {
      PushesArePublishes(max, ops[..n], q, i);
      assert ops[..n][..i] == ops[..i];
    }
  }

  // ----- Conservation

  /** The entries `Without` leaves out. */
  function Only(es: seq<Entry>, ids: set<Id>): seq<Entry> {
    if es == [] then []
    else
      var rest := Only(es[..|es| - 1], ids);
      if es[|es| - 1].id in ids then rest + [es[|es| - 1]] else rest
  }

  lemma {:induction false} WithoutAndOnly(es: seq<Entry>, ids: set<Id>)
    ensures multiset(Without(es, ids)) + multiset(Only(es, ids)) == multiset(es)
    ensures Only(es, ids) == [] ==> Without(es, ids) == es
  {
    if es == [] {
    } else {
      assert es == es[..|es| - 1] + [es[|es| - 1]];
      WithoutAndOnly(es[..|es| - 1], ids);
    }
  }

  datatype Cause = ByAck | ByEviction | ByExpiry

  function DroppedBy(es: seq<Entry>, max: nat, ev: QueueEvent, cause: Cause): seq<Entry> {
    match (ev, cause)
    case (Acked(ids), ByAck) => Only(es, ids)
    case (Aged(ids), ByExpiry) => Only(es, ids)
    case (Push(_), ByEviction) => if es != [] && |es| >= max then [es[0]] else []
    case _ => []
  }

  /** Everything pushed to the queue, oldest first. */
  function AllPushed(evs: seq<QueueEvent>): seq<Entry> {
    if evs == [] then []
    else
      var last := evs[|evs| - 1];
      AllPushed(evs[..|evs| - 1]) + if last.Push? then [last.e] else []
  }

  /** Everything that left the queue for the given cause, in order. */
  function AllDropped(max: nat, evs: seq<QueueEvent>, cause: Cause): seq<Entry> {
    if evs == [] then []
    else
      var front := evs[..|evs| - 1];
      AllDropped(max, front, cause) + DroppedBy(Replay(max, front), max, evs[|evs| - 1], cause)
  }

  lemma RemovalConserves(es: seq<Entry>, ids: set<Id>)
    ensures multiset(es) + multiset{} == multiset(Without(es, ids)) + multiset(Only(es, ids))
  {
    WithoutAndOnly(es, ids);
  }

  lemma PushConserves(es: seq<Entry>, max: nat, e: Entry)
    ensures multiset(es) + multiset{e} ==
      multiset(Pushed(es, max, e)) + multiset(DroppedBy(es, max, Push(e), ByEviction))
  {
    assert es != [] ==> es == [es[0]] + es[1..];
  }

  lemma EventConserves(es: seq<Entry>, max: nat, ev: QueueEvent)
    ensures multiset(es) + multiset(if ev.Push? then [ev.e] else [])
         == multiset(After(es, max, ev)) + multiset(DroppedBy(es, max, ev, ByAck))
            + multiset(DroppedBy(es, max, ev, ByEviction)) + multiset(DroppedBy(es, max, ev, ByExpiry))
  {
    match ev
    case Push(e) => PushConserves(es, max, e);
    case Acked(ids) => RemovalConserves(es, ids);
    case Aged(ids) => RemovalConserves(es, ids);
    case Quiet =>
  }

  lemma AddUp<T>(all: multiset<T>, x: multiset<T>, es: multiset<T>, es': multiset<T>, a: multiset<T>, a': multiset<T>,
                 b: multiset<T>, b': multiset<T>, c: multiset<T>, c': multiset<T>)
    requires all == es + a + b + c
    requires es + x == es' + a' + b' + c'
    ensures all + x == es' + (a + a') + (b + b') + (c + c')
  {
    forall e ensures (all + x)[e] == (es' + (a + a') + (b + b') + (c + c'))[e] {
      assert (es + x)[e] == (es' + a' + b' + c')[e];
    }
  }

  lemma {:induction false} ReplayConserves(max: nat, evs: seq<QueueEvent>)
    ensures multiset(AllPushed(evs))
         == multiset(Replay(max, evs)) + multiset(AllDropped(max, evs, ByAck))
            + multiset(AllDropped(max, evs, ByEviction)) + multiset(AllDropped(max, evs, ByExpiry))
  {
    if evs == [] {
    } else {
      var n := |evs| - 1;
      var front, es, ev := evs[..n], Replay(max, evs[..n]), evs[n];
      ReplayConserves(max, front);
      EventConserves(es, max, ev);
      AddUp(multiset(AllPushed(front)), multiset(if ev.Push? then [ev.e] else []), multiset(es), multiset(After(es,
        max, ev)),
            multiset(AllDropped(max, front, ByAck)), multiset(DroppedBy(es, max, ev, ByAck)),
            multiset(AllDropped(max, front, ByEviction)), multiset(DroppedBy(es, max, ev, ByEviction)),
            multiset(AllDropped(max, front, ByExpiry)), multiset(DroppedBy(es, max, ev, ByExpiry)));
    }
  }

  // ----- Order and bound

  /** Strictly increasing stamps, all below `n`. */
  ghost predicate Ordered(es: seq<Entry>, n: nat) {
    && (forall i, j :: 0 <= i < j < |es| ==> es[i].stamp < es[j].stamp)
    && (forall i :: 0 <= i < |es| ==> es[i].stamp < n)
  }

  lemma {:induction false} WithoutOrdered(es: seq<Entry>, ids: set<Id>, n: nat)
    requires Ordered(es, n)
    ensures Ordered(Without(es, ids), n) && |Without(es, ids)| <= |es|
  {
    if es == [] {
    } else {
      var front, last := es[..|es| - 1], es[|es| - 1];
      assert Ordered(front, last.stamp);
      WithoutOrdered(front, ids, last.stamp);
    }
  }

  /** Each entry of `gone` is older than each entry of `es`. */
  ghost predicate OlderThanAll(gone: seq<Entry>, es: seq<Entry>) {
    forall d, e :: d in gone && e in es ==> d.stamp < e.stamp
  }

  ghost predicate Below(es: seq<Entry>, n: nat) {
    forall e :: e in es ==> e.stamp < n
  }

  lemma PushEvictsOldest(gone: seq<Entry>, es: seq<Entry>, max: nat, e: Entry)
    requires Ordered(es, e.stamp) && Below(gone, e.stamp) && OlderThanAll(gone, es) && |es| <= Capacity(max)
    ensures Ordered(Pushed(es, max, e), e.stamp + 1) && |Pushed(es, max, e)| <= Capacity(max)
    ensures var gone' := gone + DroppedBy(es, max, Push(e), ByEviction);
      OlderThanAll(gone', Pushed(es, max, e)) && Below(gone', e.stamp + 1)
  {
  }

  lemma RemovalOrdered(gone: seq<Entry>, es: seq<Entry>, ids: set<Id>, n: nat)
    requires Ordered(es, n) && OlderThanAll(gone, es)
    ensures Ordered(Without(es, ids), n + 1) && |Without(es, ids)| <= |es|
    ensures OlderThanAll(gone, Without(es, ids))
  {
    WithoutOrdered(es, ids, n);
    WithoutKeeps(es, ids);
  }

  lemma EventOrdered(gone: seq<Entry>, es: seq<Entry>, max: nat, ev: QueueEvent, n: nat)
    requires Ordered(es, n) && Below(gone, n) && OlderThanAll(gone, es) && |es| <= Capacity(max)
    requires ev.Push? ==> ev.e.stamp == n
    ensures Ordered(After(es, max, ev), n + 1) && |After(es, max, ev)| <= Capacity(max)
    ensures var gone' := gone + DroppedBy(es, max, ev, ByEviction);
      OlderThanAll(gone', After(es, max, ev)) && Below(gone', n + 1)
  {
    assert gone + [] == gone;
    match ev
    case Push(e) => PushEvictsOldest(gone, es, max, e);
    case Acked(ids) => RemovalOrdered(gone, es, ids, n);
    case Aged(ids) => RemovalOrdered(gone, es, ids, n);
    case Quiet =>
  }

  lemma {:induction false} ReplayFifo(max: nat, evs: seq<QueueEvent>)
    requires InOrder(evs)
    ensures Ordered(AllPushed(evs), |evs|)
    ensures Ordered(Replay(max, evs), |evs|) && |Replay(max, evs)| <= Capacity(max)
    ensures OlderThanAll(AllDropped(max, evs, ByEviction), Replay(max, evs))
    ensures Below(AllDropped(max, evs, ByEviction), |evs|)
  {
    if evs == [] {
    } else {
      var n := |evs| - 1;
      ReplayFifo(max, evs[..n]);
      EventOrdered(AllDropped(max, evs[..n], ByEviction), Replay(max, evs[..n]), max, evs[n], n);
    }
  }

  lemma PushNewest(all: seq<Entry>, gone: seq<Entry>, es: seq<Entry>, max: nat, e: Entry)
    requires |es| == Min(|all|, Capacity(max)) && all == gone + es
    ensures |Pushed(es, max, e)| == Min(|all| + 1, Capacity(max))
    ensures all + [e] == gone + DroppedBy(es, max, Push(e), ByEviction) + Pushed(es, max, e)
  {
    if es != [] && |es| >= max {
      assert es == [es[0]] + es[1..];
      assert gone + [es[0]] + (es[1..] + [e]) == gone + ([es[0]] + es[1..]) + [e];
    } else {
      assert gone + [] + (es + [e]) == gone + es + [e];
    }
  }

  lemma EventNewest(all: seq<Entry>, gone: seq<Entry>, es: seq<Entry>, max: nat, ev: QueueEvent)
    requires |es| == Min(|all|, Capacity(max)) && all == gone + es
    requires DroppedBy(es, max, ev, ByAck) == [] && DroppedBy(es, max, ev, ByExpiry) == []
    ensures var all', gone' := all + if ev.Push? then [ev.e] else [], gone + DroppedBy(es, max, ev, ByEviction);
      |After(es, max, ev)| == Min(|all'|, Capacity(max)) && all' == gone' + After(es, max, ev)
  {
    if ev.Push? {
      PushNewest(all, gone, es, max, ev.e);
    } else {
      assert After(es, max, ev) == es by {
        match ev
        case Acked(ids) => WithoutAndOnly(es, ids);
        case Aged(ids) => WithoutAndOnly(es, ids);
        case _ =>
      }
      assert all + [] == all && gone + [] == gone;
    }
  }

  lemma {:induction false} ReplayNewest(max: nat, evs: seq<QueueEvent>)
    requires AllDropped(max, evs, ByAck) == [] && AllDropped(max, evs, ByExpiry) == []
    ensures |Replay(max, evs)| == Min(|AllPushed(evs)|, Capacity(max))
    ensures AllPushed(evs) == AllDropped(max, evs, ByEviction) + Replay(max, evs)
  {
    if evs == [] {
    } else {
      var n := |evs| - 1;
      ReplayNewest(max, evs[..n]);
      EventNewest(AllPushed(evs[..n]), AllDropped(max, evs[..n], ByEviction), Replay(max, evs[..n]), max, evs[n]);
    }
  }

  /** Every queue of every run is in publish order and within its capacity, whatever was evicted from it is older than
      all that remains, and the entries ever pushed to it, each at its own place, are exactly those still queued and
      those that left by acknowledgement, eviction or expiry. */
  lemma QueueDiscipline(max: nat, ops: seq<Op>, q: Queue)
    ensures var es, evs := QueueOf(Run(max, ops).tables, q), Events(max, ops, q);
      && Ordered(es, |ops|)
      && |es| <= Capacity(max)
      && OlderThanAll(AllDropped(max, evs, ByEviction), es)
      && Ordered(AllPushed(evs), |ops|)
      && multiset(AllPushed(evs)) == multiset(es) + multiset(AllDropped(max, evs, ByAck))
           + multiset(AllDropped(max, evs, ByEviction)) + multiset(AllDropped(max, evs, ByExpiry))
  {
    QueueIsReplay(max, ops, q);
    ReplayFifo(max, Events(max, ops, q));
    ReplayConserves(max, Events(max, ops, q));
  }

  /** While nothing leaves `q` by acknowledgement or expiry, as in a publish-only run, `q` holds exactly the newest
      entries pushed to it, as many as fit, and eviction took the others in order. */
  lemma KeepsNewest(max: nat, ops: seq<Op>, q: Queue)
    requires var evs := Events(max, ops, q); AllDropped(max, evs, ByAck) == [] && AllDropped(max, evs, ByExpiry) == []
    ensures var es, evs := QueueOf(Run(max, ops).tables, q), Events(max, ops, q);
      && |es| == Min(|AllPushed(evs)|, Capacity(max))
      && AllPushed(evs) == AllDropped(max, evs, ByEviction) + es
  {
    QueueIsReplay(max, ops, q);
    ReplayNewest(max, Events(max, ops, q));
  }

  // ----- Acceptances and releases

  /** The step ends the tracking of `m`: it is acknowledged, expires, or is evicted from some queue. */
  predicate Releases(s: State, op: Op, m: Id) {
    match op
    case Ack(i) => i == m && m in s.tables.status
    case ExpireOld(now, maxAge) => m in ExpiredIds(s.tables, now, maxAge)
    case _ => m in Victims(s.tables, s.maxQueueSize, Route(s, op))
  }

  predicate AcceptsId(s: State, op: Op, m: Id) {
    Accepts(s, op) && op.message.messageId == m
  }

  lemma StatusStep(s: State, op: Op, stamp: nat, m: Id)
    requires Sound(s)
    ensures m in Apply(s, op, stamp).tables.status
       <==> AcceptsId(s, op, m) || (m in s.tables.status && !Releases(s, op, m))
    ensures AcceptsId(s, op, m) ==> m !in s.tables.status
  {
    ApplyTables(s, op, stamp);
    if Accepts(s, op) {
      TargetsOk(s, op.x, op.k);
      PushAllEffect(s.tables, s.maxQueueSize, Route(s, op), NewEntry(op, stamp));
    }
  }

  predicate AcceptedAt(max: nat, ops: seq<Op>, m: Id, i: nat) {
    i < |ops| && AcceptsId(Run(max, ops[..i]), ops[i], m)
  }

  predicate ReleasedAt(max: nat, ops: seq<Op>, m: Id, k: nat) {
    k < |ops| && Releases(Run(max, ops[..k]), ops[k], m)
  }

  lemma SameInPrefix(max: nat, ops: seq<Op>, n: nat, m: Id, i: nat)
    requires i < n <= |ops|
    ensures AcceptedAt(max, ops[..n], m, i) == AcceptedAt(max, ops, m, i)
    ensures ReleasedAt(max, ops[..n], m, i) == ReleasedAt(max, ops, m, i)
  {
    assert ops[..n][..i] == ops[..i];
  }

  /** Step `i` accepted `m` and no later step released it. */
  ghost predicate HeldSince(max: nat, ops: seq<Op>, m: Id, i: nat) {
    AcceptedAt(max, ops, m, i) && forall k: nat :: i < k < |ops| ==> !ReleasedAt(max, ops, m, k)
  }

  /** The last step of a run decides how an earlier acceptance fares. */
  lemma HeldSnoc(max: nat, ops: seq<Op>, m: Id, i: nat)
    requires ops != []
    ensures var n := |ops| - 1;
      HeldSince(max, ops, m, i)
      <==> (i == n && AcceptedAt(max, ops, m, n)) || (HeldSince(max, ops[..n], m, i) && !ReleasedAt(max, ops, m, n))
  {
    var n := |ops| - 1;
    forall k: nat | k < n
      ensures AcceptedAt(max, ops[..n], m, k) == AcceptedAt(max, ops, m, k)
      ensures ReleasedAt(max, ops[..n], m, k) == ReleasedAt(max, ops, m, k)
    {
      SameInPrefix(max, ops, n, m, k);
    }
  }

  /** A message has a status exactly when some step accepted it and nothing has released it since. */
  lemma {:induction false} StatusIffHeld(max: nat, ops: seq<Op>, m: Id)
    ensures m in Run(max, ops).tables.status <==> exists i :: HeldSince(max, ops, m, i)
  {
    if ops == [] {
    } else {
      var n := |ops| - 1;
      var s, op := Run(max, ops[..n]), ops[n];
      StatusIffHeld(max, ops[..n], m);
      RunSound(max, ops[..n]);
      StatusStep(s, op, n, m);
      if m in s.tables.status && !Releases(s, op, m) {
        var i :| HeldSince(max, ops[..n], m, i);
        HeldSnoc(max, ops, m, i);
      }
      if AcceptsId(s, op, m) {
        HeldSnoc(max, ops, m, n);
      }
      if i :| HeldSince(max, ops, m, i) {
        HeldSnoc(max, ops, m, i);
      }
    }
  }

  /** Two acceptances of one id are always separated by an acknowledgement, expiry or eviction of it. */
  lemma ReacceptedOnlyAfterRelease(max: nat, ops: seq<Op>, m: Id, i: nat, j: nat)
    requires i < j && AcceptedAt(max, ops, m, i) && AcceptedAt(max, ops, m, j)
    ensures exists k: nat :: i < k < j && ReleasedAt(max, ops, m, k)
  {
    RunSound(max, ops[..j]);
    StatusStep(Run(max, ops[..j]), ops[j], j, m);
    StatusIffHeld(max, ops[..j], m);
    SameInPrefix(max, ops, j, m, i);
    assert !HeldSince(max, ops[..j], m, i);
    var k: nat :| i < k < j && ReleasedAt(max, ops[..j], m, k);
    SameInPrefix(max, ops, j, m, k);
  }

  // ----- All-or-nothing tracking

  /** The queues the latest acceptance of `m` routed it to. */
  function LatestRoute(max: nat, ops: seq<Op>, m: Id): set<Queue> {
    if ops == [] then {}
    else
      var n := |ops| - 1;
      var s := Run(max, ops[..n]);
      if AcceptsId(s, ops[n], m) then set q | q in Route(s, ops[n]) else LatestRoute(max, ops[..n], m)
  }

  lemma AcceptedIndexed(s: State, op: Op, stamp: nat, m: Id)
    requires Sound(s) && AcceptsId(s, op, m)
    ensures var t := Apply(s, op, stamp).tables; m in t.index && t.index[m] == set q | q in Route(s, op)
  {
    ApplyTables(s, op, stamp);
    TargetsOk(s, op.x, op.k);
    assert Routed(s.tables, Route(s, op)) == set q | q in Route(s, op);
  }

  lemma KeptIndexed(s: State, op: Op, stamp: nat, m: Id)
    requires Sound(s) && m in s.tables.status && !AcceptsId(s, op, m) && !Releases(s, op, m)
    ensures var t := Apply(s, op, stamp).tables; m in t.index && t.index[m] == s.tables.index[m]
  {
    ApplyTables(s, op, stamp);
    if Accepts(s, op) {
      TargetsOk(s, op.x, op.k);
      PushAllEffect(s.tables, s.maxQueueSize, Route(s, op), NewEntry(op, stamp));
      assert Evicting(s.tables, s.maxQueueSize, Route(s, op), m) == {};
    }
  }

  lemma {:induction false} IndexIsRoute(max: nat, ops: seq<Op>, m: Id)
    requires m in Run(max, ops).tables.status
    ensures var t := Run(max, ops).tables; m in t.index && t.index[m] == LatestRoute(max, ops, m)
  {
    if ops == [] {
    } else {
      var n := |ops| - 1;
      var s, op := Run(max, ops[..n]), ops[n];
      RunSound(max, ops[..n]);
      StatusStep(s, op, n, m);
      if AcceptsId(s, op, m) {
        AcceptedIndexed(s, op, n, m);
      } else {
        IndexIsRoute(max, ops[..n], m);
        KeptIndexed(s, op, n, m);
      }
    }
  }

  /** While a message has a status, the index lists all the queues it was last routed to, and each still holds it. */
  lemma AllOrNothing(max: nat, ops: seq<Op>, m: Id)
    requires m in Run(max, ops).tables.status
    ensures var t := Run(max, ops).tables;
      && m in t.index && t.index[m] == LatestRoute(max, ops, m)
      && (forall q :: q in LatestRoute(max, ops, m) ==> q in t.queues && m in Ids(t.queues[q]))
  {
    RunSound(max, ops);
    IndexIsRoute(max, ops, m);
  }

  // ----- What became of the latest acceptance

  /** The message of the latest acceptance of `m`. */
  function LatestMessage(max: nat, ops: seq<Op>, m: Id): Option<Message> {
    if ops == [] then None
    else
      var n := |ops| - 1;
      if AcceptsId(Run(max, ops[..n]), ops[n], m) then Some(ops[n].message) else LatestMessage(max, ops[..n], m)
  }

  datatype Fate = Unknown | Held | Acknowledged | Dropped

  /** What became of the message the latest acceptance of `m` brought in; only the first release after it counts. */
  function FateOf(max: nat, ops: seq<Op>, m: Id): Fate {
    if ops == [] then Unknown
    else
      var n := |ops| - 1;
      NextFate(FateOf(max, ops[..n], m), Run(max, ops[..n]), ops[n], m)
  }

  function NextFate(before: Fate, s: State, op: Op, m: Id): Fate {
    if AcceptsId(s, op, m) then Held
    else if before.Held? && Releases(s, op, m) then if op.Ack? then Acknowledged else Dropped
    else before
  }

  predicate Over(fate: Fate) {
    fate.Acknowledged? || fate.Dropped?
  }

  /** Step `i` is the latest acceptance of `m` and `k` the first release after it. */
  ghost predicate EndedAt(max: nat, ops: seq<Op>, m: Id, i: nat, k: nat) {
    && i < k && AcceptedAt(max, ops, m, i) && ReleasedAt(max, ops, m, k)
    && (forall j: nat :: i < j < |ops| ==> !AcceptedAt(max, ops, m, j))
    && (forall j: nat :: i < j < k ==> !ReleasedAt(max, ops, m, j))
  }

  /** A held acceptance is the latest one. */
  lemma HeldIsLatest(max: nat, ops: seq<Op>, m: Id, i: nat, j: nat)
    requires HeldSince(max, ops, m, i) && i < j < |ops|
    ensures !AcceptedAt(max, ops, m, j)
  {
    if AcceptedAt(max, ops, m, j) {
      ReacceptedOnlyAfterRelease(max, ops, m, i, j);
    }
  }

  lemma PrefixAgrees(max: nat, ops: seq<Op>, n: nat, m: Id)
    requires n <= |ops|
    ensures forall j: nat :: j < n ==> AcceptedAt(max, ops[..n], m, j) == AcceptedAt(max, ops, m, j)
    ensures forall j: nat :: j < n ==> ReleasedAt(max, ops[..n], m, j) == ReleasedAt(max, ops, m, j)
  {
    forall j: nat | j < n
      ensures AcceptedAt(max, ops[..n], m, j) == AcceptedAt(max, ops, m, j)
      ensures ReleasedAt(max, ops[..n], m, j) == ReleasedAt(max, ops, m, j)
    {
      SameInPrefix(max, ops, n, m, j);
    }
  }

  lemma EndedStays(max: nat, ops: seq<Op>, m: Id, i: nat, k: nat)
    requires ops != []
    requires EndedAt(max, ops[..|ops| - 1], m, i, k) && !AcceptedAt(max, ops, m, |ops| - 1)
    ensures EndedAt(max, ops, m, i, k)
  {
    PrefixAgrees(max, ops, |ops| - 1, m);
  }

  lemma EndsNow(max: nat, ops: seq<Op>, m: Id, i: nat)
    requires ops != []
    requires HeldSince(max, ops[..|ops| - 1], m, i) && ReleasedAt(max, ops, m, |ops| - 1)
    requires !AcceptedAt(max, ops, m, |ops| - 1)
    ensures EndedAt(max, ops, m, i, |ops| - 1)
  {
    var n := |ops| - 1;
    PrefixAgrees(max, ops, n, m);
    forall j: nat | i < j < n ensures !AcceptedAt(max, ops, m, j) {
      HeldIsLatest(max, ops[..n], m, i, j);
    }
  }

  lemma EndedBefore(max: nat, ops: seq<Op>, m: Id, i: nat, k: nat)
    requires ops != [] && EndedAt(max, ops, m, i, k)
    ensures !AcceptedAt(max, ops, m, |ops| - 1)
    ensures k < |ops| - 1 ==> EndedAt(max, ops[..|ops| - 1], m, i, k)
    ensures k == |ops| - 1 ==> HeldSince(max, ops[..|ops| - 1], m, i) && ReleasedAt(max, ops, m, k)
  {
    PrefixAgrees(max, ops, |ops| - 1, m);
  }

  lemma {:induction false} HeldIs(max: nat, ops: seq<Op>, m: Id)
    ensures FateOf(max, ops, m).Held? <==> m in Run(max, ops).tables.status
  {
    if ops == [] {
    } else {
      var n := |ops| - 1;
      HeldIs(max, ops[..n], m);
      RunSound(max, ops[..n]);
      StatusStep(Run(max, ops[..n]), ops[n], n, m);
    }
  }

  lemma {:induction false} FateBack(max: nat, ops: seq<Op>, m: Id, i: nat, k: nat)
    requires EndedAt(max, ops, m, i, k)
    ensures Over(FateOf(max, ops, m)) && (FateOf(max, ops, m).Acknowledged? <==> ops[k].Ack?)
  {
    var n := |ops| - 1;
    EndedBefore(max, ops, m, i, k);
    if k == n {
      HeldIs(max, ops[..n], m);
      StatusIffHeld(max, ops[..n], m);
    } else {
      FateBack(max, ops[..n], m, i, k);
    }
  }

  lemma {:induction false} FateEnded(max: nat, ops: seq<Op>, m: Id) returns (i: nat, k: nat)
    requires Over(FateOf(max, ops, m))
    ensures EndedAt(max, ops, m, i, k) && (FateOf(max, ops, m).Acknowledged? <==> ops[k].Ack?)
  {
    var n := |ops| - 1;
    if FateOf(max, ops[..n], m).Held? {
      HeldIs(max, ops[..n], m);
      StatusIffHeld(max, ops[..n], m);
      i :| HeldSince(max, ops[..n], m, i);
      k := n;
      EndsNow(max, ops, m, i);
    } else {
      i, k := FateEnded(max, ops[..n], m);
      EndedStays(max, ops, m, i, k);
    }
  }

  /** The fate is what it says: held is having a status, and acknowledged or dropped means that the first release
      after the latest acceptance was an acknowledgement, or was an eviction or expiry. */
  lemma FateIs(max: nat, ops: seq<Op>, m: Id)
    ensures FateOf(max, ops, m).Held? <==> m in Run(max, ops).tables.status
    ensures FateOf(max, ops, m).Acknowledged? <==> exists i: nat, k: nat :: EndedAt(max, ops, m, i, k) && ops[k].Ack?
    ensures FateOf(max, ops, m).Dropped? <==> exists i: nat, k: nat :: EndedAt(max, ops, m, i, k) && !ops[k].Ack?
  {
    HeldIs(max, ops, m);
    forall i: nat, k: nat | EndedAt(max, ops, m, i, k)
      ensures Over(FateOf(max, ops, m)) && (FateOf(max, ops, m).Acknowledged? <==> ops[k].Ack?)
    {
      FateBack(max, ops, m, i, k);
    }
    if Over(FateOf(max, ops, m)) {
      var i, k := FateEnded(max, ops, m);
    }
  }

  lemma {:induction false} KnownIfAccepted(max: nat, ops: seq<Op>, m: Id, i: nat)
    requires AcceptedAt(max, ops, m, i)
    ensures !FateOf(max, ops, m).Unknown?
  {
    var n := |ops| - 1;
    if i == n {
    } else {
      SameInPrefix(max, ops, n, m, i);
      KnownIfAccepted(max, ops[..n], m, i);
    }
  }

  /** Step `i` is the latest to accept `m`. */
  ghost predicate LatestAt(max: nat, ops: seq<Op>, m: Id, i: nat) {
    AcceptedAt(max, ops, m, i) && forall j: nat :: i < j < |ops| ==> !AcceptedAt(max, ops, m, j)
  }

  /** The latest acceptance is the last step, or the latest one before it. */
  lemma LatestSnoc(max: nat, ops: seq<Op>, m: Id, i: nat)
    requires ops != []
    ensures var n := |ops| - 1;
      LatestAt(max, ops, m, i) <==>
        if AcceptedAt(max, ops, m, n) then i == n else LatestAt(max, ops[..n], m, i)
  {
    PrefixAgrees(max, ops, |ops| - 1, m);
  }

  lemma {:induction false} KnownHasLatest(max: nat, ops: seq<Op>, m: Id)
    ensures !FateOf(max, ops, m).Unknown? <==> LatestMessage(max, ops, m).Some?
    ensures LatestMessage(max, ops, m).Some? ==> exists i: nat :: LatestAt(max, ops, m, i)
  {
    if ops == [] {
    } else {
      var n := |ops| - 1;
      KnownHasLatest(max, ops[..n], m);
      if AcceptedAt(max, ops, m, n) {
        LatestSnoc(max, ops, m, n);
      } else if LatestMessage(max, ops, m).Some? {
        var i: nat :| LatestAt(max, ops[..n], m, i);
        LatestSnoc(max, ops, m, i);
      }
    }
  }

  lemma {:induction false} LatestIs(max: nat, ops: seq<Op>, m: Id, i: nat)
    requires LatestAt(max, ops, m, i)
    ensures LatestMessage(max, ops, m) == Some(ops[i].message)
    ensures LatestRoute(max, ops, m) == set q | q in Targets(Run(max, ops[..i]), ops[i].x, ops[i].k)
  {
    var n := |ops| - 1;
    LatestSnoc(max, ops, m, i);
    if i == n {
    } else {
      LatestIs(max, ops[..n], m, i);
      assert ops[..n][..i] == ops[..i];
    }
  }

  lemma {:induction false} RoutedIffKnown(max: nat, ops: seq<Op>, m: Id)
    ensures !FateOf(max, ops, m).Unknown? <==> LatestRoute(max, ops, m) != {}
  {
    if ops == [] {
    } else {
      var n := |ops| - 1;
      RoutedIffKnown(max, ops[..n], m);
      if AcceptsId(Run(max, ops[..n]), ops[n], m) {
        assert Route(Run(max, ops[..n]), ops[n])[0] in LatestRoute(max, ops, m);
      }
    }
  }

  /** An id is known, and then has a latest message and route, exactly if some step accepted it; both are those of the
      latest acceptance. */
  lemma KnownIs(max: nat, ops: seq<Op>, m: Id)
    ensures !FateOf(max, ops, m).Unknown? <==> exists i: nat :: AcceptedAt(max, ops, m, i)
    ensures !FateOf(max, ops, m).Unknown? <==> LatestMessage(max, ops, m).Some?
    ensures LatestMessage(max, ops, m).Some? ==>
      exists i: nat :: LatestAt(max, ops, m, i) && ops[i].message == LatestMessage(max, ops, m).value
    ensures forall i: nat :: LatestAt(max, ops, m, i) ==>
      LatestRoute(max, ops, m) == set q | q in Targets(Run(max, ops[..i]), ops[i].x, ops[i].k)
    ensures !FateOf(max, ops, m).Unknown? <==> LatestRoute(max, ops, m) != {}
  {
    forall i: nat | AcceptedAt(max, ops, m, i) ensures !FateOf(max, ops, m).Unknown? {
      KnownIfAccepted(max, ops, m, i);
    }
    KnownHasLatest(max, ops, m);
    forall i: nat | LatestAt(max, ops, m, i)
      ensures LatestMessage(max, ops, m) == Some(ops[i].message)
      ensures LatestRoute(max, ops, m) == set q | q in Targets(Run(max, ops[..i]), ops[i].x, ops[i].k)
    {
      LatestIs(max, ops, m, i);
    }
    RoutedIffKnown(max, ops, m);
  }

  // ----- The three times of a status

  predicate DeliveredAt(ops: seq<Op>, m: Id, j: nat) {
    j < |ops| && ops[j].Delivered? && ops[j].m == m
  }

  /** Step `j` is the first delivery of `m` after step `i`. */
  ghost predicate FirstDelivered(ops: seq<Op>, m: Id, i: nat, j: nat) {
    i < j && DeliveredAt(ops, m, j) && forall h: nat :: i < h < j ==> !DeliveredAt(ops, m, h)
  }

  lemma KeptStatus(s: State, op: Op, stamp: nat, m: Id)
    requires Sound(s) && m in s.tables.status && !AcceptsId(s, op, m) && !Releases(s, op, m)
    ensures var r := Apply(s, op, stamp).tables.status;
      && m in r && r[m].sentTime == s.tables.status[m].sentTime
      && r[m].acknowledgedTime == s.tables.status[m].acknowledgedTime
      && r[m].deliveredTime == if op.Delivered? && op.m == m && s.tables.status[m].deliveredTime == None
                               then Some(op.now) else s.tables.status[m].deliveredTime
  {
    ApplyTables(s, op, stamp);
    if Accepts(s, op) {
      TargetsOk(s, op.x, op.k);
      PushAllEffect(s.tables, s.maxQueueSize, Route(s, op), NewEntry(op, stamp));
    }
  }

  lemma FreshStatus(s: State, op: Op, stamp: nat, m: Id)
    requires AcceptsId(s, op, m)
    ensures var r := Apply(s, op, stamp).tables.status; m in r && r[m] == Status(Some(op.now), None, None)
  {
    ApplyTables(s, op, stamp);
  }

  /** The status of a held message: sent when it was accepted, delivered when it was first delivered after that, and not
      acknowledged. */
  ghost predicate TimesSince(ops: seq<Op>, m: Id, i: nat, st: Status)
    requires i < |ops| && ops[i].Pub?
  {
    && st.sentTime == Some(ops[i].now) && st.acknowledgedTime == None
    && if st.deliveredTime.Some?
       then exists j: nat :: FirstDelivered(ops, m, i, j) && st.deliveredTime.value == ops[j].now
       else forall j: nat :: i < j ==> !DeliveredAt(ops, m, j)
  }

  lemma TimesOneMore(ops: seq<Op>, m: Id, i: nat, st: Status, st': Status)
    requires ops != [] && i < |ops| - 1 && ops[i].Pub? && TimesSince(ops[..|ops| - 1], m, i, st)
    requires st'.sentTime == st.sentTime && st'.acknowledgedTime == st.acknowledgedTime
    requires st'.deliveredTime == if DeliveredAt(ops, m, |ops| - 1) && st.deliveredTime == None
                                  then Some(ops[|ops| - 1].now) else st.deliveredTime
    ensures TimesSince(ops, m, i, st')
  {
    var n := |ops| - 1;
    assert forall j: nat :: DeliveredAt(ops[..n], m, j) <==> j < n && DeliveredAt(ops, m, j);
    if st.deliveredTime.Some? {
      var j: nat :| FirstDelivered(ops[..n], m, i, j) && st.deliveredTime.value == ops[..n][j].now;
      assert FirstDelivered(ops, m, i, j) && st'.deliveredTime.value == ops[j].now;
    } else if DeliveredAt(ops, m, n) {
      assert FirstDelivered(ops, m, i, n);
    }
  }

  lemma {:induction false} HeldStatus(max: nat, ops: seq<Op>, m: Id, i: nat)
    requires HeldSince(max, ops, m, i)
    ensures m in Run(max, ops).tables.status && TimesSince(ops, m, i, Run(max, ops).tables.status[m])
  {
    var n := |ops| - 1;
    var s, op := Run(max, ops[..n]), ops[n];
    if i == n {
      FreshStatus(s, op, n, m);
    } else {
      HeldIsLatest(max, ops, m, i, n);
      HeldSnoc(max, ops, m, i);
      HeldStatus(max, ops[..n], m, i);
      RunSound(max, ops[..n]);
      KeptStatus(s, op, n, m);
      TimesOneMore(ops, m, i, s.tables.status[m], Run(max, ops).tables.status[m]);
    }
  }

  /** A sweep takes a held message out of tracking if and only if it was delivered since its acceptance, the first time
      more than `maxAge` before the sweep's clock reading. */
  lemma ExpiresIff(max: nat, ops: seq<Op>, m: Id, i: nat, now: Time, maxAge: nat)
    requires HeldSince(max, ops, m, i)
    ensures m !in Run(max, ops + [ExpireOld(now, maxAge)]).tables.status <==>
      exists j: nat :: FirstDelivered(ops, m, i, j) && ops[j].now + maxAge < now
  {
    var op := ExpireOld(now, maxAge);
    assert (ops + [op])[..|ops|] == ops;
    HeldStatus(max, ops, m, i);
    SweepRemovesExpired(Run(max, ops).tables, now, maxAge);
    assert forall j: nat, h: nat :: FirstDelivered(ops, m, i, j) && FirstDelivered(ops, m, i, h) ==> j == h;
  }
}
