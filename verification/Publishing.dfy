/** Publish in terms of the bindings and tables alone: when it is refused, and all that an accepted one changes. */
module Publishing {
  import opened Prelude
  import opened Broker
  import opened BrokerIndex
  import opened BrokerRuns
  import opened Notification

  /** The exchange routes the key to the queue. */
  predicate Bound(s: State, x: Exchange, k: Key, q: Queue) {
    x in s.bindings && (q, k) in s.bindings[x]
  }

  ghost predicate Routable(s: State, x: Exchange, k: Key) {
    exists q :: Bound(s, x, k, q)
  }

  lemma TargetsAre(s: State, x: Exchange, k: Key)
    ensures forall q :: q in Targets(s, x, k) <==> Bound(s, x, k, q)
    ensures Targets(s, x, k) != [] <==> Routable(s, x, k)
  {
    if x in s.bindings {
      MatchingQueues(s.bindings[x], k);
    }
    if Targets(s, x, k) != [] {
      assert Bound(s, x, k, Targets(s, x, k)[0]);
    }
  }

  /** A publish is a duplicate if its id has a status; otherwise it fails if its row could not be saved; otherwise it is
      accepted if and only if some queue is bound to the exchange with its key. */
  lemma PublishAnswers(s: State, x: Exchange, k: Key, m: Message, saved: bool)
    ensures var r, known := PublishOutcome(s, x, k, m, saved), m.messageId in s.tables.status;
      && (r == Duplicate <==> known)
      && (r == StorageFailed <==> !known && !saved)
      && (r == NoQueues <==> !known && saved && !Routable(s, x, k))
      && (r == Accepted <==> !known && saved && Routable(s, x, k))
  {
    TargetsAre(s, x, k);
  }

  /** A known id, a failed save or a key without a queue: the broker is left as it was. */
  lemma RefusedChangesNothing(s: State, x: Exchange, k: Key, m: Message, saved: bool, stamp: nat, now: Time)
    requires m.messageId in s.tables.status || !saved || !Routable(s, x, k)
    ensures Publish(s, x, k, m, saved, stamp, now) == s
  {
    PublishAnswers(s, x, k, m, saved);
  }

  /** The publish drops the oldest entry of `q`, a copy of `v`. */
  predicate Evicts(s: State, x: Exchange, k: Key, q: Queue, v: Id) {
    && Bound(s, x, k, q) && q in s.tables.queues && s.tables.queues[q] != []
    && |s.tables.queues[q]| >= s.maxQueueSize && s.tables.queues[q][0].id == v
  }

  /** A queue gains the entry if it is bound, and then loses its oldest one if it was full. */
  ghost predicate QueueGains(s: State, x: Exchange, k: Key, e: Entry, q: Queue, es: seq<Entry>)
    requires q in s.tables.queues
  {
    var was := s.tables.queues[q];
    if !Bound(s, x, k, q) then es == was
    else if |was| >= s.maxQueueSize && was != [] then es == was[1..] + [e]
    else es == was + [e]
  }

  ghost predicate PublishedTo(s: State, x: Exchange, k: Key, e: Entry, now: Time, r: Tables) {
    var t := s.tables;
    && r.queues.Keys == t.queues.Keys && (forall q :: Bound(s, x, k, q) ==> q in t.queues)
    && (forall q :: q in t.queues ==> QueueGains(s, x, k, e, q, r.queues[q]))
    && r.index.Keys == t.index.Keys + {e.id}
    && (forall q :: q in r.index[e.id] <==> Bound(s, x, k, q))
    && (forall v, q :: v in t.index && v != e.id ==> (q in r.index[v] <==> q in t.index[v] && !Evicts(s, x, k, q, v)))
    && e.id in r.status && r.status[e.id] == Status(Some(now), None, None)
    && (forall v :: v != e.id ==> (v in r.status <==> v in t.status && forall q :: !Evicts(s, x, k, q, v)))
    && (forall v :: v in r.status && v != e.id ==> r.status[v] == t.status[v])
  }

  /** All that an accepted publish does to queues, index and status. */
  lemma AcceptedPublish(s: State, x: Exchange, k: Key, m: Message, stamp: nat, now: Time)
    requires BindingsOk(s) && m.messageId !in s.tables.status && Routable(s, x, k)
    ensures PublishedTo(s, x, k, Entry(m.messageId, m, stamp), now, Publish(s, x, k, m, true, stamp, now).tables)
  {
    var targets, e, max := Targets(s, x, k), Entry(m.messageId, m, stamp), s.maxQueueSize;
    PublishAnswers(s, x, k, m, true);
    TargetsAre(s, x, k);
    TargetsOk(s, x, k);
    PushAllEffect(s.tables, max, targets, e);
    NotifyKeeps(s.(tables := Enqueue(s.tables, max, targets, e, now)), targets, e);
    PushedTo(s, x, k, e, now, PushAll(s.tables, max, targets, e));
  }

  lemma PushedTo(s: State, x: Exchange, k: Key, e: Entry, now: Time, r: Tables)
    requires Distinct(Targets(s, x, k)) && forall q :: q in Targets(s, x, k) ==> q in s.tables.queues
    requires forall q :: q in Targets(s, x, k) <==> Bound(s, x, k, q)
    requires PushEffect(s.tables, s.maxQueueSize, Targets(s, x, k), e, r)
    ensures var index := r.index[e.id := Routed(s.tables, Targets(s, x, k))];
      PublishedTo(s, x, k, e, now, Tables(r.queues, index, r.status[e.id := Sent(now)]))
  {
    var t, max, targets := s.tables, s.maxQueueSize, Targets(s, x, k);
    forall v, q ensures q in Evicting(t, max, targets, v) <==> Evicts(s, x, k, q, v) {
    }
    forall v ensures v in Victims(t, max, targets) <==> exists q :: Evicts(s, x, k, q, v) {
      if q :| Evicts(s, x, k, q, v) {
        assert q in targets && Full(t, max, q);
      }
      if v in Victims(t, max, targets) {
        var q :| q in targets && Full(t, max, q) && t.queues[q][0].id == v;
        assert Evicts(s, x, k, q, v);
      }
    }
  }

  /** ... and to consumers and channels: every open channel gets one copy per listing under a bound queue, and those
      queues' lists keep exactly their open consumers. */
  lemma AcceptedTells(s: State, x: Exchange, k: Key, m: Message, stamp: nat, now: Time)
    requires BindingsOk(s) && m.messageId !in s.tables.status && Routable(s, x, k)
    ensures var r, e := Publish(s, x, k, m, true, stamp, now), Entry(m.messageId, m, stamp);
      && r.bindings == s.bindings && r.exchanges == s.exchanges && r.maxQueueSize == s.maxQueueSize
      && Got(s.channels, r.channels, e, c => Listings(s.consumers, Targets(s, x, k), c))
      && r.consumers.Keys == s.consumers.Keys
      && (forall q, c :: q in s.consumers ==>
            Times(r.consumers[q], c)
            == if Bound(s, x, k, q) && !IsOpen(s.channels, c) then 0 else Times(s.consumers[q], c))
  {
    var targets, e := Targets(s, x, k), Entry(m.messageId, m, stamp);
    PublishAnswers(s, x, k, m, true);
    TargetsAre(s, x, k);
    TargetsOk(s, x, k);
    var s1 := s.(tables := Enqueue(s.tables, s.maxQueueSize, targets, e, now));
    NotifyKeeps(s1, targets, e);
    NotifiedOncePerListing(s1, targets, e);
  }
}
