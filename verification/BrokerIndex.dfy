/** The reverse index against the plain scan of all queues: what one publish or removal does to their agreement. */
module BrokerIndex {
  import opened Prelude
  import opened Broker

  // ----- Removal by id

  lemma {:induction false} WithoutKeeps(es: seq<Entry>, ids: set<Id>)
    ensures forall e :: e in Without(es, ids) <==> e in es && e.id !in ids
  {
    if es == [] {
    } else {
      WithoutKeeps(es[..|es| - 1], ids);
      assert es == es[..|es| - 1] + [es[|es| - 1]];
    }
  }

  lemma {:induction false} WithoutAbsent(es: seq<Entry>, ids: set<Id>)
    requires forall e :: e in es ==> e.id !in ids
    ensures Without(es, ids) == es
  {
    if es == [] {
    } else {
      assert es == es[..|es| - 1] + [es[|es| - 1]];
      WithoutAbsent(es[..|es| - 1], ids);
    }
  }

  lemma {:induction false} WithoutTwice(es: seq<Entry>, a: set<Id>, b: set<Id>)
    ensures Without(Without(es, a), b) == Without(es, a + b)
  {
    if es == [] {
    } else {
      WithoutTwice(es[..|es| - 1], a, b);
      var rest, last := Without(es[..|es| - 1], a), es[|es| - 1];
      assert (rest + [last])[..|rest|] == rest;
    }
  }

  /** Removing two groups of ids one after the other is removing their union. */
  lemma RemoveTwice(t: Tables, a: set<Id>, b: set<Id>)
    ensures RemoveIds(RemoveIds(t, a), b) == RemoveIds(t, a + b)
  {
    var t1 := RemoveIds(t, a);
    forall q | q in t.queues
      ensures Without(t1.queues[q], Listed(t1.index, b, q)) == Without(t.queues[q], Listed(t.index, a + b, q))
    {
      WithoutTwice(t.queues[q], Listed(t.index, a, q), Listed(t1.index, b, q));
      assert Listed(t.index, a, q) + Listed(t1.index, b, q) == Listed(t.index, a + b, q);
    }
    assert RemoveIds(t1, b).queues == RemoveIds(t, a + b).queues;
    assert t.index - a - b == t.index - (a + b);
    assert t.status - a - b == t.status - (a + b);
  }

  // ----- Pushing

  predicate Full(t: Tables, max: nat, q: Queue) {
    q in t.queues && t.queues[q] != [] && |t.queues[q]| >= max
  }

  /** The queues of a publish that evict a copy of `v`. */
  function Evicting(t: Tables, max: nat, targets: seq<Queue>, v: Id): set<Queue> {
    set q | q in targets && Full(t, max, q) && t.queues[q][0].id == v
  }

  /** The ids a publish evicts. */
  function Victims(t: Tables, max: nat, targets: seq<Queue>): set<Id> {
    set q | q in targets && Full(t, max, q) :: t.queues[q][0].id
  }

  function Pushed(es: seq<Entry>, max: nat, e: Entry): seq<Entry> {
    (if es != [] && |es| >= max then es[1..] else es) + [e]
  }

  ghost predicate PushEffect(t: Tables, max: nat, targets: seq<Queue>, e: Entry, r: Tables) {
    && r.queues.Keys == t.queues.Keys
    && (forall q :: q in t.queues ==>
          r.queues[q] == if q in targets then Pushed(t.queues[q], max, e) else t.queues[q])
    && r.index.Keys == t.index.Keys
    && (forall v :: v in t.index ==> r.index[v] == t.index[v] - Evicting(t, max, targets, v))
    && r.status == t.status - Victims(t, max, targets)
  }

  /** The whole push loop, stated queue by queue and id by id: with no repeated target no push sees another. */
  lemma {:induction false} PushAllEffect(t: Tables, max: nat, targets: seq<Queue>, e: Entry)
    requires Distinct(targets)
    ensures PushEffect(t, max, targets, e, PushAll(t, max, targets, e))
  {
    if targets == [] {
    } else {
      var n := |targets| - 1;
      var before, q := targets[..n], targets[n];
      assert targets == before + [q];
      assert q !in before;
      PushAllEffect(t, max, before, e);
      PushOneEffect(t, max, before, q, e, PushAll(t, max, before, e));
    }
  }

  lemma PushOneEffect(t: Tables, max: nat, before: seq<Queue>, q: Queue, e: Entry, t1: Tables)
    requires q !in before && PushEffect(t, max, before, e, t1)
    ensures PushEffect(t, max, before + [q], e, PushOne(t1, max, q, e))
  {
    if Full(t, max, q) {
      PushOneEvicts(t, max, before, q, e, t1);
    } else {
      VictimsOneMore(t, max, before, q);
      forall v | v in t.index ensures Evicting(t, max, before + [q], v) == Evicting(t, max, before, v) {
        EvictingOneMore(t, max, before, q, v);
      }
      if q in t.queues {
        assert t1.queues[q] == t.queues[q];
        assert |t1.queues[q]| >= max ==> EvictFront(t1, q) == t1;
      }
    }
  }

  lemma VictimsOneMore(t: Tables, max: nat, before: seq<Queue>, q: Queue)
    ensures Full(t, max, q) ==> Victims(t, max, before + [q]) == Victims(t, max, before) + {t.queues[q][0].id}
    ensures !Full(t, max, q) ==> Victims(t, max, before + [q]) == Victims(t, max, before)
  {
    if Full(t, max, q) {
      assert q in before + [q];
    }
  }

  lemma EvictingOneMore(t: Tables, max: nat, before: seq<Queue>, q: Queue, v: Id)
    ensures Evicting(t, max, before + [q], v)
         == Evicting(t, max, before, v) + if Full(t, max, q) && t.queues[q][0].id == v then {q} else {}
  {
  }

  lemma PushOneEvicts(t: Tables, max: nat, before: seq<Queue>, q: Queue, e: Entry, t1: Tables)
    requires q !in before && PushEffect(t, max, before, e, t1) && Full(t, max, q)
    ensures PushEffect(t, max, before + [q], e, PushOne(t1, max, q, e))
  {
    assert t1.queues[q] == t.queues[q];
    EvictsAndAppends(t1, max, q, e);
    EffectOneMore(t, max, before, q, e, t1, PushOne(t1, max, q, e));
  }

  lemma EffectOneMore(t: Tables, max: nat, before: seq<Queue>, q: Queue, e: Entry, t1: Tables, r: Tables)
    requires q !in before && PushEffect(t, max, before, e, t1) && Full(t, max, q)
    requires r.queues == t1.queues[q := t.queues[q][1..] + [e]] && r.status == t1.status - {t.queues[q][0].id}
    requires r.index.Keys == t1.index.Keys
    requires forall v :: v in t1.index ==> r.index[v] == t1.index[v] - if v == t.queues[q][0].id then {q} else {}
    ensures PushEffect(t, max, before + [q], e, r)
  {
    VictimsOneMore(t, max, before, q);
    IndexOneMore(t, max, before, q, t1.index, r.index);
    LessOneMore(t.status, Victims(t, max, before), t.queues[q][0].id);
    QueuesOneMore(t, max, before, q, e, t1.queues, r.queues);
  }

  lemma LessOneMore<V>(m: map<Id, V>, gone: set<Id>, v: Id)
    ensures m - gone - {v} == m - (gone + {v})
  {
  }

  lemma QueuesOneMore(t: Tables, max: nat, before: seq<Queue>, q: Queue, e: Entry,
                      queues: map<Queue, seq<Entry>>, queues': map<Queue, seq<Entry>>)
    requires Full(t, max, q) && queues.Keys == t.queues.Keys && queues' == queues[q := t.queues[q][1..] + [e]]
    requires forall p :: p in t.queues ==>
      queues[p] == if p in before then Pushed(t.queues[p], max, e) else t.queues[p]
    ensures forall p :: p in t.queues ==>
      queues'[p] == if p in before + [q] then Pushed(t.queues[p], max, e) else t.queues[p]
  {
    assert q in before + [q];
  }

  lemma IndexOneMore(t: Tables, max: nat, before: seq<Queue>, q: Queue, index: map<Id, set<Queue>>, index': map<Id,
                     set<Queue>>)
    requires Full(t, max, q) && index.Keys == t.index.Keys == index'.Keys
    requires forall v :: v in t.index ==> index[v] == t.index[v] - Evicting(t, max, before, v)
    requires forall v :: v in t.index ==> index'[v] == index[v] - if v == t.queues[q][0].id then {q} else {}
    ensures forall v :: v in t.index ==> index'[v] == t.index[v] - Evicting(t, max, before + [q], v)
  {
    forall v | v in t.index ensures index'[v] == t.index[v] - Evicting(t, max, before + [q], v) {
      EvictingOneMore(t, max, before, q, v);
    }
  }

  lemma EvictsAndAppends(t: Tables, max: nat, q: Queue, e: Entry)
    requires Full(t, max, q)
    ensures var r, victim := PushOne(t, max, q, e), t.queues[q][0].id;
      && r.queues == t.queues[q := t.queues[q][1..] + [e]]
      && r.index.Keys == t.index.Keys
      && (forall v :: v in t.index ==> r.index[v] == t.index[v] - if v == victim then {q} else {})
      && r.status == t.status - {victim}
  {
  }

  // ----- Agreement of the index with the queues

  function Ids(es: seq<Entry>): set<Id> {
    set e | e in es :: e.id
  }

  ghost predicate DistinctIds(es: seq<Entry>) {
    forall i, j :: 0 <= i < j < |es| ==> es[i].id != es[j].id
  }

  /** The index places the tracked message `m` in `q`. */
  predicate Places(t: Tables, m: Id, q: Queue) {
    m in t.status && m in t.index && q in t.index[m]
  }

  /** Holds in every run: a status comes with an index set, and an indexed queue holds the message. */
  ghost predicate Tracked(t: Tables) {
    && t.status.Keys <= t.index.Keys
    && (forall m, q :: m in t.index && q in t.index[m] ==> q in t.queues && m in Ids(t.queues[q]))
  }

  /** Exact agreement: a queue holds a message exactly when the index places it there, and holds it once. */
  ghost predicate Exact(t: Tables) {
    && (forall q :: q in t.queues ==> DistinctIds(t.queues[q]))
    && (forall q, m :: q in t.queues ==> (m in Ids(t.queues[q]) <==> Places(t, m, q)))
    && (forall m, q :: Places(t, m, q) ==> q in t.queues)
    && t.status.Keys <= t.index.Keys
  }

  lemma PushedIds(es: seq<Entry>, max: nat, e: Entry)
    ensures es == [] || |es| < max ==> Ids(Pushed(es, max, e)) == Ids(es) + {e.id}
    ensures es != [] && |es| >= max ==>
      Ids(es[1..]) <= Ids(es) <= Ids(es[1..]) + {es[0].id} && Ids(Pushed(es, max, e)) == Ids(es[1..]) + {e.id}
    ensures es != [] && DistinctIds(es) ==> Ids(es[1..]) == Ids(es) - {es[0].id}
  {
    if es != [] {
      assert es == [es[0]] + es[1..];
    }
  }

  /** In every state, evictions included, a publish leaves its message in all the queues it was routed to. */
  lemma EnqueueTracks(t: Tables, max: nat, targets: seq<Queue>, e: Entry, now: Time)
    requires Tracked(t) && Distinct(targets)
    ensures Tracked(Enqueue(t, max, targets, e, now))
  {
    PushAllEffect(t, max, targets, e);
    var r := Enqueue(t, max, targets, e, now);
    forall m, q | m in r.index && q in r.index[m]
      ensures q in r.queues && m in Ids(r.queues[q])
    {
      PushedIds(t.queues[q], max, e);
      if m != e.id {
        assert q in t.index[m] && q !in Evicting(t, max, targets, m);
      }
    }
  }

  lemma RemoveTracks(t: Tables, ids: set<Id>)
    requires Tracked(t)
    ensures Tracked(RemoveIds(t, ids))
  {
    var r := RemoveIds(t, ids);
    forall m, q | m in r.index && q in r.index[m]
      ensures q in r.queues && m in Ids(r.queues[q])
    {
      WithoutKeeps(t.queues[q], Listed(t.index, ids, q));
      var e :| e in t.queues[q] && e.id == m;
      assert e in r.queues[q];
    }
  }

  /** Every victim leaves all the queues that hold it. A caller can check this before publishing; it holds when
      nothing is evicted and when every message sits in one queue. */
  ghost predicate EvictsWhole(t: Tables, max: nat, targets: seq<Queue>) {
    forall v :: v in Victims(t, max, targets) && v in t.index ==> t.index[v] <= Evicting(t, max, targets, v)
  }

  /** The ids of each queue after an accepted publish from an exact state. */
  ghost predicate EnqueuedIds(t: Tables, max: nat, targets: seq<Queue>, e: Entry, r: Tables) {
    && r.queues.Keys == t.queues.Keys
    && (forall q :: q in t.queues ==> DistinctIds(r.queues[q]))
    && (forall q, m :: q in t.queues ==> (m in Ids(r.queues[q]) <==>
          (m == e.id && q in targets) || (m in Ids(t.queues[q]) && q !in Evicting(t, max, targets, m))))
  }

  /** An accepted publish keeps the index exact if and only if no victim survives in another queue. */
  lemma EnqueueExactIff(t: Tables, max: nat, targets: seq<Queue>, e: Entry, now: Time)
    requires Exact(t) && Distinct(targets) && e.id !in t.status
    requires forall q :: q in targets ==> q in t.queues
    ensures Exact(Enqueue(t, max, targets, e, now)) <==> EvictsWhole(t, max, targets)
  {
    PushAllEffect(t, max, targets, e);
    var r1 := PushAll(t, max, targets, e);
    assert EnqueuedIds(t, max, targets, e, r1) by {
      forall q | q in t.queues
        ensures DistinctIds(r1.queues[q])
        ensures forall m :: m in Ids(r1.queues[q]) <==>
                  (m == e.id && q in targets) || (m in Ids(t.queues[q]) && q !in Evicting(t, max, targets, m))
      {
        EnqueueOneQueue(t, max, targets, e, q, r1.queues[q]);
      }
    }
    if EvictsWhole(t, max, targets) {
      EnqueueExact(t, max, targets, e, now, r1);
    } else {
      EnqueueInexact(t, max, targets, e, now, r1);
    }
  }

  lemma EnqueueOneQueue(t: Tables, max: nat, targets: seq<Queue>, e: Entry, q: Queue, es: seq<Entry>)
    requires Exact(t) && e.id !in t.status && q in t.queues
    requires es == if q in targets then Pushed(t.queues[q], max, e) else t.queues[q]
    ensures DistinctIds(es)
    ensures forall m :: m in Ids(es) <==>
              (m == e.id && q in targets) || (m in Ids(t.queues[q]) && q !in Evicting(t, max, targets, m))
  {
    assert e.id !in Ids(t.queues[q]);
    PushedIds(t.queues[q], max, e);
    forall i | 0 <= i < |t.queues[q]| ensures t.queues[q][i].id != e.id {
      assert t.queues[q][i].id in Ids(t.queues[q]);
    }
  }

  lemma EnqueueExact(t: Tables, max: nat, targets: seq<Queue>, e: Entry, now: Time, r1: Tables)
    requires Exact(t) && e.id !in t.status && EvictsWhole(t, max, targets)
    requires forall q :: q in targets ==> q in t.queues
    requires PushEffect(t, max, targets, e, r1) && EnqueuedIds(t, max, targets, e, r1)
    ensures Exact(Tables(r1.queues, r1.index[e.id := Routed(t, targets)], r1.status[e.id := Sent(now)]))
  {
    var r := Tables(r1.queues, r1.index[e.id := Routed(t, targets)], r1.status[e.id := Sent(now)]);
    forall q, m
      ensures Places(r, m, q) <==>
        || (m == e.id && q in targets)
        || (m != e.id && Places(t, m, q) && m !in Victims(t, max, targets))
      ensures q in r.queues ==> (m in Ids(r.queues[q]) <==> Places(r, m, q))
    {
      EnqueuePlaces(t, max, targets, e, r1, r, m, q);
      assert q in t.queues ==> (m in Ids(t.queues[q]) <==> Places(t, m, q));
    }
  }

  /** Where the index places a message after an accepted publish. */
  lemma EnqueuePlaces(t: Tables, max: nat, targets: seq<Queue>, e: Entry, r1: Tables, r: Tables, m: Id, q: Queue)
    requires forall p :: p in targets ==> p in t.queues
    requires PushEffect(t, max, targets, e, r1) && e.id in r.status && r.status.Keys == r1.status.Keys + {e.id}
    requires r.index == r1.index[e.id := Routed(t, targets)]
    ensures Places(r, m, q) <==>
      || (m == e.id && q in targets)
      || (m != e.id && Places(t, m, q) && m !in Victims(t, max, targets))
  {
    if m != e.id && m !in Victims(t, max, targets) && m in t.index {
      assert Evicting(t, max, targets, m) == {};
    }
  }

  lemma EnqueueInexact(t: Tables, max: nat, targets: seq<Queue>, e: Entry, now: Time, r1: Tables)
    requires Exact(t) && e.id !in t.status && !EvictsWhole(t, max, targets)
    requires PushEffect(t, max, targets, e, r1) && EnqueuedIds(t, max, targets, e, r1)
    ensures !Exact(Tables(r1.queues, r1.index[e.id := Routed(t, targets)], r1.status[e.id := Sent(now)]))
  {
    var r := Tables(r1.queues, r1.index[e.id := Routed(t, targets)], r1.status[e.id := Sent(now)]);
    var v :| v in Victims(t, max, targets) && v in t.index && !(t.index[v] <= Evicting(t, max, targets, v));
    var q :| q in t.index[v] && q !in Evicting(t, max, targets, v);
    var p :| p in targets && Full(t, max, p) && t.queues[p][0].id == v;
    assert v in Ids(t.queues[p]);
    assert Places(t, v, p) && Places(t, v, q);
    assert v in Ids(r.queues[q]) && !Places(r, v, q);
  }

  // ----- Removal through the index against removal by scanning

  /** The plain form of removal: filter every queue. */
  function Scan(queues: map<Queue, seq<Entry>>, ids: set<Id>): map<Queue, seq<Entry>> {
    map q | q in queues :: Without(queues[q], ids)
  }

  lemma WithoutEqualIff(es: seq<Entry>, a: set<Id>, b: set<Id>)
    requires a <= b
    ensures Without(es, a) == Without(es, b) <==> (forall m :: m in Ids(es) && m in b ==> m in a)
  {
    WithoutKeeps(es, a);
    WithoutKeeps(es, b);
    if forall m :: m in Ids(es) && m in b ==> m in a {
      assert forall e :: e in Without(es, a) ==> e.id !in b by {
        forall e | e in Without(es, a) ensures e.id !in b {
          assert e.id in Ids(es);
        }
      }
      WithoutTwice(es, a, b);
      assert a + b == b;
      WithoutAbsent(Without(es, a), b);
    } else {
      var m :| m in Ids(es) && m in b && m !in a;
      var e :| e in es && e.id == m;
      assert e in Without(es, a) && e !in Without(es, b);
    }
  }

  /** The index places in `q` every id of `ids` that `q` holds. */
  ghost predicate ListsAll(t: Tables, ids: set<Id>, q: Queue)
    requires q in t.queues
  {
    forall m :: m in Ids(t.queues[q]) && m in ids ==> m in t.index && q in t.index[m]
  }

  /** Removal through the index is removal by scanning if and only if the index lists every copy of the removed ids. */
  lemma RemoveIsScanIff(t: Tables, ids: set<Id>)
    ensures RemoveIds(t, ids).queues == Scan(t.queues, ids) <==> (forall q :: q in t.queues ==> ListsAll(t, ids, q))
  {
    var r, sc := RemoveIds(t, ids).queues, Scan(t.queues, ids);
    forall q | q in t.queues
      ensures r[q] == sc[q] <==> ListsAll(t, ids, q)
    {
      WithoutEqualIff(t.queues[q], Listed(t.index, ids, q), ids);
    }
    assert r.Keys == sc.Keys;
    if q :| q in t.queues && !ListsAll(t, ids, q) {
      assert r[q] != sc[q];
    } else {
      assert r == sc;
    }
  }

  /** An acknowledgement clears the message from all queues if and only if every copy is tracked. */
  lemma AckIsScanIff(t: Tables, m: Id)
    ensures Acknowledge(t, m).queues == Scan(t.queues, {m})
      <==> (forall q :: q in t.queues && m in Ids(t.queues[q]) ==> Places(t, m, q))
  {
    if m in t.status {
      RemoveIsScanIff(t, {m});
    } else {
      forall q | q in t.queues
        ensures Without(t.queues[q], {m}) == t.queues[q] <==> m !in Ids(t.queues[q])
      {
        WithoutAbsent(t.queues[q], {});
        WithoutEqualIff(t.queues[q], {}, {m});
      }
      assert t.queues == Scan(t.queues, {m}) <==> (forall q :: q in t.queues ==> m !in Ids(t.queues[q])) by {
        if forall q :: q in t.queues ==> m !in Ids(t.queues[q]) {
          assert forall q :: q in t.queues ==> Scan(t.queues, {m})[q] == t.queues[q];
          assert t.queues == Scan(t.queues, {m});
        } else {
          var q :| q in t.queues && m in Ids(t.queues[q]);
          assert Scan(t.queues, {m})[q] != t.queues[q];
        }
      }
    }
  }

  /** On an exact index an acknowledgement is the plain scan for its id. */
  lemma AckRefinesScan(t: Tables, m: Id)
    requires Exact(t)
    ensures Acknowledge(t, m).queues == Scan(t.queues, {m})
    ensures Exact(Acknowledge(t, m))
    ensures forall q :: q in t.queues ==> m !in Ids(Acknowledge(t, m).queues[q])
  {
    AckIsScanIff(t, m);
    RemoveExact(t, {m});
    forall q | q in t.queues ensures m !in Ids(Acknowledge(t, m).queues[q]) {
      WithoutKeeps(t.queues[q], {m});
    }
  }

  /** In every state acknowledgements commute, and a second one for the same message changes nothing. */
  lemma AcksCommute(t: Tables, m: Id, n: Id)
    ensures Acknowledge(Acknowledge(t, m), m) == Acknowledge(t, m)
    ensures Acknowledge(Acknowledge(t, m), n) == Acknowledge(Acknowledge(t, n), m)
  {
    RemoveTwice(t, {m}, {n});
    RemoveTwice(t, {n}, {m});
    assert {m} + {n} == {n} + {m};
  }

  lemma RemoveExact(t: Tables, ids: set<Id>)
    requires Exact(t)
    ensures Exact(RemoveIds(t, ids))
  {
    var r := RemoveIds(t, ids);
    forall m, q ensures Places(r, m, q) <==> Places(t, m, q) && m !in ids {
    }
    forall q | q in t.queues
      ensures DistinctIds(r.queues[q])
      ensures forall m :: m in Ids(r.queues[q]) <==> Places(r, m, q)
    {
      var gone := Listed(t.index, ids, q);
      WithoutDistinct(t.queues[q], gone);
      forall m ensures m in Ids(r.queues[q]) <==> m in Ids(t.queues[q]) && m !in gone {
        WithoutKeeps(t.queues[q], gone);
        if m in Ids(t.queues[q]) && m !in gone {
          var e :| e in t.queues[q] && e.id == m;
          assert e in r.queues[q];
        }
      }
    }
  }

  lemma {:induction false} WithoutDistinct(es: seq<Entry>, ids: set<Id>)
    requires DistinctIds(es)
    ensures DistinctIds(Without(es, ids))
  {
    if es == [] {
    } else {
      var front, last := es[..|es| - 1], es[|es| - 1];
      WithoutDistinct(front, ids);
      WithoutKeeps(front, ids);
      forall i | 0 <= i < |Without(front, ids)| ensures Without(front, ids)[i].id != last.id {
        assert Without(front, ids)[i] in front;
      }
    }
  }

  /** A sweep removes from status and index exactly the ids delivered more than `maxAge` ago and not acknowledged; on an
      exact index it is the plain scan for them, so they leave every queue and all other entries keep their places. */
  lemma SweepRemovesExpired(t: Tables, now: Time, maxAge: nat)
    ensures Sweep(t, now, maxAge).status == t.status - ExpiredIds(t, now, maxAge)
    ensures Sweep(t, now, maxAge).index == t.index - ExpiredIds(t, now, maxAge)
    ensures forall m :: m in ExpiredIds(t, now, maxAge) <==>
      && m in t.status && t.status[m].acknowledgedTime == None
      && t.status[m].deliveredTime.Some? && t.status[m].deliveredTime.value + maxAge < now
    ensures Exact(t) ==> Sweep(t, now, maxAge).queues == Scan(t.queues, ExpiredIds(t, now, maxAge))
                         && Exact(Sweep(t, now, maxAge))
  {
    if Exact(t) {
      RemoveIsScanIff(t, ExpiredIds(t, now, maxAge));
      RemoveExact(t, ExpiredIds(t, now, maxAge));
    }
  }

  // ----- Totals

  /** The sum of the lengths of all queues. */
  ghost function TotalQueued(queues: map<Queue, seq<Entry>>): nat {
    if queues == map[] then 0
    else var q :| q in queues; |queues[q]| + TotalQueued(queues - {q})
  }

  /** The sum of the sizes of the index sets of `tracked`. */
  ghost function TotalIndexed(index: map<Id, set<Queue>>, tracked: set<Id>): nat
    requires tracked <= index.Keys
  {
    if tracked == {} then 0
    else var m :| m in tracked; |index[m]| + TotalIndexed(index, tracked - {m})
  }

  ghost function QueuedPairs(queues: map<Queue, seq<Entry>>): set<(Queue, Id)> {
    set q, m | q in queues && m in Ids(queues[q]) :: (q, m)
  }

  ghost function IndexedPairs(index: map<Id, set<Queue>>, tracked: set<Id>): set<(Queue, Id)>
    requires tracked <= index.Keys
  {
    set m, q | m in tracked && q in index[m] :: (q, m)
  }

  lemma {:induction false} RowSize(q: Queue, ms: set<Id>)
    ensures |set m | m in ms :: (q, m)| == |ms|
  {
    if ms == {} {
    } else {
      var m :| m in ms;
      RowSize(q, ms - {m});
      assert (set x | x in ms :: (q, x)) == (set x | x in ms - {m} :: (q, x)) + {(q, m)};
    }
  }

  lemma {:induction false} ColumnSize(qs: set<Queue>, m: Id)
    ensures |set q | q in qs :: (q, m)| == |qs|
  {
    if qs == {} {
    } else {
      var q :| q in qs;
      ColumnSize(qs - {q}, m);
      assert (set x | x in qs :: (x, m)) == (set x | x in qs - {q} :: (x, m)) + {(q, m)};
    }
  }

  lemma {:induction false} IdsSize(es: seq<Entry>)
    requires DistinctIds(es)
    ensures |Ids(es)| == |es|
  {
    if es == [] {
    } else {
      IdsSize(es[1..]);
      PushedIds(es, 0, es[0]);
      assert Ids(es) == Ids(es[1..]) + {es[0].id};
      forall e | e in es[1..] ensures e.id != es[0].id {
      }
    }
  }

  lemma {:induction false} QueuedTotal(queues: map<Queue, seq<Entry>>)
    requires forall q :: q in queues ==> DistinctIds(queues[q])
    ensures TotalQueued(queues) == |QueuedPairs(queues)|
  {
    if queues == map[] {
      assert QueuedPairs(queues) == {};
    } else {
      var q :| q in queues && TotalQueued(queues) == |queues[q]| + TotalQueued(queues - {q});
      QueuedTotal(queues - {q});
      IdsSize(queues[q]);
      RowSize(q, Ids(queues[q]));
      assert QueuedPairs(queues) == QueuedPairs(queues - {q}) + (set m | m in Ids(queues[q]) :: (q, m));
    }
  }

  lemma {:induction false} IndexedTotal(index: map<Id, set<Queue>>, tracked: set<Id>)
    requires tracked <= index.Keys
    ensures TotalIndexed(index, tracked) == |IndexedPairs(index, tracked)|
  {
    if tracked == {} {
      assert IndexedPairs(index, tracked) == {};
    } else {
      var m :| m in tracked && TotalIndexed(index, tracked) == |index[m]| + TotalIndexed(index, tracked - {m});
      IndexedTotal(index, tracked - {m});
      ColumnSize(index[m], m);
      assert IndexedPairs(index, tracked)
          == IndexedPairs(index, tracked - {m}) + (set q | q in index[m] :: (q, m));
    }
  }

  /** On an exact index the queues hold as many entries as the tracked messages have indexed queues. */
  lemma TotalsAgree(t: Tables)
    requires Exact(t)
    ensures TotalQueued(t.queues) == TotalIndexed(t.index, t.status.Keys)
  {
    QueuedTotal(t.queues);
    IndexedTotal(t.index, t.status.Keys);
    forall q, m ensures (q, m) in QueuedPairs(t.queues) <==> (q, m) in IndexedPairs(t.index, t.status.Keys) {
      assert (q, m) in QueuedPairs(t.queues) <==> q in t.queues && m in Ids(t.queues[q]);
      assert (q, m) in IndexedPairs(t.index, t.status.Keys) <==> Places(t, m, q);
    }
    assert QueuedPairs(t.queues) == IndexedPairs(t.index, t.status.Keys);
  }
}
