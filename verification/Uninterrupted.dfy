/** The tasks of the interleaved broker, run without interruption, do what the atomic operations say: the step-level
    model and the operation-level model are one broker. */
module Uninterrupted {
  import opened Broker
  import opened BrokerIndex
  import opened Interleaving
  import BrokerRuns

  function TablesOf(s: System): Tables {
    Tables(s.queues, s.index, s.status)
  }

  // ----- One publish

  ghost predicate PublishOnly(evs: seq<Event>, p: TaskId) {
    forall i :: 0 <= i < |evs| ==> evs[i].PubEv? && evs[i].p == p
  }

  /** The tables after the targets pushed so far. */
  function SoFar(t: Tables, max: nat, p: TaskId, pub: Pub): Tables
    requires pub.pushed <= |pub.targets|
  {
    PushAll(t, max, pub.targets[..pub.pushed], EntryOf(p, pub))
  }

  ghost predicate TargetsDeclared(t: Tables, pub: Pub) {
    forall q :: q in pub.targets ==> q in t.queues
  }

  /** The table updates of the atomic publish, at some clock reading. */
  ghost predicate Published(t: Tables, max: nat, targets: seq<Queue>, e: Entry, now: Tables) {
    exists at :: now == Enqueue(t, max, targets, e, at)
  }

  /** What the tables hold while `q` is being pushed to; `u` is what they held before. */
  predicate AtTarget(u: Tables, max: nat, q: Queue, phase: PubPhase, now: Tables) {
    q in u.queues
    && match phase
       case Room => now == u
       case Unindexing(v) =>
         Full(u, max, q) && v == u.queues[q][0].id && now == Tables(u.queues[q := u.queues[q][1..]], u.index, u.status)
       case Unstatusing(v) =>
         && Full(u, max, q) && v == u.queues[q][0].id
         && now == Tables(EvictFront(u, q).queues, EvictFront(u, q).index, u.status)
       case Appending => now == if |u.queues[q]| >= max then EvictFront(u, q) else u
       case _ => false
  }

  predicate BeforeTargets(phase: PubPhase) {
    phase.Checking? || phase.Saving? || phase.Routing?
  }

  /** What the tables hold at each phase of a publish that started from `t` and has run alone. */
  ghost predicate Alone(t: Tables, s: System, p: TaskId) {
    if p !in s.pubs then TablesOf(s) == t
    else
      var pub, now := s.pubs[p], TablesOf(s);
      var m := pub.message.messageId;
      && pub.pushed <= |pub.targets| && TargetsDeclared(t, pub) && s.queues.Keys == t.queues.Keys
      && (m in t.status ==> pub.phase.Checking? || pub.phase.Refused?)
      && if BeforeTargets(pub.phase) then now == t && pub.pushed == 0
         else match pub.phase
           case Refused => now == t
           case Indexing => pub.pushed == |pub.targets| > 0 && now == SoFar(t, s.max, p, pub)
           case Accepting =>
             var u := SoFar(t, s.max, p, pub);
             pub.pushed == |pub.targets| > 0 && now == u.(index := u.index[m := Routed(t, pub.targets)])
           case Notifying => pub.targets != [] && Published(t, s.max, pub.targets, EntryOf(p, pub), now)
           case _ =>
             pub.pushed < |pub.targets|
             && AtTarget(SoFar(t, s.max, p, pub), s.max, pub.targets[pub.pushed], pub.phase, now)
  }

  lemma SoFarKeys(t: Tables, max: nat, p: TaskId, pub: Pub)
    requires pub.pushed <= |pub.targets|
    ensures SoFar(t, max, p, pub).queues.Keys == t.queues.Keys
  {
    BrokerRuns.PushKeepsKeys(t, max, pub.targets[..pub.pushed], EntryOf(p, pub));
  }

  lemma MakeRoomAlone(t: Tables, s: System, p: TaskId)
    requires Alone(t, s, p) && PubEnabled(s, p, MakeRoom)
    ensures Alone(t, PubNext(s, p, MakeRoom), p)
  {
    var q := s.pubs[p].targets[s.pubs[p].pushed];
    if Full(TablesOf(s), s.max, q) {
      RoomMade(t, s, p, q);
    } else {
      RoomEnough(t, s, p, q);
    }
  }

  lemma RoomMade(t: Tables, s: System, p: TaskId, q: Queue)
    requires Alone(t, s, p) && PubAt(s, p, Room) && NextQueueOk(s, s.pubs[p])
    requires q == s.pubs[p].targets[s.pubs[p].pushed]
    requires Full(TablesOf(s), s.max, q)
    ensures Alone(t, EvictOne(s, p, s.pubs[p], q), p)
  {
    var pub := s.pubs[p];
    RoomAtTarget(SoFar(t, s.max, p, pub), s.max, q, TablesOf(s));
    assert SoFar(t, s.max, p, pub.(phase := Unindexing(s.queues[q][0].id))) == SoFar(t, s.max, p, pub);
  }

  lemma RoomEnough(t: Tables, s: System, p: TaskId, q: Queue)
    requires Alone(t, s, p) && PubAt(s, p, Room) && NextQueueOk(s, s.pubs[p])
    requires q == s.pubs[p].targets[s.pubs[p].pushed]
    requires !Full(TablesOf(s), s.max, q)
    ensures Alone(t, SetPub(s, p, s.pubs[p].(phase := Appending)), p)
  {
    var pub := s.pubs[p];
    RoomAtTarget(SoFar(t, s.max, p, pub), s.max, q, TablesOf(s));
    assert SoFar(t, s.max, p, pub.(phase := Appending)) == SoFar(t, s.max, p, pub);
  }

  lemma RoomAtTarget(u: Tables, max: nat, q: Queue, now: Tables)
    requires AtTarget(u, max, q, Room, now)
    ensures now == u
    ensures Full(u, max, q) ==>
      AtTarget(u, max, q, Unindexing(u.queues[q][0].id), u.(queues := u.queues[q := u.queues[q][1..]]))
    ensures !Full(u, max, q) ==> AtTarget(u, max, q, Appending, u)
  {
  }

  lemma EvictAlone(t: Tables, s: System, p: TaskId, step: PubStep)
    requires Alone(t, s, p) && PubEnabled(s, p, step) && (step.Unindex? || step.Unstatus?)
    ensures Alone(t, PubNext(s, p, step), p)
  {
  }

  lemma AppendAlone(t: Tables, s: System, p: TaskId)
    requires Alone(t, s, p) && PubEnabled(s, p, Append)
    ensures Alone(t, PubNext(s, p, Append), p)
  {
    var pub, pub' := s.pubs[p], NextTarget(s.pubs[p]);
    assert pub'.targets[..pub'.pushed][..pub.pushed] == pub.targets[..pub.pushed];
    assert SoFar(t, s.max, p, pub') ==
      PushOne(SoFar(t, s.max, p, pub), s.max, pub.targets[pub.pushed], EntryOf(p, pub));
    SoFarKeys(t, s.max, p, pub');
  }

  lemma AcceptAlone(t: Tables, s: System, p: TaskId, step: PubStep)
    requires Alone(t, s, p) && PubEnabled(s, p, step) && (step.Index? || step.Accept?)
    ensures Alone(t, PubNext(s, p, step), p)
  {
    var pub := s.pubs[p];
    assert pub.targets[..|pub.targets|] == pub.targets;
    assert Routed(t, pub.targets) == set q | q in pub.targets;
    if step.Accept? {
      assert TablesOf(PubNext(s, p, step)) == Enqueue(t, s.max, pub.targets, EntryOf(p, pub), step.now);
    }
  }

  lemma StartAlone(t: Tables, s: System, p: TaskId, step: PubStep)
    requires Alone(t, s, p) && PubEnabled(s, p, step) && (step.Begin? || step.CheckDuplicate? || step.Saved?)
    ensures Alone(t, PubNext(s, p, step), p)
  {
  }

  lemma RouteAlone(t: Tables, s: System, p: TaskId, targets: seq<Queue>)
    requires Alone(t, s, p) && PubEnabled(s, p, Route(targets))
    ensures Alone(t, PubNext(s, p, Route(targets)), p)
  {
    var pub := PubNext(s, p, Route(targets)).pubs[p];
    assert pub.targets[..pub.pushed] == [];
  }

  lemma NotifyAlone(t: Tables, s: System, p: TaskId, q: Queue)
    requires Alone(t, s, p) && PubAt(s, p, Notifying)
    ensures Alone(t, NotifyOne(s, p, s.pubs[p], q), p)
  {
    var r := NotifyOne(s, p, s.pubs[p], q);
    assert TablesOf(r) == TablesOf(s) && EntryOf(p, r.pubs[p]) == EntryOf(p, s.pubs[p]);
  }

  lemma StepAlone(t: Tables, s: System, p: TaskId, step: PubStep)
    requires Alone(t, s, p) && PubEnabled(s, p, step)
    ensures Alone(t, PubNext(s, p, step), p)
  {
    match step {
      case MakeRoom => MakeRoomAlone(t, s, p);
      case Unindex => EvictAlone(t, s, p, step);
      case Unstatus => EvictAlone(t, s, p, step);
      case Append => AppendAlone(t, s, p);
      case Index => AcceptAlone(t, s, p, step);
      case Accept(_) => AcceptAlone(t, s, p, step);
      case Route(targets) => RouteAlone(t, s, p, targets);
      case Notify =>
        NotifyNext(s, p);
        NotifyAlone(t, s, p, s.pubs[p].targets[s.pubs[p].notified]);
      case Begin(_) => StartAlone(t, s, p, step);
      case CheckDuplicate => StartAlone(t, s, p, step);
      case Saved(_) => StartAlone(t, s, p, step);
    }
  }

  lemma SameMax(s: System, p: TaskId, step: PubStep)
    requires PubEnabled(s, p, step)
    ensures PubNext(s, p, step).max == s.max
  {
    match step
    case Begin(_) =>
    case CheckDuplicate =>
    case Saved(_) =>
    case Route(_) =>
    case MakeRoom =>
    case Unindex =>
    case Unstatus =>
    case Append =>
    case Index =>
    case Accept(_) =>
    case Notify =>
  }

  lemma {:induction false} RunAlone(t: Tables, s: System, p: TaskId, evs: seq<Event>, r: System)
    requires Alone(t, s, p) && Runs(s, evs, r) && PublishOnly(evs, p)
    ensures Alone(t, r, p) && r.max == s.max
    decreases |evs|
  {
    if evs == [] {
    } else {
      StepAlone(t, s, p, evs[0].ps);
      SameMax(s, p, evs[0].ps);
      RunAlone(t, Next(s, evs[0]), p, evs[1..], r);
    }
  }

  /** A publish that runs without interruption leaves the tables as the atomic publish does once it notifies, and leaves
      them as they were if it is refused. */
  lemma UninterruptedPublish(s: System, p: TaskId, evs: seq<Event>, r: System)
    requires p !in s.pubs && Runs(s, evs, r) && PublishOnly(evs, p) && p in r.pubs
    ensures var pub := r.pubs[p];
      && (pub.phase.Refused? ==> TablesOf(r) == TablesOf(s))
      && (pub.phase.Notifying? ==>
            && pub.message.messageId !in s.status && pub.targets != []
            && Published(TablesOf(s), s.max, pub.targets, EntryOf(p, pub), TablesOf(r)))
  {
    RunAlone(TablesOf(s), s, p, evs, r);
  }

  // ----- One removal

  ghost predicate RemovalOnly(evs: seq<Event>, a: TaskId) {
    forall i :: 0 <= i < |evs| ==> evs[i].RemEv? && evs[i].a == a
  }

  /** The index set of `m`. */
  function PlacesOf(t: Tables, m: Id): set<Queue> {
    if m in t.index then t.index[m] else {}
  }

  /** The queues after `m` has left those of `gone`. */
  ghost predicate Cleared(t: Tables, m: Id, gone: set<Queue>, queues: map<Queue, seq<Entry>>) {
    queues.Keys == t.queues.Keys
    && forall q :: q in queues ==> queues[q] == if q in gone then Without(t.queues[q], {m}) else t.queues[q]
  }

  /** What the tables hold at each phase of a removal of `m` that started from `t` and has run alone. */
  ghost predicate Removing(t: Tables, m: Id, phase: RemPhase, now: Tables) {
    && (!phase.AckChecking? && !phase.Removed? ==>
          m in t.status && m in now.status && now.status - {m} == t.status - {m})
    && match phase
       case AckChecking => now == t
       case AckMarking => now == t
       case ReadingIndex => now.queues == t.queues && now.index == t.index
       case Clearing(left) =>
         now.index == t.index && left <= PlacesOf(t, m) && Cleared(t, m, PlacesOf(t, m) - left, now.queues)
       case DroppingStatus => now.index == t.index - {m} && Cleared(t, m, PlacesOf(t, m), now.queues)
       case Removed => now == Acknowledge(t, m)
  }

  ghost predicate AloneRemoving(t: Tables, s: System, a: TaskId) {
    if a !in s.removers then TablesOf(s) == t
    else Removing(t, s.removers[a].m, s.removers[a].phase, TablesOf(s))
  }

  lemma ClearedAll(t: Tables, m: Id, queues: map<Queue, seq<Entry>>)
    requires Cleared(t, m, PlacesOf(t, m), queues)
    ensures queues == RemoveIds(t, {m}).queues
  {
    forall q | q in queues ensures queues[q] == Without(t.queues[q], Listed(t.index, {m}, q)) {
      if q in PlacesOf(t, m) {
        assert Listed(t.index, {m}, q) == {m};
      } else {
        assert Listed(t.index, {m}, q) == {};
        WithoutAbsent(t.queues[q], {});
      }
    }
  }

  lemma ClearAlone(t: Tables, s: System, a: TaskId, q: Queue)
    requires AloneRemoving(t, s, a) && RemEnabled(s, a, Clear(q))
    ensures AloneRemoving(t, RemNext(s, a, Clear(q)), a)
  {
  }

  lemma RemoveAlone(t: Tables, s: System, a: TaskId, step: RemStep)
    requires AloneRemoving(t, s, a) && RemEnabled(s, a, step)
    ensures AloneRemoving(t, RemNext(s, a, step), a)
  {
    match step {
      case Ack(_) =>
      case Collect(_, _, _) =>
      case CheckStatus =>
      case MarkAcknowledged(_) =>
      case ReadIndex =>
      case Clear(q) => ClearAlone(t, s, a, q);
      case DropIndex =>
      case DropStatus => ClearedAll(t, s.removers[a].m, s.queues);
    }
  }

  lemma {:induction false} RemovalRunAlone(t: Tables, s: System, a: TaskId, evs: seq<Event>, r: System)
    requires AloneRemoving(t, s, a) && Runs(s, evs, r) && RemovalOnly(evs, a)
    ensures AloneRemoving(t, r, a)
    decreases |evs|
  {
    if evs == [] {
    } else {
      RemoveAlone(t, s, a, evs[0].ms);
      RemovalRunAlone(t, Next(s, evs[0]), a, evs[1..], r);
    }
  }

  /** An acknowledgement, or the removal of an expired id, that runs to its end without interruption is the atomic one,
      whatever order it visits the queues in. */
  lemma UninterruptedRemoval(s: System, a: TaskId, evs: seq<Event>, r: System)
    requires a !in s.removers && Runs(s, evs, r) && RemovalOnly(evs, a)
    requires a in r.removers && r.removers[a].phase.Removed?
    ensures TablesOf(r) == Acknowledge(TablesOf(s), r.removers[a].m)
  {
    RemovalRunAlone(TablesOf(s), s, a, evs, r);
  }
}
