/** The reverse index at step level: without evictions and with one publish of an id at a time, whenever no task is
    working on an id the index is exact for it, whatever all the other tasks are doing. */
module QuietIndex {
  import opened Broker
  import opened BrokerIndex
  import opened Interleaving
  import opened NoDeliveryGap

  // ----- Tasks at work on an id

  /** Past its duplicate check and not yet accepted. */
  predicate PubBusy(pubs: Pubs, p: TaskId, m: Id) {
    && p in pubs && pubs[p].message.messageId == m
    && !pubs[p].phase.Checking? && !pubs[p].phase.Notifying? && !pubs[p].phase.Refused?
  }

  type Removers = map<TaskId, Remover>

  /** Past its status check and not yet done. */
  predicate RemBusy(removers: Removers, a: TaskId, m: Id) {
    a in removers && removers[a].m == m && !removers[a].phase.AckChecking? && !removers[a].phase.Removed?
  }

  ghost predicate NoPub(pubs: Pubs, m: Id) {
    forall p :: !PubBusy(pubs, p, m)
  }

  ghost predicate NoRem(removers: Removers, m: Id) {
    forall a :: !RemBusy(removers, a, m)
  }

  /** The event evicts nothing, and lets no publish of `m` past its duplicate check while another task is at work on
      `m`. */
  ghost predicate Orderly(s: System, ev: Event, m: Id) {
    ev.PubEv? && Enabled(s, ev) ==>
      && (ev.ps.MakeRoom? ==> !Full(Tables(s.queues, s.index, s.status), s.max,
            s.pubs[ev.p].targets[s.pubs[ev.p].pushed]))
      && (ev.ps.CheckDuplicate? && s.pubs[ev.p].message.messageId == m && m !in s.status ==>
            NoPub(s.pubs, m) && NoRem(s.removers, m))
  }

  // ----- The invariant for one id

  predicate In(queues: Queues, q: Queue, m: Id) {
    q in queues && m in Ids(queues[q])
  }

  ghost predicate OnceIn(es: seq<Entry>, m: Id) {
    forall i, j :: 0 <= i < j < |es| && es[i].id == m ==> es[j].id != m
  }

  ghost predicate Once(queues: Queues, m: Id) {
    forall q :: q in queues ==> OnceIn(queues[q], m)
  }

  ghost predicate NoEvicting(pubs: Pubs) {
    forall p :: p in pubs ==> !pubs[p].phase.Unindexing? && !pubs[p].phase.Unstatusing?
  }

  /** A publish at work is alone with its id, which is in the queues reached so far and not yet tracked. */
  ghost predicate PubView(s: System, p: TaskId, m: Id)
    requires p in s.pubs
  {
    && m !in s.status && NoRem(s.removers, m)
    && (forall x :: PubBusy(s.pubs, x, m) ==> x == p)
    && (m in s.index <==> s.pubs[p].phase.Accepting?)
    && (m in s.index ==> s.index[m] == set q | q in s.pubs[p].targets)
    && (forall q :: In(s.queues, q, m) <==> q in Reached(s.pubs[p]))
  }

  /** Without one, copies are indexed and indexed means tracked; without removals too, both ways. */
  ghost predicate RestView(s: System, m: Id) {
    && (forall q :: In(s.queues, q, m) ==> m in s.index && q in s.index[m])
    && (m in s.index ==> m in s.status)
    && (NoRem(s.removers, m) && m in s.status ==> m in s.index && forall q :: q in s.index[m] ==> In(s.queues, q, m))
  }

  /** What a removal at work has already cleared. */
  ghost predicate RemView(s: System, a: TaskId, m: Id)
    requires a in s.removers
  {
    match s.removers[a].phase
    case Clearing(left) => m in s.index ==> forall q :: q in s.index[m] && q !in left ==> !In(s.queues, q, m)
    case DroppingStatus => m !in s.index
    case _ => true
  }

  ghost predicate Steady(s: System, m: Id) {
    && NoEvicting(s.pubs) && Once(s.queues, m)
    && (forall p :: PubBusy(s.pubs, p, m) ==> PubView(s, p, m))
    && (NoPub(s.pubs, m) ==> RestView(s, m))
    && (forall a :: RemBusy(s.removers, a, m) ==> RemView(s, a, m))
  }

  // ----- Publishes

  /** Once the only publish at work on `m` is done, none is. */
  lemma LastDone(pubs: Pubs, p: TaskId, pub: Pub, m: Id)
    requires forall x :: PubBusy(pubs, x, m) ==> x == p
    requires !PubBusy(pubs[p := pub], p, m)
    ensures NoPub(pubs[p := pub], m)
  {
    var pubs' := pubs[p := pub];
    forall x ensures !PubBusy(pubs', x, m) {
      if x != p {
        assert PubBusy(pubs', x, m) <==> PubBusy(pubs, x, m);
      }
    }
  }

  /** A publish of another id does not touch `m`. */
  lemma OtherPubSteady(s: System, t: System, p: TaskId, pub: Pub, m: Id)
    requires Steady(s, m) && t.pubs == s.pubs[p := pub] && pub.message.messageId != m && t.removers == s.removers
    requires (p in s.pubs ==> s.pubs[p].message.messageId != m) && !pub.phase.Unindexing? && !pub.phase.Unstatusing?
    requires m in t.status <==> m in s.status
    requires (m in t.index <==> m in s.index) && (m in s.index ==> t.index[m] == s.index[m])
    requires Once(t.queues, m) && forall q :: In(t.queues, q, m) <==> In(s.queues, q, m)
    ensures Steady(t, m)
  {
    assert forall x :: PubBusy(t.pubs, x, m) <==> PubBusy(s.pubs, x, m);
    forall x | PubBusy(t.pubs, x, m) ensures PubView(t, x, m) {
      assert PubView(s, x, m);
    }
    forall a | RemBusy(t.removers, a, m) ensures RemView(t, a, m) {
      assert RemView(s, a, m);
    }
  }

  /** A publish of `m` stays at work. */
  lemma OwnPubSteady(s: System, t: System, p: TaskId, pub: Pub, m: Id)
    requires NoEvicting(s.pubs) && (forall x :: PubBusy(s.pubs, x, m) ==> x == p) && NoRem(s.removers, m)
    requires t.pubs == s.pubs[p := pub] && PubBusy(t.pubs, p, m) && t.removers == s.removers
    requires !pub.phase.Unindexing? && !pub.phase.Unstatusing?
    requires Once(t.queues, m) && m !in t.status && (m in t.index <==> pub.phase.Accepting?)
    requires m in t.index ==> t.index[m] == set q | q in pub.targets
    requires forall q :: In(t.queues, q, m) <==> q in Reached(pub)
    ensures Steady(t, m)
  {
    forall x | PubBusy(t.pubs, x, m) ensures x == p {
      assert x != p ==> PubBusy(s.pubs, x, m);
    }
    assert PubView(t, p, m);
  }

  /** A publish of `m` is done. */
  lemma DonePubSteady(s: System, t: System, p: TaskId, pub: Pub, m: Id)
    requires NoEvicting(s.pubs) && (forall x :: PubBusy(s.pubs, x, m) ==> x == p) && NoRem(s.removers, m)
    requires t.pubs == s.pubs[p := pub] && !PubBusy(t.pubs, p, m) && t.removers == s.removers
    requires !pub.phase.Unindexing? && !pub.phase.Unstatusing?
    requires Once(t.queues, m) && RestView(t, m)
    ensures Steady(t, m)
  {
    LastDone(s.pubs, p, pub, m);
  }

  /** The publish moves without changing the tables, and is as busy with `m` as before. */
  lemma MovesSteady(s: System, p: TaskId, pub: Pub, m: Id)
    requires Steady(s, m) && p in s.pubs && pub.message == s.pubs[p].message
    requires !pub.phase.Unindexing? && !pub.phase.Unstatusing?
    requires PubBusy(s.pubs, p, m) <==> PubBusy(s.pubs[p := pub], p, m)
    requires PubBusy(s.pubs, p, m) ==>
      Reached(pub) == Reached(s.pubs[p]) && !pub.phase.Accepting? && !s.pubs[p].phase.Accepting?
    ensures Steady(SetPub(s, p, pub), m)
  {
    if PubBusy(s.pubs, p, m) {
      assert PubView(s, p, m);
      OwnPubSteady(s, SetPub(s, p, pub), p, pub, m);
    } else {
      IdleSteady(s, p, pub, m);
    }
  }

  lemma BeginSteady(s: System, p: TaskId, message: Message, m: Id)
    requires Steady(s, m) && p !in s.pubs
    ensures Steady(SetPub(s, p, Pub(message, [], 0, 0, Checking)), m)
  {
    IdleSteady(s, p, Pub(message, [], 0, 0, Checking), m);
  }

  /** A publish that is not at work on `m`, before or after. */
  lemma IdleSteady(s: System, p: TaskId, pub: Pub, m: Id)
    requires Steady(s, m) && !pub.phase.Unindexing? && !pub.phase.Unstatusing?
    requires !PubBusy(s.pubs, p, m) && !PubBusy(s.pubs[p := pub], p, m)
    ensures Steady(SetPub(s, p, pub), m)
  {
    var t := SetPub(s, p, pub);
    assert forall x :: PubBusy(t.pubs, x, m) <==> PubBusy(s.pubs, x, m);
    forall x | PubBusy(t.pubs, x, m) ensures PubView(t, x, m) {
      assert PubView(s, x, m);
    }
    forall a | RemBusy(t.removers, a, m) ensures RemView(t, a, m) {
      assert RemView(s, a, m);
    }
  }

  /** The duplicate check passes: the publish of `m` is now alone at work on it. */
  lemma PassSteady(s: System, p: TaskId, m: Id)
    requires Steady(s, m) && PubAt(s, p, Checking) && s.pubs[p].pushed == 0 && s.pubs[p].message.messageId == m
    requires m !in s.status && NoPub(s.pubs, m) && NoRem(s.removers, m)
    ensures Steady(SetPub(s, p, s.pubs[p].(phase := Saving)), m)
  {
    var pub := s.pubs[p].(phase := Saving);
    assert Reached(pub) == [];
    OwnPubSteady(s, SetPub(s, p, pub), p, pub, m);
  }

  /** A publish of `m` is refused before it has pushed anything. */
  lemma RefuseSteady(s: System, p: TaskId, pub: Pub, m: Id)
    requires Steady(s, m) && PubBusy(s.pubs, p, m) && s.pubs[p].pushed == 0 && !s.pubs[p].phase.Accepting?
    requires pub.phase.Refused?
    ensures Steady(SetPub(s, p, pub), m)
  {
    assert PubView(s, p, m);
    assert Reached(s.pubs[p]) == [];
    DonePubSteady(s, SetPub(s, p, pub), p, pub, m);
  }

  lemma RouteSteady(s: System, p: TaskId, targets: seq<Queue>, m: Id)
    requires Steady(s, m) && p in s.pubs && PubOk(s.queues, s.pubs[p]) && PubEnabled(s, p, Route(targets))
    ensures Steady(SetPub(s, p, Moved(s, p, Route(targets))), m)
  {
    var pub := s.pubs[p].(targets := targets, phase := if targets == [] then Refused else Room);
    if targets == [] && pub.message.messageId == m {
      RefuseSteady(s, p, pub, m);
    } else {
      assert Reached(s.pubs[p]) == [] && Reached(pub) == [];
      MovesSteady(s, p, pub, m);
    }
  }

  lemma SavedSteady(s: System, p: TaskId, ok: bool, m: Id)
    requires Steady(s, m) && p in s.pubs && PubOk(s.queues, s.pubs[p]) && PubEnabled(s, p, Saved(ok))
    ensures Steady(SetPub(s, p, Moved(s, p, Saved(ok))), m)
  {
    var pub := s.pubs[p];
    if !ok && pub.message.messageId == m {
      RefuseSteady(s, p, pub.(phase := Refused), m);
    } else {
      MovesSteady(s, p, pub.(phase := if ok then Routing else Refused), m);
    }
  }

  lemma CheckSteady(s: System, p: TaskId, m: Id)
    requires Steady(s, m) && p in s.pubs && PubOk(s.queues, s.pubs[p]) && PubEnabled(s, p, CheckDuplicate)
    requires Orderly(s, PubEv(p, CheckDuplicate), m)
    ensures Steady(SetPub(s, p, Moved(s, p, CheckDuplicate)), m)
  {
    var pub := s.pubs[p];
    if pub.message.messageId == m && m !in s.status {
      PassSteady(s, p, m);
    } else {
      MovesSteady(s, p, pub.(phase := if pub.message.messageId in s.status then Refused else Saving), m);
    }
  }

  lemma AppendedOnce(es: seq<Entry>, e: Entry, m: Id)
    requires OnceIn(es, m) && (e.id == m ==> m !in Ids(es))
    ensures OnceIn(es + [e], m) && Ids(es + [e]) == Ids(es) + {e.id}
  {
    forall i | 0 <= i < |es| && e.id == m ensures es[i].id != m {
      assert es[i].id in Ids(es);
    }
  }

  /** The queues after a push. */
  lemma AppendIn(queues: Queues, q: Queue, e: Entry, m: Id)
    requires q in queues && Once(queues, m) && (e.id == m ==> !In(queues, q, m))
    ensures var queues' := queues[q := queues[q] + [e]];
      Once(queues', m) && forall x :: In(queues', x, m) <==> In(queues, x, m) || (x == q && e.id == m)
  {
    AppendedOnce(queues[q], e, m);
  }

  lemma AppendSteady(s: System, p: TaskId, m: Id)
    requires Steady(s, m) && p in s.pubs && PubOk(s.queues, s.pubs[p]) && PubEnabled(s, p, Append)
    ensures Steady(PubNext(s, p, Append), m)
  {
    var pub, t := s.pubs[p], PubNext(s, p, Append);
    var q := pub.targets[pub.pushed];
    if pub.message.messageId == m {
      assert PubBusy(s.pubs, p, m) && PubView(s, p, m);
      assert Reached(NextTarget(pub)) == Reached(pub) + [q] && q !in Reached(pub);
      AppendIn(s.queues, q, EntryOf(p, pub), m);
      OwnPubSteady(s, t, p, NextTarget(pub), m);
    } else {
      AppendIn(s.queues, q, EntryOf(p, pub), m);
      OtherPubSteady(s, t, p, NextTarget(pub), m);
    }
  }

  lemma IndexSteady(s: System, p: TaskId, m: Id)
    requires Steady(s, m) && p in s.pubs && PubOk(s.queues, s.pubs[p]) && PubEnabled(s, p, Index)
    ensures Steady(PubNext(s, p, Index), m)
  {
    var pub, t := s.pubs[p], PubNext(s, p, Index);
    if pub.message.messageId == m {
      assert PubBusy(s.pubs, p, m) && PubView(s, p, m);
      OwnPubSteady(s, t, p, pub.(phase := Accepting), m);
    } else {
      OtherPubSteady(s, t, p, pub.(phase := Accepting), m);
    }
  }

  lemma AcceptSteady(s: System, p: TaskId, now: Time, m: Id)
    requires Steady(s, m) && p in s.pubs && PubOk(s.queues, s.pubs[p]) && PubEnabled(s, p, Accept(now))
    ensures Steady(PubNext(s, p, Accept(now)), m)
  {
    var pub, t := s.pubs[p], PubNext(s, p, Accept(now));
    if pub.message.messageId == m {
      assert PubBusy(s.pubs, p, m) && PubView(s, p, m);
      assert Reached(pub) == pub.targets;
      DonePubSteady(s, t, p, pub.(phase := Notifying), m);
    } else {
      OtherPubSteady(s, t, p, pub.(phase := Notifying), m);
    }
  }

  /** Consumers and channels play no part. */
  lemma SameTables(s: System, t: System, m: Id)
    requires Steady(s, m)
    requires t.queues == s.queues && t.index == s.index && t.status.Keys == s.status.Keys && t.pubs == s.pubs
    requires t.removers == s.removers
    ensures Steady(t, m)
  {
  }

  lemma NotifySteady(s: System, p: TaskId, m: Id)
    requires Steady(s, m) && p in s.pubs && PubOk(s.queues, s.pubs[p]) && PubEnabled(s, p, Notify)
    ensures Steady(NotifyOne(s, p, s.pubs[p], s.pubs[p].targets[s.pubs[p].notified]), m)
  {
    var pub := s.pubs[p].(notified := s.pubs[p].notified + 1);
    MovesSteady(s, p, pub, m);
    SameTables(SetPub(s, p, pub), NotifyOne(s, p, s.pubs[p], s.pubs[p].targets[s.pubs[p].notified]), m);
  }

  lemma MakeRoomSteady(s: System, p: TaskId, m: Id)
    requires Steady(s, m) && p in s.pubs && PubOk(s.queues, s.pubs[p]) && PubEnabled(s, p, MakeRoom)
    requires Orderly(s, PubEv(p, MakeRoom), m)
    ensures Steady(PubNext(s, p, MakeRoom), m)
  {
    MovesSteady(s, p, s.pubs[p].(phase := Appending), m);
  }

  lemma PubSteady(s: System, p: TaskId, step: PubStep, m: Id)
    requires Steady(s, m) && PubEnabled(s, p, step) && Orderly(s, PubEv(p, step), m)
    requires p in s.pubs ==> PubOk(s.queues, s.pubs[p])
    ensures Steady(PubNext(s, p, step), m)
  {
    match step {
      case Begin(message) => BeginSteady(s, p, message, m);
      case CheckDuplicate => CheckSteady(s, p, m);
      case Saved(ok) => SavedSteady(s, p, ok, m);
      case Route(targets) => RouteSteady(s, p, targets, m);
      case MakeRoom => MakeRoomSteady(s, p, m);
      case Append => AppendSteady(s, p, m);
      case Index => IndexSteady(s, p, m);
      case Accept(now) => AcceptSteady(s, p, now, m);
      case Notify =>
        NotifyNext(s, p);
        NotifySteady(s, p, m);
      case _ =>
    }
  }

  // ----- Removals

  /** A removal moves without changing the tables. */
  lemma RemMovesSteady(s: System, a: TaskId, rem: Remover, m: Id)
    requires Steady(s, m) && (a in s.removers ==> s.removers[a].m == rem.m)
    requires RemBusy(s.removers[a := rem], a, m) ==> m in s.status || RemBusy(s.removers, a, m)
    requires RemBusy(s.removers[a := rem], a, m) ==> RemView(s.(removers := s.removers[a := rem]), a, m)
    requires RemBusy(s.removers, a, m) ==> RemBusy(s.removers[a := rem], a, m)
    ensures Steady(s.(removers := s.removers[a := rem]), m)
  {
    var removers := s.removers[a := rem];
    assert forall x :: x != a ==> (RemBusy(removers, x, m) <==> RemBusy(s.removers, x, m));
    forall p | PubBusy(s.pubs, p, m) ensures PubView(s.(removers := removers), p, m) {
      assert PubView(s, p, m);
    }
    if NoRem(removers, m) {
      assert NoRem(s.removers, m);
    }
  }

  /** A removal of another id does not touch `m`. */
  lemma OtherRemSteady(s: System, t: System, a: TaskId, m: Id)
    requires Steady(s, m) && a in t.removers && t.removers[a].m != m && t == s.(queues := t.queues, index := t.index,
                                                                             status := t.status, removers := t.removers)
    requires (a in s.removers ==> s.removers[a].m != m) && t.removers == s.removers[a := t.removers[a]]
    requires m in t.status <==> m in s.status
    requires (m in t.index <==> m in s.index) && (m in s.index ==> t.index[m] == s.index[m])
    requires t.queues.Keys == s.queues.Keys && Once(t.queues, m)
    requires forall q :: In(t.queues, q, m) <==> In(s.queues, q, m)
    ensures Steady(t, m)
  {
    assert forall x :: RemBusy(t.removers, x, m) <==> RemBusy(s.removers, x, m);
    forall p | PubBusy(t.pubs, p, m) ensures PubView(t, p, m) {
      assert PubView(s, p, m);
    }
    forall x | RemBusy(t.removers, x, m) ensures RemView(t, x, m) {
      assert RemView(s, x, m);
    }
  }

  /** The queues after a removal from one of them. */
  lemma ClearIn(queues: Queues, q: Queue, i: Id, m: Id)
    requires Once(queues, m) && q in queues
    ensures var queues' := queues[q := Without(queues[q], {i})];
      Once(queues', m) && forall x :: In(queues', x, m) <==> In(queues, x, m) && !(x == q && m == i)
  {
    var es, kept := queues[q], Without(queues[q], {i});
    WithoutKeeps(es, {i});
    WithoutOnce(es, {i}, m);
    assert m in Ids(kept) <==> m in Ids(es) && m != i by {
      if m in Ids(es) && m != i {
        var e :| e in es && e.id == m;
        assert e in kept;
      }
    }
  }

  lemma {:induction false} WithoutOnce(es: seq<Entry>, ids: set<Id>, m: Id)
    requires OnceIn(es, m)
    ensures OnceIn(Without(es, ids), m)
  {
    if es == [] {
    } else {
      var front, last := es[..|es| - 1], es[|es| - 1];
      WithoutOnce(front, ids, m);
      WithoutKeeps(front, ids);
      forall i | 0 <= i < |Without(front, ids)| && last.id == m ensures Without(front, ids)[i].id != m {
        assert Without(front, ids)[i] in front;
      }
    }
  }

  lemma BusyAlone(s: System, a: TaskId, m: Id)
    requires Steady(s, m) && RemBusy(s.removers, a, m)
    ensures NoPub(s.pubs, m)
  {
  }

  lemma OwnClearSteady(s: System, a: TaskId, q: Queue, m: Id)
    requires Steady(s, m) && RemEnabled(s, a, Clear(q)) && s.removers[a].m == m
    ensures Steady(RemNext(s, a, Clear(q)), m)
  {
    var t := RemNext(s, a, Clear(q));
    if q in s.queues {
      ClearIn(s.queues, q, m, m);
    }
    assert RemBusy(s.removers, a, m);
    BusyAlone(s, a, m);
    assert forall x :: RemBusy(t.removers, x, m) <==> RemBusy(s.removers, x, m);
    assert forall x :: In(t.queues, x, m) <==> In(s.queues, x, m) && x != q;
    forall x | RemBusy(t.removers, x, m) ensures RemView(t, x, m) {
      assert RemView(s, x, m);
    }
    assert RemBusy(t.removers, a, m);
  }

  lemma ClearSteady(s: System, a: TaskId, q: Queue, m: Id)
    requires Steady(s, m) && RemEnabled(s, a, Clear(q))
    ensures Steady(RemNext(s, a, Clear(q)), m)
  {
    var t := RemNext(s, a, Clear(q));
    if s.removers[a].m == m {
      OwnClearSteady(s, a, q, m);
    } else {
      if q in s.queues {
        ClearIn(s.queues, q, s.removers[a].m, m);
      }
      OtherRemSteady(s, t.(dropped := s.dropped), a, m);
      SameTables(t.(dropped := s.dropped), t, m);
    }
  }

  lemma DropIndexSteady(s: System, a: TaskId, m: Id)
    requires Steady(s, m) && RemEnabled(s, a, DropIndex)
    ensures Steady(RemNext(s, a, DropIndex), m)
  {
    var t := RemNext(s, a, DropIndex);
    if s.removers[a].m == m {
      assert RemBusy(s.removers, a, m) && RemView(s, a, m);
      BusyAlone(s, a, m);
      assert forall q :: !In(s.queues, q, m);
      assert forall x :: RemBusy(t.removers, x, m) <==> RemBusy(s.removers, x, m);
      assert RemBusy(t.removers, a, m);
    } else {
      OtherRemSteady(s, t, a, m);
    }
  }

  lemma DropStatusSteady(s: System, a: TaskId, m: Id)
    requires Steady(s, m) && RemEnabled(s, a, DropStatus)
    ensures Steady(RemNext(s, a, DropStatus), m)
  {
    var t := RemNext(s, a, DropStatus);
    if s.removers[a].m == m {
      assert RemBusy(s.removers, a, m) && RemView(s, a, m);
      BusyAlone(s, a, m);
      forall x | RemBusy(t.removers, x, m) ensures RemView(t, x, m) {
        assert RemBusy(s.removers, x, m) && RemView(s, x, m);
      }
    } else {
      OtherRemSteady(s, t.(dropped := s.dropped), a, m);
      SameTables(t.(dropped := s.dropped), t, m);
    }
  }

  lemma MarkSteady(s: System, a: TaskId, now: Time, m: Id)
    requires Steady(s, m) && RemEnabled(s, a, MarkAcknowledged(now))
    ensures Steady(RemNext(s, a, MarkAcknowledged(now)), m)
  {
    var t := RemNext(s, a, MarkAcknowledged(now));
    RemMovesSteady(s, a, t.removers[a], m);
    SameTables(s.(removers := t.removers), t, m);
  }

  lemma RemSteady(s: System, a: TaskId, step: RemStep, m: Id)
    requires Steady(s, m) && RemEnabled(s, a, step)
    ensures Steady(RemNext(s, a, step), m)
  {
    match step {
      case Clear(q) => ClearSteady(s, a, q, m);
      case DropIndex => DropIndexSteady(s, a, m);
      case DropStatus => DropStatusSteady(s, a, m);
      case MarkAcknowledged(now) => MarkSteady(s, a, now, m);
      case Ack(_) => RemMovesSteady(s, a, RemNext(s, a, step).removers[a], m);
      case Collect(_, _, _) => RemMovesSteady(s, a, RemNext(s, a, step).removers[a], m);
      case CheckStatus => RemMovesSteady(s, a, RemNext(s, a, step).removers[a], m);
      case ReadIndex => RemMovesSteady(s, a, RemNext(s, a, step).removers[a], m);
    }
  }

  // ----- The other tasks

  lemma DeclareSteady(s: System, q: Queue, m: Id)
    requires Steady(s, m)
    ensures Steady(s.(queues := DeclareIn(s.queues, q)), m)
  {
    var queues := DeclareIn(s.queues, q);
    assert forall x :: In(queues, x, m) <==> In(s.queues, x, m);
    forall p | PubBusy(s.pubs, p, m) ensures PubView(s.(queues := queues), p, m) {
      assert PubView(s, p, m);
    }
  }

  lemma RegSteady(s: System, r: TaskId, step: RegStep, m: Id)
    requires Steady(s, m) && RegEnabled(s, r, step)
    ensures Steady(RegNext(s, r, step), m)
  {
    if step.Declare? {
      DeclareSteady(s, s.regs[r].q, m);
      SameTables(s.(queues := DeclareIn(s.queues, s.regs[r].q)), RegNext(s, r, step), m);
    } else {
      RegKeepsTables(s, r, step);
      SameTables(s, RegNext(s, r, step), m);
    }
  }

  lemma RegKeepsTables(s: System, r: TaskId, step: RegStep)
    requires RegEnabled(s, r, step) && !step.Declare?
    ensures var t := RegNext(s, r, step);
      t.queues == s.queues && t.index == s.index && t.status == s.status && t.pubs == s.pubs && t.removers == s.removers
  {
    if step.Send? {
      SendKeepsTables(s, r);
    }
  }

  lemma SendKeepsTables(s: System, r: TaskId)
    requires RegEnabled(s, r, Send)
    ensures var t := RegNext(s, r, Send);
      t.queues == s.queues && t.index == s.index && t.status == s.status && t.pubs == s.pubs && t.removers == s.removers
  {
  }

  lemma SessionSteady(s: System, c: ChannelId, step: SessionStep, m: Id)
    requires Steady(s, m) && SessionEnabled(s, c, step)
    ensures Steady(SessionNext(s, c, step), m)
  {
    SameTables(s, SessionNext(s, c, step), m);
  }

  lemma NextSteady(s: System, ev: Event, m: Id)
    requires Steady(s, m) && PubsOk(s.pubs, s.queues) && Enabled(s, ev) && Orderly(s, ev, m)
    ensures Steady(Next(s, ev), m)
  {
    match ev {
      case DeclareEv(q) => DeclareSteady(s, q, m);
      case PubEv(p, step) => PubSteady(s, p, step, m);
      case RegEv(r, step) => RegSteady(s, r, step, m);
      case RemEv(a, step) => RemSteady(s, a, step, m);
      case SessionEv(c, step) => SessionSteady(s, c, step, m);
    }
  }

  lemma {:induction false} SteadyAt(max: nat, states: seq<System>, evs: seq<Event>, m: Id, k: nat)
    requires Trace(max, states, evs) && k <= |evs|
    requires forall i: nat :: i < k ==> Orderly(states[i], evs[i], m)
    ensures Steady(states[k], m)
  {
    if k == 0 {
    } else {
      SteadyAt(max, states, evs, m, k - 1);
      DroppedByRun(max, states, evs, 0, k - 1);
      assert StepAt(states, evs, k - 1);
      NextSteady(states[k - 1], evs[k - 1], m);
    }
  }

  /** In every interleaving without evictions in which no publish of `m` passes its duplicate check while another
      publish or removal of `m` is at work: whenever nothing is at work on `m`, a queue holds `m` exactly when the
      index places it there, and holds it once. */
  lemma ExactWhenQuiet(max: nat, states: seq<System>, evs: seq<Event>, m: Id)
    requires Trace(max, states, evs)
    requires forall i: nat :: i < |evs| ==> Orderly(states[i], evs[i], m)
    requires NoPub(states[|evs|].pubs, m) && NoRem(states[|evs|].removers, m)
    ensures var s := states[|evs|];
      var t := Tables(s.queues, s.index, s.status);
      && (forall q :: In(s.queues, q, m) <==> Places(t, m, q))
      && (forall q :: q in s.queues ==> OnceIn(s.queues[q], m))
      && (m in s.index <==> m in s.status)
  {
    SteadyAt(max, states, evs, m, |evs|);
  }
}
