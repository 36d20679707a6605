/** The mutable broker of server/src/state.rs. Each method updates the shared maps in place, as the source does, and is
    proved to have the effect the `Broker` functions give it. Waiting, clocks and the database are parameters. */
module ServerStates {
  import opened Prelude
  import opened Broker
  import opened BrokerIndex
  import opened Publishing

  class ServerState {
    var queues: map<Queue, seq<Entry>>
    var messageQueues: map<Id, set<Queue>>
    var bindings: map<Exchange, seq<(Queue, Key)>>
    var exchanges: set<Exchange>
    var consumers: map<Queue, seq<ChannelId>>
    var channels: map<ChannelId, Channel>
    var messageStatus: map<Id, Status>
    const maxQueueSize: nat

    ghost function View(): State
      reads this
    {
      State(Tables(queues, messageQueues, messageStatus), bindings, exchanges, consumers, channels, maxQueueSize)
    }

    constructor (maxQueueSize: nat)
      ensures View() == Init(maxQueueSize)
      ensures queues == map[] && messageQueues == map[] && messageStatus == map[]
      ensures bindings == map[] && exchanges == {} && consumers == map[] && channels == map[]
    {
      queues, messageQueues, messageStatus := map[], map[], map[];
      bindings, exchanges, consumers, channels := map[], {}, map[], map[];
      this.maxQueueSize := maxQueueSize;
    }

    method DeclareQueue(q: Queue)
      modifies this`queues
      ensures View() == Broker.DeclareQueue(old(View()), q)
    {
      if q !in queues {
        queues := queues[q := []];
      }
    }

    method DeclareExchange(x: Exchange)
      modifies this`exchanges
      ensures View() == Broker.DeclareExchange(old(View()), x)
    {
      exchanges := exchanges + {x};
    }

    method BindQueue(q: Queue, x: Exchange, k: Key)
      modifies this`bindings
      ensures View() == Broker.Bind(old(View()), q, x, k)
    {
      if q in queues && x in exchanges {
        if x in bindings {
          if (q, k) !in bindings[x] {
            bindings := bindings[x := bindings[x] + [(q, k)]];
          }
        } else {
          bindings := bindings[x := [(q, k)]];
        }
      }
    }

    method FindTargets(x: Exchange, k: Key) returns (targets: seq<Queue>)
      ensures targets == Targets(View(), x, k)
    {
      targets := [];
      if x in bindings {
        var bs := bindings[x];
        for i := 0 to |bs|
          invariant targets == Matching(bs[..i], k)
        {
          assert bs[..i + 1][..i] == bs[..i];
          if bs[i].1 == k {
            targets := targets + [bs[i].0];
          }
        }
        assert bs[..|bs|] == bs;
      }
    }

    /** Pushes one entry to all targets, evicting the oldest entry of a full queue. */
    method Enqueue(targets: seq<Queue>, e: Entry) returns (queueSet: set<Queue>)
      modifies this`queues, this`messageQueues, this`messageStatus
      ensures Tables(queues, messageQueues, messageStatus)
           == PushAll(old(View()).tables, maxQueueSize, targets, e)
      ensures queueSet == Routed(old(View()).tables, targets)
    {
      queueSet := {};
      ghost var before := View().tables;
      for i := 0 to |targets|
        invariant Tables(queues, messageQueues, messageStatus) == PushAll(before, maxQueueSize, targets[..i], e)
        invariant queues.Keys == before.queues.Keys
        invariant queueSet == Routed(before, targets[..i])
      {
        var q := targets[i];
        assert targets[..i + 1][..i] == targets[..i];
        if q in queues {
          if |queues[q]| >= maxQueueSize {
            if queues[q] != [] {
              var victim := queues[q][0].id;
              queues := queues[q := queues[q][1..]];
              if victim in messageQueues {
                messageQueues := messageQueues[victim := messageQueues[victim] - {q}];
              }
              messageStatus := messageStatus - {victim};
            }
          }
          queues := queues[q := queues[q] + [e]];
          queueSet := queueSet + {q};
        }
      }
      assert targets[..|targets|] == targets;
    }

    /** Sends the entry to every open consumer of the targets and forgets the closed ones. */
    method Notify(targets: seq<Queue>, e: Entry)
      modifies this`consumers, this`channels
      ensures View() == NotifyAll(old(View()), targets, e)
    {
      for i := 0 to |targets|
        invariant View() == NotifyAll(old(View()), targets[..i], e)
      {
        var q := targets[i];
        assert targets[..i + 1][..i] == targets[..i];
        if q in consumers {
          var listed, kept := consumers[q], [];
          ghost var s1, at := View(), channels;
          for j := 0 to |listed|
            invariant View() == s1.(channels := SendEach(at, listed[..j], e))
            invariant kept == Live(at, listed[..j])
            invariant forall c :: IsOpen(channels, c) == IsOpen(at, c)
          {
            assert listed[..j + 1][..j] == listed[..j];
            var c := listed[j];
            if IsOpen(channels, c) {
              channels := channels[c := Channel(true, channels[c].items + [e])];
              kept := kept + [c];
            }
          }
          assert listed[..|listed|] == listed;
          consumers := consumers[q := kept];
        }
      }
      assert targets[..|targets|] == targets;
    }

    method Publish(x: Exchange, k: Key, m: Message, saved: bool, stamp: nat, now: Time)
      returns (result: PublishResult)
      modifies this
      ensures View() == Broker.Publish(old(View()), x, k, m, saved, stamp, now)
      ensures result == Duplicate <==> m.messageId in old(messageStatus)
      ensures result == StorageFailed <==> m.messageId !in old(messageStatus) && !saved
      ensures result == Accepted <==>
        m.messageId !in old(messageStatus) && saved && Routable(old(View()), x, k)
      ensures result != Accepted ==> View() == old(View())
    {
      PublishAnswers(View(), x, k, m, saved);
      if m.messageId in messageStatus {
        return Duplicate;
      }
      if !saved {
        return StorageFailed;
      }
      var targets := FindTargets(x, k);
      if targets == [] {
        return NoQueues;
      }
      var e := Entry(m.messageId, m, stamp);
      var queueSet := Enqueue(targets, e);
      messageQueues := messageQueues[m.messageId := queueSet];
      messageStatus := messageStatus[m.messageId := Sent(now)];
      Notify(targets, e);
      return Accepted;
    }

    /** Takes `m` out of the queues its index set names, then out of the index and the status. */
    method RemoveTracked(m: Id)
      modifies this`queues, this`messageQueues, this`messageStatus
      ensures Tables(queues, messageQueues, messageStatus) == RemoveIds(old(View()).tables, {m})
    {
      ghost var before := View().tables;
      if m in messageQueues {
        var left := messageQueues[m];
        while left != {}
          invariant messageQueues == before.index && messageStatus == before.status
          invariant left <= before.index[m]
          invariant queues.Keys == before.queues.Keys
          invariant forall q :: q in queues ==>
            queues[q] == if q in before.index[m] - left then Without(before.queues[q], {m}) else before.queues[q]
          decreases |left|
        {
          var q :| q in left;
          if q in queues {
            queues := queues[q := Without(queues[q], {m})];
          }
          left := left - {q};
        }
      }
      forall q | q in queues ensures queues[q] == Without(before.queues[q], Listed(before.index, {m}, q)) {
        if m in before.index && q in before.index[m] {
          assert Listed(before.index, {m}, q) == {m};
        } else {
          assert Listed(before.index, {m}, q) == {};
          WithoutAbsent(before.queues[q], {});
        }
      }
      assert queues == RemoveIds(before, {m}).queues;
      messageQueues := messageQueues - {m};
      messageStatus := messageStatus - {m};
    }

    method Acknowledge(m: Id)
      modifies this`queues, this`messageQueues, this`messageStatus
      ensures View() == old(View()).(tables := Broker.Acknowledge(old(View()).tables, m))
    {
      if m !in messageStatus {
        return;
      }
      RemoveTracked(m);
    }

    method CollectExpired(now: Time, maxAge: nat) returns (expired: set<Id>)
      ensures expired == ExpiredIds(View().tables, now, maxAge)
      ensures forall m :: m in expired <==>
        && m in messageStatus && messageStatus[m].acknowledgedTime.None? && messageStatus[m].deliveredTime.Some?
        && messageStatus[m].deliveredTime.value + maxAge < now
    {
      expired := {};
      var unseen := messageStatus.Keys;
      while unseen != {}
        invariant unseen <= messageStatus.Keys
        invariant forall m :: m in expired <==>
          m in messageStatus && m !in unseen && Expired(messageStatus[m], now, maxAge)
        decreases |unseen|
      {
        var m :| m in unseen;
        if Expired(messageStatus[m], now, maxAge) {
          expired := expired + {m};
        }
        unseen := unseen - {m};
      }
    }

    /** One pass of the expiry task; `now` is the pass's single clock reading. */
    method CleanupOldMessages(now: Time, maxAge: nat)
      modifies this`queues, this`messageQueues, this`messageStatus
      ensures View() == old(View()).(tables := Sweep(old(View()).tables, now, maxAge))
    {
      var expired := CollectExpired(now, maxAge);
      ghost var before, done := View().tables, {};
      RemoveNothing(before);
      while expired != {}
        invariant Tables(queues, messageQueues, messageStatus) == RemoveIds(before, done)
        invariant expired + done == ExpiredIds(before, now, maxAge)
        decreases |expired|
      {
        var m :| m in expired;
        RemoveTracked(m);
        RemoveTwice(before, done, {m});
        done := done + {m};
        expired := expired - {m};
      }
    }

    method MarkDelivered(m: Id, now: Time)
      modifies this`messageStatus
      ensures View() == old(View()).(tables := Broker.MarkDelivered(old(View()).tables, m, now))
      ensures m in old(messageStatus) && old(messageStatus)[m].deliveredTime.None? ==>
        messageStatus == old(messageStatus)[m := old(messageStatus)[m].(deliveredTime := Some(now))]
      ensures m !in old(messageStatus) || old(messageStatus)[m].deliveredTime.Some? ==>
        messageStatus == old(messageStatus)
    {
      if m in messageStatus && messageStatus[m].deliveredTime.None? {
        messageStatus := messageStatus[m := messageStatus[m].(deliveredTime := Some(now))];
      }
    }

    /** Registers the consumer; `pending` is what the spawned task will send it. */
    method RegisterConsumer(q: Queue, c: ChannelId) returns (pending: seq<Entry>)
      modifies this`queues, this`consumers
      ensures View() == Broker.RegisterConsumer(old(View()), q, c)
      ensures queues == if q in old(queues) then old(queues) else old(queues)[q := []]
      ensures consumers == old(consumers)[q := (if q in old(consumers) then old(consumers)[q] else []) + [c]]
      ensures pending == Deliverable(old(View()).tables, if q in old(queues) then old(queues)[q] else [])
    {
      DeclareQueue(q);
      consumers := consumers[q := (if q in consumers then consumers[q] else []) + [c]];
      pending := [];
      var es := queues[q];
      for i := 0 to |es|
        invariant pending == Deliverable(old(View()).tables, es[..i])
      {
        assert es[..i + 1][..i] == es[..i];
        if es[i].id in messageStatus && messageStatus[es[i].id].CanDeliver() {
          pending := pending + [es[i]];
        }
      }
      assert es[..|es|] == es;
    }

    /** Drops closed consumers; `emptied` names the lists left empty. */
    method PruneClosed() returns (emptied: set<Queue>)
      modifies this`consumers
      ensures consumers.Keys == old(consumers).Keys
      ensures forall q :: q in consumers ==> consumers[q] == Live(channels, old(consumers)[q])
      ensures forall q :: q in emptied <==> q in consumers && consumers[q] == []
    {
      var unseen := consumers.Keys;
      emptied := {};
      while unseen != {}
        invariant consumers.Keys == old(consumers).Keys && unseen <= consumers.Keys
        invariant forall q :: q in consumers ==>
          consumers[q] == if q in unseen then old(consumers)[q] else Live(channels, old(consumers)[q])
        invariant forall q :: q in emptied <==> q in consumers && q !in unseen && consumers[q] == []
        decreases |unseen|
      {
        var q :| q in unseen;
        consumers := consumers[q := Live(channels, consumers[q])];
        if consumers[q] == [] {
          emptied := emptied + {q};
        }
        unseen := unseen - {q};
      }
    }

    /** One pass of the consumer cleanup: drop closed consumers, then the lists left empty. */
    method CleanupDeadConsumers()
      modifies this`consumers
      ensures View() == Broker.SweepConsumers(old(View()))
    {
      var emptied := PruneClosed();
      consumers := consumers - emptied;
      assert consumers == Broker.SweepConsumers(old(View())).consumers;
    }
  }

  lemma RemoveNothing(t: Tables)
    ensures RemoveIds(t, {}) == t
  {
    forall q | q in t.queues ensures Without(t.queues[q], Listed(t.index, {}, q)) == t.queues[q] {
      WithoutAbsent(t.queues[q], {});
      assert Listed(t.index, {}, q) == {};
    }
    assert RemoveIds(t, {}).queues == t.queues;
  }
}
