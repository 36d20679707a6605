/** What consumers receive: the copies a notification sends, the consumers it forgets, and what a new consumer is
    sent. */
module Notification {
  import opened Prelude
  import opened Broker

  function Copies(e: Entry, n: nat): seq<Entry> {
    seq(n, _ => e)
  }

  function Times(cs: seq<ChannelId>, c: ChannelId): nat {
    if cs == [] then 0 else Times(cs[..|cs| - 1], c) + if cs[|cs| - 1] == c then 1 else 0
  }

  /** How often `c` is listed for the targets. */
  function Listings(consumers: map<Queue, seq<ChannelId>>, targets: seq<Queue>, c: ChannelId): nat {
    if targets == [] then 0
    else
      var q := targets[|targets| - 1];
      Listings(consumers, targets[..|targets| - 1], c) + if q in consumers then Times(consumers[q], c) else 0
  }

  /** The channels differ only in that each open one has got its number of copies of `e`. */
  ghost predicate Got(before: map<ChannelId, Channel>, after: map<ChannelId, Channel>, e: Entry, n: ChannelId -> nat) {
    && after.Keys == before.Keys
    && (forall c :: c in before ==>
          after[c] == if before[c].open then Channel(true, before[c].items + Copies(e, n(c))) else before[c])
  }

  lemma {:induction false} SendEachGot(channels: map<ChannelId, Channel>, cs: seq<ChannelId>, e: Entry)
    ensures Got(channels, SendEach(channels, cs, e), e, c => Times(cs, c))
  {
    if cs == [] {
      assert forall c :: c in channels ==> channels[c].items + Copies(e, 0) == channels[c].items;
    } else {
      var front, last := cs[..|cs| - 1], cs[|cs| - 1];
      SendEachGot(channels, front, e);
      if last in channels {
        var n := Times(front, last);
        assert Copies(e, n) + [e] == Copies(e, n + 1);
        assert channels[last].items + Copies(e, n) + [e] == channels[last].items + (Copies(e, n) + [e]);
      }
    }
  }

  lemma {:induction false} LiveIs(channels: map<ChannelId, Channel>, cs: seq<ChannelId>)
    ensures forall c :: Times(Live(channels, cs), c) == if IsOpen(channels, c) then Times(cs, c) else 0
  {
    if cs == [] {
    } else {
      var rest, last := Live(channels, cs[..|cs| - 1]), cs[|cs| - 1];
      LiveIs(channels, cs[..|cs| - 1]);
      assert (rest + [last])[..|rest|] == rest;
    }
  }

  /** `kept` is the listings of open consumers of `cs`, in order: `at` are their places. */
  ghost predicate OpenAt(channels: map<ChannelId, Channel>, cs: seq<ChannelId>, kept: seq<ChannelId>, at: seq<nat>) {
    && |at| == |kept|
    && (forall i :: 0 <= i < |at| ==> at[i] < |cs| && kept[i] == cs[at[i]])
    && (forall i, j :: 0 <= i < j < |at| ==> at[i] < at[j])
    && (forall k: nat :: k < |cs| ==> (k in at <==> IsOpen(channels, cs[k])))
  }

  ghost predicate OpenOnly(channels: map<ChannelId, Channel>, cs: seq<ChannelId>, kept: seq<ChannelId>) {
    exists at :: OpenAt(channels, cs, kept, at)
  }

  lemma OpenAtSnoc(channels: map<ChannelId, Channel>, cs: seq<ChannelId>, kept: seq<ChannelId>, at: seq<nat>,
                   c: ChannelId)
    requires OpenAt(channels, cs, kept, at)
    ensures if IsOpen(channels, c) then OpenAt(channels, cs + [c], kept + [c], at + [|cs|])
            else OpenAt(channels, cs + [c], kept, at)
  {
    assert forall k: nat :: k in at + [|cs|] <==> k in at || k == |cs|;
  }

  /** Pruning keeps the listings of open consumers, in order, and nothing else. */
  lemma {:induction false} LiveInOrder(channels: map<ChannelId, Channel>, cs: seq<ChannelId>) returns (at: seq<nat>)
    ensures OpenAt(channels, cs, Live(channels, cs), at)
  {
    if cs == [] {
      at := [];
    } else {
      var n := |cs| - 1;
      at := LiveInOrder(channels, cs[..n]);
      OpenAtSnoc(channels, cs[..n], Live(channels, cs[..n]), at, cs[n]);
      assert cs == cs[..n] + [cs[n]];
      if IsOpen(channels, cs[n]) {
        at := at + [n];
      }
    }
  }

  lemma SomeLive(channels: map<ChannelId, Channel>, cs: seq<ChannelId>)
    ensures Live(channels, cs) != [] <==> exists k: nat :: k < |cs| && IsOpen(channels, cs[k])
  {
    var at := LiveInOrder(channels, cs);
    if k: nat :| k < |cs| && IsOpen(channels, cs[k]) {
      assert k in at;
    }
    if at != [] {
      assert at[0] in at;
    }
  }

  /** A sweep leaves a list for exactly the queues with an open consumer, holding their open consumers in order, and
      changes nothing else. */
  lemma SweepKeepsOpen(s: State)
    ensures var r := SweepConsumers(s);
      && r == s.(consumers := r.consumers)
      && (forall q :: q in r.consumers <==>
            q in s.consumers && exists k: nat :: k < |s.consumers[q]| && IsOpen(s.channels, s.consumers[q][k]))
      && (forall q :: q in r.consumers ==> OpenOnly(s.channels, s.consumers[q], r.consumers[q]))
  {
    forall q | q in s.consumers
      ensures OpenOnly(s.channels, s.consumers[q], Live(s.channels, s.consumers[q]))
      ensures Live(s.channels, s.consumers[q]) != [] <==>
        exists k: nat :: k < |s.consumers[q]| && IsOpen(s.channels, s.consumers[q][k])
    {
      var at := LiveInOrder(s.channels, s.consumers[q]);
      SomeLive(s.channels, s.consumers[q]);
    }
  }

  /** The channels after one more target. */
  lemma GotMore(a: map<ChannelId, Channel>, b: map<ChannelId, Channel>, c: map<ChannelId, Channel>, e: Entry,
                m: ChannelId -> nat, n: ChannelId -> nat, sum: ChannelId -> nat)
    requires Got(a, b, e, m) && Got(b, c, e, n)
    requires forall x :: x in a && a[x].open ==> sum(x) == m(x) + n(x)
    ensures Got(a, c, e, sum)
  {
    forall x | x in a && a[x].open
      ensures a[x].items + Copies(e, m(x)) + Copies(e, n(x)) == a[x].items + Copies(e, sum(x))
    {
      assert Copies(e, m(x)) + Copies(e, n(x)) == Copies(e, sum(x));
    }
  }

  /** A notification puts one copy per listing on every open channel, nothing on a closed one, and leaves in the target
      lists exactly the open channels. */
  lemma {:induction false} NotifiedOncePerListing(s: State, targets: seq<Queue>, e: Entry)
    requires Distinct(targets)
    ensures Got(s.channels, NotifyAll(s, targets, e).channels, e, c => Listings(s.consumers, targets, c))
    ensures NotifyAll(s, targets, e).consumers.Keys == s.consumers.Keys
    ensures forall q, c :: q in s.consumers ==>
      Times(NotifyAll(s, targets, e).consumers[q], c)
      == if q in targets && !IsOpen(s.channels, c) then 0 else Times(s.consumers[q], c)
    ensures forall q :: q in s.consumers && q !in targets ==> NotifyAll(s, targets, e).consumers[q] == s.consumers[q]
  {
    if targets == [] {
      assert forall c :: c in s.channels ==> s.channels[c].items + Copies(e, 0) == s.channels[c].items;
    } else {
      var front, q := targets[..|targets| - 1], targets[|targets| - 1];
      assert targets == front + [q] && q !in front;
      NotifiedOncePerListing(s, front, e);
      var u := NotifyAll(s, front, e);
      if q in s.consumers {
        assert u.consumers[q] == s.consumers[q];
        SendEachGot(u.channels, s.consumers[q], e);
        LiveIs(u.channels, s.consumers[q]);
        GotMore(s.channels, u.channels, NotifyAll(s, targets, e).channels, e, c => Listings(s.consumers, front, c),
                c => Times(s.consumers[q], c), c => Listings(s.consumers, targets, c));
      }
    }
  }

  /** A new consumer is sent exactly the queued entries that can still be delivered, in queue order. */
  lemma {:induction false} DeliverableIs(t: Tables, es: seq<Entry>) returns (at: seq<nat>)
    ensures |at| == |Deliverable(t, es)|
    ensures forall i :: 0 <= i < |at| ==> at[i] < |es| && es[at[i]] == Deliverable(t, es)[i]
    ensures forall i, j :: 0 <= i < j < |at| ==> at[i] < at[j]
    ensures forall k :: 0 <= k < |es| ==> (k in at <==> es[k].id in t.status && t.status[es[k].id].CanDeliver())
  {
    at := [];
    if es == [] {
    } else {
      var n := |es| - 1;
      at := DeliverableIs(t, es[..n]);
      if es[n].id in t.status && t.status[es[n].id].CanDeliver() {
        at := at + [n];
      }
    }
  }
}
