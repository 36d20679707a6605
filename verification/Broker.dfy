/** The broker of server/src/state.rs as a value: its tables and the effect of each of its methods. */
module Broker {
  import opened Prelude

  type Id = string
  type Queue = string
  type Exchange = string
  type Key = string
  type Time = int
  type ChannelId = nat

  datatype Message = Message(messageId: Id, receiverClientId: string, encSessionKey: string,
                             nonce: string, ciphertext: string)

  /** A queued message. `stamp` is the position of its publish in the run; no operation reads it,
      it only lets the theorems tell two publishes of one message apart. */
  datatype Entry = Entry(id: Id, message: Message, stamp: nat)

  datatype Status = Status(sentTime: Option<Time>, deliveredTime: Option<Time>, acknowledgedTime: Option<Time>)
  {
    predicate CanDeliver() {
      acknowledgedTime.None?
    }
  }

  function Sent(now: Time): Status {
    Status(Some(now), None, None)
  }

  /** The receiving end of a consumer: once closed, nothing more can be sent to it. */
  datatype Channel = Channel(open: bool, items: seq<Entry>)

  /** `queues`, `message_queues` (the reverse index) and `message_status`. */
  datatype Tables = Tables(queues: map<Queue, seq<Entry>>, index: map<Id, set<Queue>>, status: map<Id, Status>)

  datatype State = State(
    tables: Tables,
    bindings: map<Exchange, seq<(Queue, Key)>>,
    exchanges: set<Exchange>,
    consumers: map<Queue, seq<ChannelId>>,
    channels: map<ChannelId, Channel>,
    maxQueueSize: nat)

  function Init(maxQueueSize: nat): State {
    State(Tables(map[], map[], map[]), map[], {}, map[], map[], maxQueueSize)
  }

  // ----- Declarations and bindings

  function DeclareQueue(s: State, q: Queue): State {
    if q in s.tables.queues then s
    else s.(tables := s.tables.(queues := s.tables.queues[q := []]))
  }

  function DeclareExchange(s: State, x: Exchange): State {
    s.(exchanges := s.exchanges + {x})
  }

  function Bind(s: State, q: Queue, x: Exchange, k: Key): State {
    if q in s.tables.queues && x in s.exchanges then
      if x in s.bindings then
        if (q, k) in s.bindings[x] then s
        else s.(bindings := s.bindings[x := s.bindings[x] + [(q, k)]])
      else s.(bindings := s.bindings[x := [(q, k)]])
    else s
  }

  /** The queues of the bindings that carry routing key `k`, in binding order. */
  function Matching(bs: seq<(Queue, Key)>, k: Key): seq<Queue> {
    if bs == [] then []
    else
      var rest := Matching(bs[..|bs| - 1], k);
      var last := bs[|bs| - 1];
      if last.1 == k then rest + [last.0] else rest
  }

  function Targets(s: State, x: Exchange, k: Key): seq<Queue> {
    if x in s.bindings then Matching(s.bindings[x], k) else []
  }

  // ----- Publishing

  datatype PublishResult = Accepted | Duplicate | StorageFailed | NoQueues

  /** What `publish` answers; `saved` is the outcome of storing the metadata row. */
  function PublishOutcome(s: State, x: Exchange, k: Key, m: Message, saved: bool): PublishResult {
    if m.messageId in s.tables.status then Duplicate
    else if !saved then StorageFailed
    else if Targets(s, x, k) == [] then NoQueues
    else Accepted
  }

  /** Drops the oldest entry of `q`: the queue leaves the victim's index set and the victim loses its status. */
  function EvictFront(t: Tables, q: Queue): Tables
    requires q in t.queues
  {
    if t.queues[q] == [] then t
    else
      var victim := t.queues[q][0].id;
      Tables(t.queues[q := t.queues[q][1..]],
             if victim in t.index then t.index[victim := t.index[victim] - {q}] else t.index,
             t.status - {victim})
  }

  function PushOne(t: Tables, max: nat, q: Queue, e: Entry): Tables {
    if q !in t.queues then t
    else
      var t1 := if |t.queues[q]| >= max then EvictFront(t, q) else t;
      t1.(queues := t1.queues[q := t1.queues[q] + [e]])
  }

  function PushAll(t: Tables, max: nat, targets: seq<Queue>, e: Entry): Tables {
    if targets == [] then t
    else PushOne(PushAll(t, max, targets[..|targets| - 1], e), max, targets[|targets| - 1], e)
  }

  /** The index set collected while pushing. */
  function Routed(t: Tables, targets: seq<Queue>): set<Queue> {
    set q | q in targets && q in t.queues
  }

  /** The three table updates of an accepted publish. */
  function Enqueue(t: Tables, max: nat, targets: seq<Queue>, e: Entry, now: Time): Tables {
    var t1 := PushAll(t, max, targets, e);
    Tables(t1.queues, t1.index[e.id := Routed(t, targets)], t1.status[e.id := Sent(now)])
  }

  function IsOpen(channels: map<ChannelId, Channel>, c: ChannelId): bool {
    c in channels && channels[c].open
  }

  /** The consumers that survive a notification: the closed ones are dropped. */
  function Live(channels: map<ChannelId, Channel>, cs: seq<ChannelId>): seq<ChannelId> {
    if cs == [] then []
    else
      var rest := Live(channels, cs[..|cs| - 1]);
      if IsOpen(channels, cs[|cs| - 1]) then rest + [cs[|cs| - 1]] else rest
  }

  /** Sends `e` once to every listed channel that is open. */
  function SendEach(channels: map<ChannelId, Channel>, cs: seq<ChannelId>, e: Entry): map<ChannelId, Channel> {
    if cs == [] then channels
    else
      var sent := SendEach(channels, cs[..|cs| - 1], e);
      var c := cs[|cs| - 1];
      if IsOpen(sent, c) then sent[c := Channel(true, sent[c].items + [e])] else sent
  }

  function NotifyQueue(s: State, q: Queue, e: Entry): State {
    if q !in s.consumers then s
    else s.(consumers := s.consumers[q := Live(s.channels, s.consumers[q])],
            channels := SendEach(s.channels, s.consumers[q], e))
  }

  function NotifyAll(s: State, targets: seq<Queue>, e: Entry): State {
    if targets == [] then s
    else NotifyQueue(NotifyAll(s, targets[..|targets| - 1], e), targets[|targets| - 1], e)
  }

  function Publish(s: State, x: Exchange, k: Key, m: Message, saved: bool, stamp: nat, now: Time): State {
    if PublishOutcome(s, x, k, m, saved) != Accepted then s
    else
      var targets := Targets(s, x, k);
      var e := Entry(m.messageId, m, stamp);
      NotifyAll(s.(tables := Enqueue(s.tables, s.maxQueueSize, targets, e, now)), targets, e)
  }

  // ----- Removal

  /** The entries whose id is not in `ids`, in order (`retain`). */
  function Without(es: seq<Entry>, ids: set<Id>): seq<Entry> {
    if es == [] then []
    else
      var rest := Without(es[..|es| - 1], ids);
      if es[|es| - 1].id in ids then rest else rest + [es[|es| - 1]]
  }

  /** The ids of `ids` that the index places in `q`. */
  function Listed(index: map<Id, set<Queue>>, ids: set<Id>, q: Queue): set<Id> {
    set m | m in ids && m in index && q in index[m]
  }

  /** Removal through the index: each id leaves the queues of its index set, then the index and the status. */
  function RemoveIds(t: Tables, ids: set<Id>): Tables {
    Tables(map q | q in t.queues :: Without(t.queues[q], Listed(t.index, ids, q)),
           t.index - ids,
           t.status - ids)
  }

  function Acknowledge(t: Tables, m: Id): Tables {
    if m in t.status then RemoveIds(t, {m}) else t
  }

  /** Delivered more than `maxAge` before `now` and still unacknowledged. */
  predicate Expired(st: Status, now: Time, maxAge: nat) {
    st.deliveredTime.Some? && now - st.deliveredTime.value > maxAge && st.acknowledgedTime.None?
  }

  function ExpiredIds(t: Tables, now: Time, maxAge: nat): set<Id> {
    set m | m in t.status && Expired(t.status[m], now, maxAge)
  }

  function Sweep(t: Tables, now: Time, maxAge: nat): Tables {
    RemoveIds(t, ExpiredIds(t, now, maxAge))
  }

  /** The delivery loop's mark: the first delivery of a status sets its time. */
  function MarkStatus(status: map<Id, Status>, m: Id, now: Time): map<Id, Status> {
    if m in status && status[m].deliveredTime.None?
    then status[m := status[m].(deliveredTime := Some(now))]
    else status
  }

  function MarkDelivered(t: Tables, m: Id, now: Time): Tables {
    t.(status := MarkStatus(t.status, m, now))
  }

  // ----- Consumers

  function RegisterConsumer(s: State, q: Queue, c: ChannelId): State {
    var s1 := DeclareQueue(s, q);
    var listed := if q in s1.consumers then s1.consumers[q] else [];
    s1.(consumers := s1.consumers[q := listed + [c]])
  }

  /** The entries a new consumer is sent: those queued whose message can still be delivered. */
  function Deliverable(t: Tables, es: seq<Entry>): seq<Entry> {
    if es == [] then []
    else
      var rest := Deliverable(t, es[..|es| - 1]);
      var last := es[|es| - 1];
      if last.id in t.status && t.status[last.id].CanDeliver() then rest + [last] else rest
  }

  /** One sweep over the consumer lists: closed consumers go, and so do the lists left empty. */
  function SweepConsumers(s: State): State {
    s.(consumers := map q | q in s.consumers && Live(s.channels, s.consumers[q]) != [] ::
                      Live(s.channels, s.consumers[q]))
  }
}
