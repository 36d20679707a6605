/** Sender, wires, broker and receiver together: one sender publishing over its connection, one receiver, and one broker
    that also serves everyone else. */
module EndToEnd {
  import opened Prelude
  import opened Broker
  import opened BrokerIndex
  import opened BrokerRuns
  import opened BrokerHistory
  import opened Sender

  datatype Reply = AckOf(id: Id) | Refusal

  datatype Net = Net(
    sender: Pipeline,
    sent: set<Cmd>,          // every command ever put in the pending map
    up: seq<Cmd>,
    down: seq<Reply>,
    ops: seq<Op>,            // everything the broker has done; its state is their run
    frames: seq<Message>,
    processed: set<Id>,      // the receiver's ids of this connection
    handed: set<Message>,    // what the receiver's storage task has taken, on any connection
    acks: seq<Id>)

  function Begin(maxInflight: nat): Net {
    Net(Start(maxInflight), {}, [], [], [], [], {}, {}, [])
  }

  datatype Move =
    | Sending(step: Step, arrives: bool)  // after a failed write the command may still reach the server
    | ReadReply
    | Resend(cmd: Cmd)
    | Serve(saved: bool, now: Time, answered: bool)
    | Refuse(answered: bool)              // rate limit, permissions or a malformed payload
    | Deliver(message: Message)
    | Receive(opens: bool, taken: bool)   // `taken`: the storage task takes the message
    | Reconnect
    | AckArrives
    | AckLost
    | Others(op: Op)                      // all other clients, timers and sessions

  // ----- Acceptance

  ghost predicate Known(max: nat, ops: seq<Op>, m: Message) {
    exists i: nat :: AcceptedAt(max, ops, m.messageId, i) && ops[i].message == m
  }

  /** Step `i` of the broker accepted one of `sent`, carrying `id`. */
  predicate OwnAt(max: nat, ops: seq<Op>, sent: set<Cmd>, id: Id, i: nat) {
    AcceptedAt(max, ops, id, i) && Cmd(ops[i].x, ops[i].k, ops[i].message) in sent
  }

  ghost predicate Accepted(max: nat, ops: seq<Op>, sent: set<Cmd>, id: Id) {
    exists i: nat :: OwnAt(max, ops, sent, id, i)
  }

  lemma AcceptedStays(max: nat, ops: seq<Op>, more: seq<Op>, sent: set<Cmd>, sent': set<Cmd>, id: Id)
    requires Accepted(max, ops, sent, id) && sent <= sent'
    ensures Accepted(max, ops + more, sent', id)
  {
    var i: nat :| OwnAt(max, ops, sent, id, i);
    assert (ops + more)[..i] == ops[..i];
    assert OwnAt(max, ops + more, sent', id, i);
  }

  lemma KnownStays(max: nat, ops: seq<Op>, op: Op, m: Message)
    requires Known(max, ops, m)
    ensures Known(max, ops + [op], m)
  {
    var i: nat :| AcceptedAt(max, ops, m.messageId, i) && ops[i].message == m;
    assert (ops + [op])[..i] == ops[..i];
    assert AcceptedAt(max, ops + [op], m.messageId, i) && (ops + [op])[i].message == m;
  }

  lemma AcceptedNow(max: nat, ops: seq<Op>, op: Op, sent: set<Cmd>)
    requires Accepts(Run(max, ops), op) && Cmd(op.x, op.k, op.message) in sent
    ensures Accepted(max, ops + [op], sent, op.message.messageId)
  {
    assert (ops + [op])[..|ops|] == ops;
    assert OwnAt(max, ops + [op], sent, op.message.messageId, |ops|);
  }

  // ----- Moves

  predicate Local(step: Step) {
    !step.AckLine? && !step.OtherLine?
  }

  ghost predicate Enabled(max: nat, n: Net, move: Move) {
    match move
    case Sending(step, _) => Local(step) && Sender.Enabled(n.sender, step)
    case ReadReply => n.down != [] && !n.sender.releasing
    case Resend(cmd) => n.sender.hand.Ready? && cmd in n.sent && IdOf(cmd) in n.sender.failed
    case Serve(_, _, _) => n.up != []
    case Refuse(_) => n.up != []
    case Deliver(m) => CanPass(Run(max, n.ops).tables, m.messageId) && Known(max, n.ops, m)
    case Receive(_, _) => n.frames != []
    case Reconnect => true
    case AckArrives => n.acks != []
    case AckLost => n.acks != []
    case Others(_) => true
  }

  /** The delivery gate. */
  predicate CanPass(t: Tables, id: Id) {
    id in t.status && t.status[id].CanDeliver()
  }

  function Reading(reply: Reply): Step {
    match reply
    case AckOf(id) => AckLine(id)
    case Refusal => OtherLine
  }

  function PubOf(cmd: Cmd, saved: bool, now: Time): Op {
    Pub(cmd.exchange, cmd.key, cmd.message, saved, now)
  }

  function Answer(s: State, op: Op, answered: bool): seq<Reply>
    requires op.Pub?
  {
    if !answered then [] else if Accepts(s, op) then [AckOf(op.message.messageId)] else [Refusal]
  }

  /** What a step of the sending loop puts on the wire. */
  function Wired(s: Pipeline, step: Step, arrives: bool): seq<Cmd>
    requires Sender.Enabled(s, step)
  {
    if step.Written? || (step.WriteFailed? && arrives) then [s.hand.cmd] else []
  }

  function NowStored(s: Pipeline, step: Step): set<Cmd>
    requires Sender.Enabled(s, step)
  {
    if step.Store? then {s.hand.cmd} else {}
  }

  ghost function Next(max: nat, n: Net, move: Move): Net
    requires Enabled(max, n, move)
  {
    match move
    case Sending(step, arrives) =>
      n.(sender := Sender.Next(n.sender, step), sent := n.sent + NowStored(n.sender, step),
         up := n.up + Wired(n.sender, step, arrives))
    case ReadReply => n.(sender := Sender.Next(n.sender, Reading(n.down[0])), down := n.down[1..])
    case Resend(cmd) => n.(up := n.up + [cmd])
    case Serve(saved, now, answered) =>
      var op := PubOf(n.up[0], saved, now);
      n.(up := n.up[1..], ops := n.ops + [op], down := n.down + Answer(Run(max, n.ops), op, answered))
    case Refuse(answered) => n.(up := n.up[1..], down := if answered then n.down + [Refusal] else n.down)
    case Deliver(m) => n.(frames := n.frames + [m])
    case Receive(opens, taken) =>
      var m, rest := n.frames[0], n.(frames := n.frames[1..]);
      if !opens || m.messageId in n.processed then rest
      else rest.(processed := n.processed + {m.messageId}, handed := if taken then n.handed + {m} else n.handed,
                 acks := n.acks + [m.messageId])
    case Reconnect => n.(processed := {}, frames := [])
    case AckArrives => n.(acks := n.acks[1..], ops := n.ops + [Ack(n.acks[0])])
    case AckLost => n.(acks := n.acks[1..])
    case Others(op) => n.(ops := n.ops + [op])
  }

  ghost predicate Runs(max: nat, n: Net, moves: seq<Move>, r: Net)
    decreases |moves|
  {
    if moves == [] then r == n else Enabled(max, n, moves[0]) && Runs(max, Next(max, n, moves[0]), moves[1..], r)
  }

  // ----- The invariant

  ghost predicate SenderOk(max: nat, sender: Pipeline, sent: set<Cmd>, ops: seq<Op>) {
    && (sender.hand.Stored? ==> sender.hand.cmd in sent)
    && (forall c :: c in sent ==>
          IdOf(c) in sender.pending || IdOf(c) in sender.failed || Accepted(max, ops, sent, IdOf(c)))
  }

  ghost predicate WiresOk(max: nat, up: seq<Cmd>, down: seq<Reply>, sent: set<Cmd>, ops: seq<Op>) {
    && (forall c :: c in up ==> c in sent)
    && (forall id :: AckOf(id) in down ==> Accepted(max, ops, sent, id))
  }

  ghost predicate ReceiverOk(max: nat, frames: seq<Message>, handed: set<Message>, ops: seq<Op>) {
    forall m :: m in frames || m in handed ==> Known(max, ops, m)
  }

  ghost predicate Inv(max: nat, n: Net) {
    && SenderOk(max, n.sender, n.sent, n.ops)
    && WiresOk(max, n.up, n.down, n.sent, n.ops)
    && ReceiverOk(max, n.frames, n.handed, n.ops)
  }

  lemma OpsGrow(max: nat, n: Net, op: Op)
    requires Inv(max, n)
    ensures Inv(max, n.(ops := n.ops + [op]))
  {
    forall id | Accepted(max, n.ops, n.sent, id) ensures Accepted(max, n.ops + [op], n.sent, id) {
      AcceptedStays(max, n.ops, [op], n.sent, n.sent, id);
    }
    forall m | Known(max, n.ops, m) ensures Known(max, n.ops + [op], m) {
      KnownStays(max, n.ops, op, m);
    }
  }

  lemma StoreKeeps(max: nat, n: Net, arrives: bool)
    requires Inv(max, n) && n.sender.hand.Holding?
    ensures Inv(max, Next(max, n, Sending(Store, arrives)))
  {
    var sent' := n.sent + {n.sender.hand.cmd};
    forall id | Accepted(max, n.ops, n.sent, id) ensures Accepted(max, n.ops, sent', id) {
      AcceptedStays(max, n.ops, [], n.sent, sent', id);
      assert n.ops + [] == n.ops;
    }
  }

  lemma SendingKeeps(max: nat, n: Net, step: Step, arrives: bool)
    requires Inv(max, n) && Local(step) && Sender.Enabled(n.sender, step)
    ensures Inv(max, Next(max, n, Sending(step, arrives)))
  {
    assert n.sent + {} == n.sent && n.up + [] == n.up;
    match step {
      case Acquire(_) =>
      case Store => StoreKeeps(max, n, arrives);
      case Written =>
      case WriteFailed =>
      case AddBack =>
      case DropOwned =>
      case Release =>
      case CollectUnacked => PendingIdsAll(n.sender.pending);
    }
  }

  lemma ServeKeeps(max: nat, n: Net, saved: bool, now: Time, answered: bool)
    requires Inv(max, n) && n.up != []
    ensures Inv(max, Next(max, n, Serve(saved, now, answered)))
  {
    var op := PubOf(n.up[0], saved, now);
    OpsGrow(max, n, op);
    assert n.up[0] in n.sent;
    if Accepts(Run(max, n.ops), op) {
      AcceptedNow(max, n.ops, op, n.sent);
    }
    AnswerKeeps(max, n.up, n.down, Answer(Run(max, n.ops), op, answered), n.sent, n.ops + [op]);
  }

  lemma AnswerKeeps(max: nat, up: seq<Cmd>, down: seq<Reply>, more: seq<Reply>, sent: set<Cmd>, ops: seq<Op>)
    requires WiresOk(max, up, down, sent, ops) && up != []
    requires forall id :: AckOf(id) in more ==> Accepted(max, ops, sent, id)
    ensures WiresOk(max, up[1..], down + more, sent, ops)
  {
  }

  lemma NextKeeps(max: nat, n: Net, move: Move)
    requires Inv(max, n) && Enabled(max, n, move)
    ensures Inv(max, Next(max, n, move))
  {
    match move {
      case Sending(step, arrives) => SendingKeeps(max, n, step, arrives);
      case ReadReply => assert n.down[0] in n.down;
      case Serve(saved, now, answered) => ServeKeeps(max, n, saved, now, answered);
      case AckArrives => OpsGrow(max, n, Ack(n.acks[0]));
      case Others(op) => OpsGrow(max, n, op);
      case Receive(_, _) => assert n.frames[0] in n.frames;
      case _ =>
    }
  }

  lemma {:induction false} RunKeeps(max: nat, n: Net, moves: seq<Move>, r: Net)
    requires Inv(max, n) && Runs(max, n, moves, r)
    ensures Inv(max, r)
    decreases |moves|
  {
    if moves == [] {
    } else {
      NextKeeps(max, n, moves[0]);
      RunKeeps(max, Next(max, n, moves[0]), moves[1..], r);
    }
  }

  // ----- Publish safety

  /** An accepted message really is in a queue: it is the newest entry of every queue it was routed to, and there is
      one. */
  lemma AcceptedLands(max: nat, ops: seq<Op>, i: nat)
    requires i < |ops| && Accepts(Run(max, ops[..i]), ops[i])
    ensures var s, r := Run(max, ops[..i]), Run(max, ops[..i + 1]).tables;
      && Route(s, ops[i]) != []
      && (forall q :: q in Route(s, ops[i]) ==>
            q in r.queues && r.queues[q] != [] && r.queues[q][|r.queues[q]| - 1] == NewEntry(ops[i], i))
  {
    var s, op := Run(max, ops[..i]), ops[i];
    assert ops[..i + 1][..i] == ops[..i];
    RunSound(max, ops[..i]);
    ApplyTables(s, op, i);
    TargetsOk(s, op.x, op.k);
    PushAllEffect(s.tables, s.maxQueueSize, Route(s, op), NewEntry(op, i));
  }

  /** The publish at step `i` left its message as the newest entry of `q`. */
  predicate InQueue(max: nat, ops: seq<Op>, i: nat, q: Queue) {
    && i < |ops| && ops[i].Pub?
    && var queues := Run(max, ops[..i + 1]).tables.queues;
      q in queues && queues[q] != [] && queues[q][|queues[q]| - 1] == NewEntry(ops[i], i)
  }

  lemma LandsSomewhere(max: nat, ops: seq<Op>, i: nat) returns (q: Queue)
    requires i < |ops| && Accepts(Run(max, ops[..i]), ops[i])
    ensures InQueue(max, ops, i, q)
  {
    AcceptedLands(max, ops, i);
    var route := Route(Run(max, ops[..i]), ops[i]);
    q := route[0];
    assert q in route;
  }

  /** Publish safety: an id the sender stored and no longer holds as pending is recorded as failed, or the broker
      accepted the sender's own command for it and put the message at the end of at least one queue. */
  lemma PublishSafety(max: nat, inflight: nat, moves: seq<Move>, n: Net, cmd: Cmd)
    requires Runs(max, Begin(inflight), moves, n)
    requires cmd in n.sent && IdOf(cmd) !in n.sender.pending && IdOf(cmd) !in n.sender.failed
    ensures exists i: nat, q :: OwnAt(max, n.ops, n.sent, IdOf(cmd), i) && InQueue(max, n.ops, i, q)
  {
    RunKeeps(max, Begin(inflight), moves, n);
    var i: nat :| OwnAt(max, n.ops, n.sent, IdOf(cmd), i);
    var q := LandsSomewhere(max, n.ops, i);
  }

  // ----- Loss

  /** The message has a status and is in every queue of its latest route, of which there is one. */
  ghost predicate StillHeld(max: nat, ops: seq<Op>, id: Id) {
    && id in Run(max, ops).tables.status
    && LatestRoute(max, ops, id) != {}
    && (forall q :: q in LatestRoute(max, ops, id) ==>
          q in Run(max, ops).tables.queues && id in Ids(Run(max, ops).tables.queues[q]))
  }

  /** An id the sender stored and no longer holds as pending or failed is still in every queue its latest publish was
      routed to, or the first thing to release that publish was an eviction, an expiry or an acknowledgement. */
  lemma OwnFate(max: nat, n: Net, cmd: Cmd)
    requires Inv(max, n) && cmd in n.sent && IdOf(cmd) !in n.sender.pending && IdOf(cmd) !in n.sender.failed
    ensures StillHeld(max, n.ops, IdOf(cmd)) <==> FateOf(max, n.ops, IdOf(cmd)).Held?
    ensures FateOf(max, n.ops, IdOf(cmd)).Held? || Over(FateOf(max, n.ops, IdOf(cmd)))
  {
    var id := IdOf(cmd);
    var i: nat :| OwnAt(max, n.ops, n.sent, id, i);
    KnownIs(max, n.ops, id);
    FateIs(max, n.ops, id);
    if id in Run(max, n.ops).tables.status {
      AllOrNothing(max, n.ops, id);
    }
  }

  /** The message of the latest acceptance of `id` has reached the receiver's storage. */
  predicate Handed(max: nat, n: Net, id: Id) {
    var m := LatestMessage(max, n.ops, id);
    m.Some? && m.value in n.handed
  }

  /** No message whose latest acceptance ended in an acknowledgement is missing from the receiver's storage. */
  ghost predicate NothingLost(max: nat, n: Net) {
    forall id :: FateOf(max, n.ops, id).Acknowledged? ==> Handed(max, n, id)
  }

  /** An acknowledgement that takes effect finds its message handed over. It can be checked before the move. */
  predicate Backed(max: nat, n: Net, move: Move)
    requires move.AckArrives? ==> n.acks != []
  {
    && (move.AckArrives? ==> AckBacked(max, n, n.acks[0]))
    && (move.Others? && move.op.Ack? ==> AckBacked(max, n, move.op.m))
  }

  predicate AckBacked(max: nat, n: Net, id: Id) {
    id in Run(max, n.ops).tables.status ==> Handed(max, n, id)
  }

  lemma FateSnoc(max: nat, ops: seq<Op>, op: Op, id: Id)
    ensures FateOf(max, ops + [op], id) == NextFate(FateOf(max, ops, id), Run(max, ops), op, id)
    ensures LatestMessage(max, ops + [op], id)
         == if AcceptsId(Run(max, ops), op, id) then Some(op.message) else LatestMessage(max, ops, id)
  {
    assert (ops + [op])[..|ops|] == ops;
  }

  lemma OpLoses(max: nat, n: Net, op: Op)
    requires NothingLost(max, n)
    ensures NothingLost(max, n.(ops := n.ops + [op])) <==> (op.Ack? ==> AckBacked(max, n, op.m))
  {
    var n' := n.(ops := n.ops + [op]);
    forall id
      ensures FateOf(max, n'.ops, id).Acknowledged? && !Handed(max, n', id) <==>
        op == Ack(id) && id in Run(max, n.ops).tables.status && !Handed(max, n, id)
    {
      FateSnoc(max, n.ops, op, id);
      FateIs(max, n.ops, id);
      assert FateOf(max, n.ops, id).Acknowledged? ==> Handed(max, n, id);
    }
  }

  lemma MoveLoses(max: nat, n: Net, move: Move)
    requires NothingLost(max, n) && Enabled(max, n, move)
    ensures NothingLost(max, Next(max, n, move)) <==> Backed(max, n, move)
  {
    var n' := Next(max, n, move);
    match move {
      case Serve(saved, now, answered) => OpLoses(max, n, PubOf(n.up[0], saved, now));
      case AckArrives => OpLoses(max, n, Ack(n.acks[0]));
      case Others(op) => OpLoses(max, n, op);
      case Receive(_, _) =>
        assert n'.ops == n.ops && n.handed <= n'.handed;
      case _ =>
        assert n'.ops == n.ops && n'.handed == n.handed;
    }
    SameSafe(max, n, n');
  }

  lemma SameSafe(max: nat, n: Net, n': Net)
    requires NothingLost(max, n)
    ensures n'.ops == n.ops && n.handed <= n'.handed ==> NothingLost(max, n')
    ensures forall r: Net ::
      r.ops == n'.ops && r.handed == n'.handed ==> (NothingLost(max, r) <==> NothingLost(max, n'))
  {
  }

  // ----- Runs with their states

  ghost predicate MoveAt(max: nat, states: seq<Net>, moves: seq<Move>, k: nat)
    requires k < |moves| && |states| == |moves| + 1
  {
    Enabled(max, states[k], moves[k]) && states[k + 1] == Next(max, states[k], moves[k])
  }

  /** A run from the start, with all the states it passes through. */
  ghost predicate Trace(max: nat, inflight: nat, states: seq<Net>, moves: seq<Move>) {
    && |states| == |moves| + 1 && states[0] == Begin(inflight)
    && forall k: nat :: k < |moves| ==> MoveAt(max, states, moves, k)
  }

  /** Every run has its states. */
  lemma {:induction false} RunHasTrace(max: nat, n: Net, moves: seq<Move>, r: Net) returns (states: seq<Net>)
    requires Runs(max, n, moves, r)
    ensures |states| == |moves| + 1 && states[0] == n && states[|moves|] == r
    ensures forall k: nat :: k < |moves| ==> MoveAt(max, states, moves, k)
    decreases |moves|
  {
    if moves == [] {
      states := [n];
    } else {
      var rest := RunHasTrace(max, Next(max, n, moves[0]), moves[1..], r);
      states := [n] + rest;
      forall k: nat | k < |moves| ensures MoveAt(max, states, moves, k) {
        if k > 0 {
          assert MoveAt(max, rest, moves[1..], k - 1);
        }
      }
    }
  }

  lemma {:induction false} TraceInv(max: nat, inflight: nat, states: seq<Net>, moves: seq<Move>, k: nat)
    requires Trace(max, inflight, states, moves) && k <= |moves|
    ensures Inv(max, states[k])
  {
    if k == 0 {
    } else {
      TraceInv(max, inflight, states, moves, k - 1);
      assert MoveAt(max, states, moves, k - 1);
      NextKeeps(max, states[k - 1], moves[k - 1]);
    }
  }

  // ----- What the receiver has done

  /** The receiver processes a frame of `id`: it opens, and its id is new on this connection. */
  predicate Processes(n: Net, move: Move, id: Id) {
    move.Receive? && move.opens && n.frames != [] && n.frames[0].messageId == id && id !in n.processed
  }

  /** ... and the storage task takes the message. */
  predicate Takes(n: Net, move: Move, m: Message) {
    Processes(n, move, m.messageId) && n.frames[0] == m && move.taken
  }

  /** Some move before `k` put `m` in the receiver's storage. */
  ghost predicate TakenBy(states: seq<Net>, moves: seq<Move>, k: nat, m: Message)
    requires k <= |moves| <= |states|
  {
    exists i: nat :: i < k && Takes(states[i], moves[i], m)
  }

  lemma {:induction false} HandedByRun(max: nat, inflight: nat, states: seq<Net>, moves: seq<Move>, m: Message, k: nat)
    requires Trace(max, inflight, states, moves) && k <= |moves|
    ensures m in states[k].handed <==> TakenBy(states, moves, k, m)
  {
    if k == 0 {
    } else {
      HandedByRun(max, inflight, states, moves, m, k - 1);
      assert MoveAt(max, states, moves, k - 1);
      assert m in states[k].handed <==> m in states[k - 1].handed || Takes(states[k - 1], moves[k - 1], m);
    }
  }

  lemma {:induction false} StaysProcessed(max: nat, inflight: nat, states: seq<Net>, moves: seq<Move>, id: Id,
                                          j: nat, k: nat)
    requires Trace(max, inflight, states, moves) && j <= k <= |moves| && id in states[j].processed
    requires forall i: nat :: j <= i < k ==> !moves[i].Reconnect?
    ensures id in states[k].processed
  {
    if j == k {
    } else {
      StaysProcessed(max, inflight, states, moves, id, j, k - 1);
      assert MoveAt(max, states, moves, k - 1);
    }
  }

  /** Move `k` queues an acknowledgement of `id`. */
  predicate QueuesAck(states: seq<Net>, k: nat, id: Id) {
    k + 1 < |states| && states[k + 1].acks == states[k].acks + [id]
  }

  lemma OnlyProcessingQueues(max: nat, n: Net, move: Move, id: Id)
    requires Enabled(max, n, move) && Next(max, n, move).acks == n.acks + [id]
    ensures Processes(n, move, id) && id in Next(max, n, move).processed
  {
    assert |Next(max, n, move).acks| == |n.acks| + 1 && Next(max, n, move).acks[|n.acks|] == id;
  }

  /** Whatever is delivered on it, a connection queues at most one acknowledgement of each id. */
  lemma AcknowledgedOncePerConnection(max: nat, inflight: nat, states: seq<Net>, moves: seq<Move>, id: Id, j: nat,
                                      k: nat)
    requires Trace(max, inflight, states, moves) && j < k < |moves|
    requires QueuesAck(states, j, id) && QueuesAck(states, k, id)
    ensures exists i: nat :: j < i < k && moves[i].Reconnect?
  {
    assert MoveAt(max, states, moves, j) && MoveAt(max, states, moves, k);
    OnlyProcessingQueues(max, states[j], moves[j], id);
    OnlyProcessingQueues(max, states[k], moves[k], id);
    if forall i: nat :: j < i < k ==> !moves[i].Reconnect? {
      StaysProcessed(max, inflight, states, moves, id, j + 1, k);
    }
  }

  // ----- Exactly when a message is lost

  /** After `k` moves the latest acceptance of `id` has ended in an acknowledgement, and no move has put its message
      in the receiver's storage. */
  ghost predicate LostAt(max: nat, states: seq<Net>, moves: seq<Move>, k: nat, id: Id)
    requires k <= |moves| < |states|
  {
    && FateOf(max, states[k].ops, id).Acknowledged?
    && var m := LatestMessage(max, states[k].ops, id); m.Some? ==> !TakenBy(states, moves, k, m.value)
  }

  /** The move is an acknowledgement of `id`, from whatever client, and takes effect. */
  predicate Acknowledges(max: nat, n: Net, move: Move, id: Id) {
    && (move == Others(Ack(id)) || (move.AckArrives? && n.acks != [] && n.acks[0] == id))
    && id in Run(max, n.ops).tables.status
  }

  /** If move `k` is one, an earlier move put the message it removes in the receiver's storage. */
  ghost predicate BackedAt(max: nat, states: seq<Net>, moves: seq<Move>, k: nat)
    requires k < |moves| < |states|
  {
    forall id :: Acknowledges(max, states[k], moves[k], id) ==>
      var m := LatestMessage(max, states[k].ops, id); m.Some? && TakenBy(states, moves, k, m.value)
  }

  lemma LostIsHanded(max: nat, inflight: nat, states: seq<Net>, moves: seq<Move>, k: nat, id: Id)
    requires Trace(max, inflight, states, moves) && k <= |moves|
    ensures LostAt(max, states, moves, k, id) <==>
      FateOf(max, states[k].ops, id).Acknowledged? && !Handed(max, states[k], id)
  {
    KnownIs(max, states[k].ops, id);
    var m := LatestMessage(max, states[k].ops, id);
    if m.Some? {
      HandedByRun(max, inflight, states, moves, m.value, k);
    }
  }

  lemma BackedIsHanded(max: nat, inflight: nat, states: seq<Net>, moves: seq<Move>, k: nat)
    requires Trace(max, inflight, states, moves) && k < |moves|
    requires moves[k].AckArrives? ==> states[k].acks != []
    ensures BackedAt(max, states, moves, k) <==> Backed(max, states[k], moves[k])
  {
    var n, move := states[k], moves[k];
    forall id
      ensures var m := LatestMessage(max, n.ops, id);
        Handed(max, n, id) <==> m.Some? && TakenBy(states, moves, k, m.value)
    {
      var m := LatestMessage(max, n.ops, id);
      if m.Some? {
        HandedByRun(max, inflight, states, moves, m.value, k);
      }
    }
    if move.AckArrives? {
      assert Acknowledges(max, n, move, n.acks[0]) <==> n.acks[0] in Run(max, n.ops).tables.status;
    } else if move.Others? && move.op.Ack? {
      assert move == Others(Ack(move.op.m));
      assert Acknowledges(max, n, move, move.op.m) <==> move.op.m in Run(max, n.ops).tables.status;
    }
  }

  ghost predicate NeverLost(max: nat, states: seq<Net>, moves: seq<Move>, k: nat)
    requires k <= |moves| < |states|
  {
    forall i: nat, id :: i <= k ==> !LostAt(max, states, moves, i, id)
  }

  ghost predicate AlwaysBacked(max: nat, states: seq<Net>, moves: seq<Move>, k: nat)
    requires k <= |moves| < |states|
  {
    forall i: nat :: i < k ==> BackedAt(max, states, moves, i)
  }

  lemma LostNothing(max: nat, inflight: nat, states: seq<Net>, moves: seq<Move>, k: nat)
    requires Trace(max, inflight, states, moves) && k <= |moves|
    ensures NothingLost(max, states[k]) <==> forall id :: !LostAt(max, states, moves, k, id)
  {
    forall id
      ensures LostAt(max, states, moves, k, id) <==>
        FateOf(max, states[k].ops, id).Acknowledged? && !Handed(max, states[k], id)
    {
      LostIsHanded(max, inflight, states, moves, k, id);
    }
  }

  lemma {:induction false} LossFreeUpTo(max: nat, inflight: nat, states: seq<Net>, moves: seq<Move>, k: nat)
    requires Trace(max, inflight, states, moves) && k <= |moves|
    ensures NeverLost(max, states, moves, k) <==> AlwaysBacked(max, states, moves, k)
  {
    LostNothing(max, inflight, states, moves, k);
    if k == 0 {
    } else {
      LossFreeUpTo(max, inflight, states, moves, k - 1);
      if NeverLost(max, states, moves, k - 1) {
        LostNothing(max, inflight, states, moves, k - 1);
        assert MoveAt(max, states, moves, k - 1);
        MoveLoses(max, states[k - 1], moves[k - 1]);
        BackedIsHanded(max, inflight, states, moves, k - 1);
      }
      LossFreeStep(max, states, moves, k);
    }
  }

  lemma LossFreeStep(max: nat, states: seq<Net>, moves: seq<Move>, k: nat)
    requires 0 < k <= |moves| < |states|
    ensures NeverLost(max, states, moves, k) <==>
      NeverLost(max, states, moves, k - 1) && forall id :: !LostAt(max, states, moves, k, id)
    ensures AlwaysBacked(max, states, moves, k) <==>
      AlwaysBacked(max, states, moves, k - 1) && BackedAt(max, states, moves, k - 1)
  {
  }

  /** For every run: no message, whoever published it, is ever lost to an acknowledgement, if and only if every
      acknowledgement that takes effect, from whatever client, comes after a move that put the very message it removes
      in the receiver's storage. */
  lemma LossFreeIff(max: nat, inflight: nat, states: seq<Net>, moves: seq<Move>)
    requires Trace(max, inflight, states, moves)
    ensures NeverLost(max, states, moves, |moves|) <==> AlwaysBacked(max, states, moves, |moves|)
  {
    LossFreeUpTo(max, inflight, states, moves, |moves|);
  }

  /** What may have become of a command the sender has stored, after `k` moves. */
  ghost predicate Accounted(max: nat, states: seq<Net>, moves: seq<Move>, k: nat, id: Id)
    requires k <= |moves| < |states|
  {
    var n := states[k];
    || id in n.sender.pending || id in n.sender.failed || StillHeld(max, n.ops, id) || FateOf(max, n.ops, id).Dropped?
    || var m := LatestMessage(max, n.ops, id); m.Some? && TakenBy(states, moves, k, m.value)
  }

  /** Over every run, an id the sender stored is pending, recorded as failed, still in every queue its latest publish
      was routed to, evicted or expired since, put in the receiver's storage as last accepted, or lost to an
      acknowledgement; and the last excludes the others but for pending and failed. */
  lemma AccountedOrLost(max: nat, inflight: nat, states: seq<Net>, moves: seq<Move>, k: nat, cmd: Cmd)
    requires Trace(max, inflight, states, moves) && k <= |moves| && cmd in states[k].sent
    ensures Accounted(max, states, moves, k, IdOf(cmd)) || LostAt(max, states, moves, k, IdOf(cmd))
    ensures var n, id := states[k], IdOf(cmd);
      id !in n.sender.pending && id !in n.sender.failed ==>
        (Accounted(max, states, moves, k, id) <==> !LostAt(max, states, moves, k, id))
  {
    var n, id := states[k], IdOf(cmd);
    TraceInv(max, inflight, states, moves, k);
    if id !in n.sender.pending && id !in n.sender.failed {
      OwnFate(max, n, cmd);
      KnownIs(max, n.ops, id);
      FateIs(max, n.ops, id);
    }
  }

  /** No silent loss, where acknowledgements are backed. */
  lemma NoSilentLoss(max: nat, inflight: nat, states: seq<Net>, moves: seq<Move>, cmd: Cmd)
    requires Trace(max, inflight, states, moves) && AlwaysBacked(max, states, moves, |moves|)
    requires cmd in states[|moves|].sent
    ensures Accounted(max, states, moves, |moves|, IdOf(cmd))
  {
    LossFreeIff(max, inflight, states, moves);
    AccountedOrLost(max, inflight, states, moves, |moves|, cmd);
  }

  /** Nothing is put in storage that the broker did not accept, as it is. */
  lemma TakenWasAccepted(max: nat, inflight: nat, states: seq<Net>, moves: seq<Move>, m: Message)
    requires Trace(max, inflight, states, moves) && TakenBy(states, moves, |moves|, m)
    ensures exists i: nat :: AcceptedAt(max, states[|moves|].ops, m.messageId, i) && states[|moves|].ops[i].message == m
  {
    TraceInv(max, inflight, states, moves, |moves|);
    HandedByRun(max, inflight, states, moves, m, |moves|);
  }

  // ----- Runs in which acknowledgements are backed

  /** An id always names the same message. */
  ghost predicate OneMessageEach(max: nat, ops: seq<Op>) {
    forall a, b :: Known(max, ops, a) && Known(max, ops, b) && a.messageId == b.messageId ==> a == b
  }

  /** The storage task takes what it is handed, and only the receiver acknowledges. */
  predicate Careful(move: Move) {
    && (move.Receive? && move.opens ==> move.taken)
    && (move.Others? ==> !move.op.Ack?)
  }

  ghost predicate AllCareful(moves: seq<Move>) {
    forall i :: 0 <= i < |moves| ==> Careful(moves[i])
  }

  /** Whatever the receiver is about to acknowledge it has handed over. */
  ghost predicate AcksHanded(n: Net) {
    forall id :: id in n.acks ==> exists m :: m in n.handed && m.messageId == id
  }

  lemma AcksStayHanded(max: nat, n: Net, move: Move)
    requires AcksHanded(n) && Enabled(max, n, move) && Careful(move)
    ensures AcksHanded(Next(max, n, move))
  {
    var r := Next(max, n, move);
    assert n.handed <= r.handed;
    forall id | id in r.acks ensures exists m :: m in r.handed && m.messageId == id {
      if id in n.acks {
        var m :| m in n.handed && m.messageId == id;
        assert m in r.handed;
      } else {
        assert n.frames[0] in r.handed;
      }
    }
  }

  lemma {:induction false} CarefulAcksHanded(max: nat, inflight: nat, states: seq<Net>, moves: seq<Move>, k: nat)
    requires Trace(max, inflight, states, moves) && AllCareful(moves) && k <= |moves|
    ensures AcksHanded(states[k])
  {
    if k == 0 {
    } else {
      CarefulAcksHanded(max, inflight, states, moves, k - 1);
      assert MoveAt(max, states, moves, k - 1);
      AcksStayHanded(max, states[k - 1], moves[k - 1]);
    }
  }

  lemma CarefulIsBacked(max: nat, n: Net, move: Move)
    requires Inv(max, n) && AcksHanded(n) && OneMessageEach(max, n.ops) && Enabled(max, n, move) && Careful(move)
    ensures Backed(max, n, move)
  {
    if move.AckArrives? && n.acks[0] in Run(max, n.ops).tables.status {
      var id := n.acks[0];
      assert id in n.acks;
      var m :| m in n.handed && m.messageId == id;
      FateIs(max, n.ops, id);
      KnownIs(max, n.ops, id);
      assert Known(max, n.ops, LatestMessage(max, n.ops, id).value);
      assert Known(max, n.ops, m);
    }
  }

  /** What is known early in a run stays known. */
  lemma {:induction false} KnownLater(max: nat, inflight: nat, states: seq<Net>, moves: seq<Move>, j: nat, k: nat,
                                      m: Message)
    requires Trace(max, inflight, states, moves) && j <= k <= |moves| && Known(max, states[j].ops, m)
    ensures Known(max, states[k].ops, m)
  {
    if j == k {
    } else {
      KnownLater(max, inflight, states, moves, j, k - 1, m);
      assert MoveAt(max, states, moves, k - 1);
      OpsAfter(max, states[k - 1], moves[k - 1], m);
    }
  }

  lemma OpsAfter(max: nat, n: Net, move: Move, m: Message)
    requires Enabled(max, n, move) && Known(max, n.ops, m)
    ensures Known(max, Next(max, n, move).ops, m)
  {
    match move {
      case Serve(saved, now, _) => KnownStays(max, n.ops, PubOf(n.up[0], saved, now), m);
      case AckArrives => KnownStays(max, n.ops, Ack(n.acks[0]), m);
      case Others(op) => KnownStays(max, n.ops, op, m);
      case _ =>
    }
  }

  lemma OneMessageBefore(max: nat, inflight: nat, states: seq<Net>, moves: seq<Move>, k: nat)
    requires Trace(max, inflight, states, moves) && k <= |moves| && OneMessageEach(max, states[|moves|].ops)
    ensures OneMessageEach(max, states[k].ops)
  {
    forall a, b | Known(max, states[k].ops, a) && Known(max, states[k].ops, b) && a.messageId == b.messageId
      ensures a == b
    {
      KnownLater(max, inflight, states, moves, k, |moves|, a);
      KnownLater(max, inflight, states, moves, k, |moves|, b);
    }
  }

  /** If the storage task takes what it is handed, only the receiver acknowledges and no id is reused for another
      message, then every acknowledgement is backed. */
  lemma CarefulRunsAreBacked(max: nat, inflight: nat, states: seq<Net>, moves: seq<Move>)
    requires Trace(max, inflight, states, moves) && AllCareful(moves) && OneMessageEach(max, states[|moves|].ops)
    ensures AlwaysBacked(max, states, moves, |moves|)
  {
    forall k: nat | k < |moves| ensures BackedAt(max, states, moves, k) {
      assert MoveAt(max, states, moves, k);
      TraceInv(max, inflight, states, moves, k);
      CarefulAcksHanded(max, inflight, states, moves, k);
      OneMessageBefore(max, inflight, states, moves, k);
      CarefulIsBacked(max, states[k], moves[k]);
      BackedIsHanded(max, inflight, states, moves, k);
    }
  }

  /** In such a run nothing is lost: an id the sender stored is pending, recorded as failed, still in every queue it was
      routed to, evicted or expired, or the sender's own message is in the receiver's storage. */
  lemma CarefulNoSilentLoss(max: nat, inflight: nat, states: seq<Net>, moves: seq<Move>, cmd: Cmd)
    requires Trace(max, inflight, states, moves) && AllCareful(moves) && OneMessageEach(max, states[|moves|].ops)
    requires cmd in states[|moves|].sent
    ensures var n, id := states[|moves|], IdOf(cmd);
      || id in n.sender.pending || id in n.sender.failed || StillHeld(max, n.ops, id) || FateOf(max, n.ops, id).Dropped?
      || exists c :: c in n.sent && IdOf(c) == id && TakenBy(states, moves, |moves|, c.message)
  {
    var n, id := states[|moves|], IdOf(cmd);
    CarefulRunsAreBacked(max, inflight, states, moves);
    NoSilentLoss(max, inflight, states, moves, cmd);
    TraceInv(max, inflight, states, moves, |moves|);
    if id !in n.sender.pending && id !in n.sender.failed {
      var i: nat :| OwnAt(max, n.ops, n.sent, id, i);
      var c := Cmd(n.ops[i].x, n.ops[i].k, n.ops[i].message);
      KnownIs(max, n.ops, id);
      assert Known(max, n.ops, c.message);
      assert Known(max, n.ops, LatestMessage(max, n.ops, id).value);
    }
  }
}
