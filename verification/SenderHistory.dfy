/** The sender's records and its two wires in terms of the moves of a run: what is stored, pending and failed, what the
    server is given to serve, and what it answers. */
module SenderHistory {
  import opened Prelude
  import opened Broker
  import opened BrokerRuns
  import opened Publishing
  import opened Sender
  import opened EndToEnd

  // ----- Stored, pending and failed

  /** The move puts `cmd` in the pending map. */
  predicate Stores(n: Net, move: Move, cmd: Cmd) {
    move.Sending? && move.step.Store? && n.sender.hand == Holding(cmd)
  }

  /** The move takes `id` out of the pending map: its write failed, or its acknowledgement is read. */
  predicate Settles(n: Net, move: Move, id: Id) {
    || (move.Sending? && move.step.WriteFailed? && n.sender.hand.Stored? && IdOf(n.sender.hand.cmd) == id)
    || (move.ReadReply? && n.down != [] && n.down[0] == AckOf(id))
  }

  /** The move records `id` as failed: its write failed, or it is still pending when the sending is over. */
  predicate RecordsFailure(n: Net, move: Move, id: Id) {
    && move.Sending?
    && ((move.step.WriteFailed? && n.sender.hand.Stored? && IdOf(n.sender.hand.cmd) == id)
        || (move.step.CollectUnacked? && id in n.sender.pending))
  }

  lemma RecordsStep(max: nat, n: Net, move: Move, id: Id)
    requires EndToEnd.Enabled(max, n, move)
    ensures var r := EndToEnd.Next(max, n, move);
      id in r.sender.failed <==> id in n.sender.failed || RecordsFailure(n, move, id)
  {
    if move.Sending? && move.step.CollectUnacked? {
      PendingIdsAll(n.sender.pending);
    }
  }

  lemma StoresStep(max: nat, n: Net, move: Move, cmd: Cmd)
    requires EndToEnd.Enabled(max, n, move)
    ensures cmd in EndToEnd.Next(max, n, move).sent <==> cmd in n.sent || Stores(n, move, cmd)
  {
  }

  lemma PendingStep(max: nat, n: Net, move: Move, id: Id)
    requires EndToEnd.Enabled(max, n, move)
    ensures var r := EndToEnd.Next(max, n, move).sender;
      && (forall cmd :: Stores(n, move, cmd) && IdOf(cmd) == id ==> id in r.pending && r.pending[id] == cmd)
      && ((forall cmd :: Stores(n, move, cmd) ==> IdOf(cmd) != id) ==>
            (id in r.pending <==> id in n.sender.pending && !Settles(n, move, id)))
      && ((forall cmd :: Stores(n, move, cmd) ==> IdOf(cmd) != id) && id in r.pending ==>
            id in n.sender.pending && r.pending[id] == n.sender.pending[id])
  {
    if move.Sending? && move.step.Store? {
      assert Stores(n, move, n.sender.hand.cmd);
    }
  }

  /** The commands ever stored are those of the moves that stored one. */
  lemma {:induction false} SentByRun(max: nat, inflight: nat, states: seq<Net>, moves: seq<Move>, cmd: Cmd, k: nat)
    requires EndToEnd.Trace(max, inflight, states, moves) && k <= |moves|
    ensures cmd in states[k].sent <==> exists i: nat :: i < k && Stores(states[i], moves[i], cmd)
  {
    if k == 0 {
    } else {
      SentByRun(max, inflight, states, moves, cmd, k - 1);
      assert MoveAt(max, states, moves, k - 1);
      StoresStep(max, states[k - 1], moves[k - 1], cmd);
    }
  }

  /** Over every run an id counts as failed exactly when a write of it failed or it was pending when the sender gave up
      waiting. */
  lemma {:induction false} FailedByRun(max: nat, inflight: nat, states: seq<Net>, moves: seq<Move>, id: Id, k: nat)
    requires EndToEnd.Trace(max, inflight, states, moves) && k <= |moves|
    ensures id in states[k].sender.failed <==> exists i: nat :: i < k && RecordsFailure(states[i], moves[i], id)
  {
    if k == 0 {
    } else {
      FailedByRun(max, inflight, states, moves, id, k - 1);
      assert MoveAt(max, states, moves, k - 1);
      RecordsStep(max, states[k - 1], moves[k - 1], id);
    }
  }

  predicate StoresAt(states: seq<Net>, moves: seq<Move>, cmd: Cmd, i: nat) {
    i < |moves| <= |states| && Stores(states[i], moves[i], cmd)
  }

  /** Move `i` stored `cmd`, and up to `k` no other move has stored its id or settled it. */
  ghost predicate PendingSince(states: seq<Net>, moves: seq<Move>, cmd: Cmd, i: nat, k: nat)
    requires k <= |moves| < |states|
  {
    && i < k && StoresAt(states, moves, cmd, i)
    && (forall j: nat, c: Cmd :: i < j < k && StoresAt(states, moves, c, j) ==> IdOf(c) != IdOf(cmd))
    && (forall j: nat :: i < j < k ==> !Settles(states[j], moves[j], IdOf(cmd)))
  }

  lemma StillPending(states: seq<Net>, moves: seq<Move>, id: Id, j: nat, k: nat)
    requires j < |moves| < |states| && k == j + 1
    requires forall c :: Stores(states[j], moves[j], c) ==> IdOf(c) != id
    ensures forall c, i: nat :: IdOf(c) == id ==>
      (PendingSince(states, moves, c, i, k) <==>
         PendingSince(states, moves, c, i, j) && !Settles(states[j], moves[j], id))
  {
  }

  /** Over every run an id is pending, with the command last stored for it, exactly when no failed write and no
      acknowledgement has settled it since. */
  lemma {:induction false} PendingByRun(max: nat, inflight: nat, states: seq<Net>, moves: seq<Move>, id: Id, k: nat)
    requires EndToEnd.Trace(max, inflight, states, moves) && k <= |moves|
    ensures id in states[k].sender.pending ==>
      IdOf(states[k].sender.pending[id]) == id
      && exists i: nat :: PendingSince(states, moves, states[k].sender.pending[id], i, k)
    ensures forall cmd, i: nat :: PendingSince(states, moves, cmd, i, k) && IdOf(cmd) == id ==>
      id in states[k].sender.pending && states[k].sender.pending[id] == cmd
  {
    if k == 0 {
    } else {
      var n, move := states[k - 1], moves[k - 1];
      assert MoveAt(max, states, moves, k - 1);
      PendingByRun(max, inflight, states, moves, id, k - 1);
      PendingStep(max, n, move, id);
      if cmd :| Stores(n, move, cmd) && IdOf(cmd) == id {
        assert StoresAt(states, moves, cmd, k - 1) && PendingSince(states, moves, cmd, k - 1, k);
      } else {
        StillPending(states, moves, id, k - 1, k);
      }
    }
  }

  // ----- The wire to the server

  /** What a move puts on the wire: a command whose write succeeded or failed only after it, or one sent again. */
  function PutUp(n: Net, move: Move): seq<Cmd> {
    match move
    case Sending(Written, _) => if n.sender.hand.Stored? then [n.sender.hand.cmd] else []
    case Sending(WriteFailed, arrives) => if n.sender.hand.Stored? && arrives then [n.sender.hand.cmd] else []
    case Resend(cmd) => [cmd]
    case _ => []
  }

  /** The server takes a command from the wire. */
  predicate TakesUp(move: Move) {
    move.Serve? || move.Refuse?
  }

  /** What it answers: an acknowledgement only if the id is unknown, the row is saved and some queue is bound. */
  ghost function PutDown(max: nat, n: Net, move: Move): seq<Reply> {
    if n.up == [] then []
    else
      var s, c := Run(max, n.ops), n.up[0];
      match move
      case Serve(saved, _, true) =>
        if c.message.messageId !in s.tables.status && saved && Routable(s, c.exchange, c.key)
        then [AckOf(c.message.messageId)] else [Refusal]
      case Refuse(true) => [Refusal]
      case _ => []
  }

  function AllUp(states: seq<Net>, moves: seq<Move>, k: nat): seq<Cmd>
    requires k <= |moves| <= |states|
  {
    if k == 0 then [] else AllUp(states, moves, k - 1) + PutUp(states[k - 1], moves[k - 1])
  }

  ghost function AllDown(max: nat, states: seq<Net>, moves: seq<Move>, k: nat): seq<Reply>
    requires k <= |moves| <= |states|
  {
    if k == 0 then [] else AllDown(max, states, moves, k - 1) + PutDown(max, states[k - 1], moves[k - 1])
  }

  /** How many of the first `k` moves the predicate holds of. */
  function Number(moves: seq<Move>, p: Move -> bool, k: nat): nat
    requires k <= |moves|
  {
    if k == 0 then 0 else Number(moves, p, k - 1) + if p(moves[k - 1]) then 1 else 0
  }

  /** `now` is all but the first `taken` of what was ever put on the wire. */
  predicate Rest<T(==)>(all: seq<T>, taken: nat, now: seq<T>) {
    taken <= |all| && now == all[taken..]
  }

  lemma RestMore<T>(all: seq<T>, taken: nat, now: seq<T>, more: seq<T>)
    requires Rest(all, taken, now)
    ensures Rest(all + more, taken, now + more)
    ensures now != [] ==> Rest(all, taken + 1, now[1..]) && Rest(all + more, taken + 1, now[1..] + more)
    ensures now != [] ==> now[0] == all[taken]
  {
  }

  lemma WiresStep(max: nat, n: Net, move: Move)
    requires EndToEnd.Enabled(max, n, move)
    ensures TakesUp(move) ==> n.up != []
    ensures move.ReadReply? ==> n.down != []
    ensures var r := EndToEnd.Next(max, n, move);
      && r.up == (if TakesUp(move) then n.up[1..] else n.up) + PutUp(n, move)
      && r.down == (if move.ReadReply? then n.down[1..] else n.down) + PutDown(max, n, move)
  {
    if move.Serve? {
      PublishAnswers(Run(max, n.ops), n.up[0].exchange, n.up[0].key, n.up[0].message, move.saved);
    }
    assert n.up + [] == n.up && n.down + [] == n.down;
  }

  /** Over every run the server takes the commands in the order they were put on the wire, each once. */
  lemma {:induction false} UpInOrder(max: nat, inflight: nat, states: seq<Net>, moves: seq<Move>, k: nat)
    requires EndToEnd.Trace(max, inflight, states, moves) && k <= |moves|
    ensures Rest(AllUp(states, moves, k), Number(moves, TakesUp, k), states[k].up)
  {
    if k == 0 {
    } else {
      UpInOrder(max, inflight, states, moves, k - 1);
      assert MoveAt(max, states, moves, k - 1);
      WiresStep(max, states[k - 1], moves[k - 1]);
      RestMore(AllUp(states, moves, k - 1), Number(moves, TakesUp, k - 1), states[k - 1].up,
               PutUp(states[k - 1], moves[k - 1]));
    }
  }

  predicate ReadsReply(move: Move) {
    move.ReadReply?
  }

  /** Over every run the sender reads the server's answers in the order they were given, each once. */
  lemma {:induction false} DownInOrder(max: nat, inflight: nat, states: seq<Net>, moves: seq<Move>, k: nat)
    requires EndToEnd.Trace(max, inflight, states, moves) && k <= |moves|
    ensures Rest(AllDown(max, states, moves, k), Number(moves, ReadsReply, k), states[k].down)
  {
    if k == 0 {
    } else {
      DownInOrder(max, inflight, states, moves, k - 1);
      assert MoveAt(max, states, moves, k - 1);
      WiresStep(max, states[k - 1], moves[k - 1]);
      RestMore(AllDown(max, states, moves, k - 1), Number(moves, ReadsReply, k - 1), states[k - 1].down,
               PutDown(max, states[k - 1], moves[k - 1]));
    }
  }

  /** A serve is the publish of the command whose turn it is, as the sender put it on the wire. */
  lemma ServesInTurn(max: nat, inflight: nat, states: seq<Net>, moves: seq<Move>, k: nat)
    requires EndToEnd.Trace(max, inflight, states, moves) && k < |moves| && moves[k].Serve?
    ensures Number(moves, TakesUp, k) < |AllUp(states, moves, k)|
    ensures var c := AllUp(states, moves, k)[Number(moves, TakesUp, k)];
      states[k + 1].ops == states[k].ops + [Pub(c.exchange, c.key, c.message, moves[k].saved, moves[k].now)]
  {
    UpInOrder(max, inflight, states, moves, k);
    assert MoveAt(max, states, moves, k);
    RestMore(AllUp(states, moves, k), Number(moves, TakesUp, k), states[k].up, []);
  }
}
