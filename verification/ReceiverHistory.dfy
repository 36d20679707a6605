/** The receiver's connection in terms of the moves of a run: which frames it is given, which ids it counts as processed
    and which acknowledgements reach the server. */
module ReceiverHistory {
  import opened Broker
  import opened BrokerRuns
  import opened EndToEnd
  import opened SenderHistory

  // ----- What it counts as processed

  /** Move `i` processed a frame of `id`, and up to `k` the receiver has not reconnected since. */
  ghost predicate ProcessedSince(states: seq<Net>, moves: seq<Move>, id: Id, i: nat, k: nat)
    requires k <= |moves| < |states|
  {
    i < k && Processes(states[i], moves[i], id) && forall j: nat :: i < j < k ==> !moves[j].Reconnect?
  }

  lemma ProcessedStep(max: nat, n: Net, move: Move, id: Id)
    requires EndToEnd.Enabled(max, n, move)
    ensures id in EndToEnd.Next(max, n, move).processed <==>
      Processes(n, move, id) || (id in n.processed && !move.Reconnect?)
  {
  }

  lemma StillProcessed(states: seq<Net>, moves: seq<Move>, id: Id, j: nat, k: nat)
    requires j < |moves| < |states| && k == j + 1
    ensures forall i: nat :: i < j ==>
      (ProcessedSince(states, moves, id, i, k) <==> ProcessedSince(states, moves, id, i, j) && !moves[j].Reconnect?)
  {
  }

  /** Over every run an id counts as processed exactly when a frame of it was processed on the present connection. */
  lemma {:induction false} ProcessedByRun(max: nat, inflight: nat, states: seq<Net>, moves: seq<Move>, id: Id, k: nat)
    requires EndToEnd.Trace(max, inflight, states, moves) && k <= |moves|
    ensures id in states[k].processed <==> exists i: nat :: ProcessedSince(states, moves, id, i, k)
  {
    if k == 0 {
    } else {
      ProcessedByRun(max, inflight, states, moves, id, k - 1);
      assert MoveAt(max, states, moves, k - 1);
      ProcessedStep(max, states[k - 1], moves[k - 1], id);
      StillProcessed(states, moves, id, k - 1, k);
      assert Processes(states[k - 1], moves[k - 1], id) <==> ProcessedSince(states, moves, id, k - 1, k);
    }
  }

  // ----- Frames

  /** What was delivered on the present connection. */
  function AllFrames(moves: seq<Move>, k: nat): seq<Message>
    requires k <= |moves|
  {
    if k == 0 then []
    else
      match moves[k - 1]
      case Deliver(m) => AllFrames(moves, k - 1) + [m]
      case Reconnect => []
      case _ => AllFrames(moves, k - 1)
  }

  /** How many frames were read on it. */
  function FramesRead(moves: seq<Move>, k: nat): nat
    requires k <= |moves|
  {
    if k == 0 then 0
    else
      match moves[k - 1]
      case Receive(_, _) => FramesRead(moves, k - 1) + 1
      case Reconnect => 0
      case _ => FramesRead(moves, k - 1)
  }

  lemma FramesStep(max: nat, n: Net, move: Move)
    requires EndToEnd.Enabled(max, n, move)
    ensures move.Receive? ==> n.frames != []
    ensures EndToEnd.Next(max, n, move).frames ==
      match move
      case Deliver(m) => n.frames + [m]
      case Receive(_, _) => n.frames[1..]
      case Reconnect => []
      case _ => n.frames
  {
  }

  /** Over every run the receiver reads the frames of a connection in the order they were delivered, each once, and none
      of an earlier connection. */
  lemma {:induction false} FramesInOrder(max: nat, inflight: nat, states: seq<Net>, moves: seq<Move>, k: nat)
    requires EndToEnd.Trace(max, inflight, states, moves) && k <= |moves|
    ensures Rest(AllFrames(moves, k), FramesRead(moves, k), states[k].frames)
  {
    if k == 0 {
    } else {
      FramesInOrder(max, inflight, states, moves, k - 1);
      assert MoveAt(max, states, moves, k - 1);
      FramesStep(max, states[k - 1], moves[k - 1]);
      RestMore(AllFrames(moves, k - 1), FramesRead(moves, k - 1), states[k - 1].frames,
               if moves[k - 1].Deliver? then [moves[k - 1].message] else []);
    }
  }

  // ----- Acknowledgements

  /** The id a move processes, if it does. */
  function NewlyProcessed(n: Net, move: Move): seq<Id> {
    if n.frames != [] && Processes(n, move, n.frames[0].messageId) then [n.frames[0].messageId] else []
  }

  function AllAcks(states: seq<Net>, moves: seq<Move>, k: nat): seq<Id>
    requires k <= |moves| <= |states|
  {
    if k == 0 then [] else AllAcks(states, moves, k - 1) + NewlyProcessed(states[k - 1], moves[k - 1])
  }

  /** An acknowledgement leaves: it reaches the server or is lost on the way. */
  predicate AckLeaves(move: Move) {
    move.AckArrives? || move.AckLost?
  }

  lemma AcksStep(max: nat, n: Net, move: Move)
    requires EndToEnd.Enabled(max, n, move)
    ensures AckLeaves(move) ==> n.acks != []
    ensures EndToEnd.Next(max, n, move).acks ==
      (if AckLeaves(move) then n.acks[1..] else n.acks) + NewlyProcessed(n, move)
  {
    assert n.acks + [] == n.acks;
  }

  /** Over every run the acknowledgements under way are those of the processed frames, in order, less those that have
      left. */
  lemma {:induction false} AcksInOrder(max: nat, inflight: nat, states: seq<Net>, moves: seq<Move>, k: nat)
    requires EndToEnd.Trace(max, inflight, states, moves) && k <= |moves|
    ensures Rest(AllAcks(states, moves, k), Number(moves, AckLeaves, k), states[k].acks)
  {
    if k == 0 {
    } else {
      AcksInOrder(max, inflight, states, moves, k - 1);
      assert MoveAt(max, states, moves, k - 1);
      AcksStep(max, states[k - 1], moves[k - 1]);
      RestMore(AllAcks(states, moves, k - 1), Number(moves, AckLeaves, k - 1), states[k - 1].acks,
               NewlyProcessed(states[k - 1], moves[k - 1]));
    }
  }

  /** The acknowledgement that arrives is the one whose turn it is, and the broker acknowledges that id. */
  lemma AcknowledgesInTurn(max: nat, inflight: nat, states: seq<Net>, moves: seq<Move>, k: nat)
    requires EndToEnd.Trace(max, inflight, states, moves) && k < |moves| && moves[k].AckArrives?
    ensures Number(moves, AckLeaves, k) < |AllAcks(states, moves, k)|
    ensures states[k + 1].ops == states[k].ops + [Ack(AllAcks(states, moves, k)[Number(moves, AckLeaves, k)])]
  {
    AcksInOrder(max, inflight, states, moves, k);
    assert MoveAt(max, states, moves, k);
    RestMore(AllAcks(states, moves, k), Number(moves, AckLeaves, k), states[k].acks, []);
  }
}
