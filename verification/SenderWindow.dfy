/** The sender's window over the real wires and broker, in its main sending loop. */
module SenderWindow {
  import opened Broker
  import opened BrokerRuns
  import opened Sender
  import opened EndToEnd

  /** The main sending loop: every message has a fresh id and nothing is sent twice. */
  predicate Fresh(n: Net, move: Move) {
    && (move.Sending? && move.step.Acquire? ==> forall c :: c in n.sent ==> IdOf(c) != IdOf(move.step.cmd))
    && !move.Resend?
  }

  ghost predicate FreshRuns(max: nat, n: Net, moves: seq<Move>, r: Net)
    decreases |moves|
  {
    if moves == [] then r == n
    else
      && EndToEnd.Enabled(max, n, moves[0]) && Fresh(n, moves[0])
      && FreshRuns(max, EndToEnd.Next(max, n, moves[0]), moves[1..], r)
  }

  predicate Fails(move: Move) {
    move.Sending? && move.step.WriteFailed?
  }

  predicate WritesSucceed(moves: seq<Move>) {
    forall i :: 0 <= i < |moves| ==> !Fails(moves[i])
  }

  predicate InUp(up: seq<Cmd>, id: Id) {
    exists i :: 0 <= i < |up| && IdOf(up[i]) == id
  }

  /** Every command and every acknowledgement on a wire belongs to a pending id, and no id travels twice. */
  ghost predicate OneEach(pending: map<Id, Cmd>, up: seq<Cmd>, down: seq<Reply>) {
    && (forall i :: 0 <= i < |up| ==> IdOf(up[i]) in pending)
    && (forall i :: 0 <= i < |down| && down[i].AckOf? ==> down[i].id in pending)
    && (forall i, j :: 0 <= i < j < |up| ==> IdOf(up[i]) != IdOf(up[j]))
    && (forall i, j :: 0 <= i < j < |down| && down[i].AckOf? && down[j].AckOf? ==> down[i].id != down[j].id)
    && (forall i, j :: 0 <= i < |up| && 0 <= j < |down| && down[j].AckOf? ==> IdOf(up[i]) != down[j].id)
  }

  ghost predicate FreshHand(sender: Pipeline, sent: set<Cmd>) {
    && (forall id :: id in sender.pending ==> exists c :: c in sent && IdOf(c) == id)
    && (sender.hand.Holding? ==> forall c :: c in sent ==> IdOf(c) != IdOf(sender.hand.cmd))
  }

  /** The stored message is pending and not on a wire yet, and no write has failed. */
  ghost predicate HandOk(hand: Hand, pending: map<Id, Cmd>, up: seq<Cmd>, down: seq<Reply>) {
    && !hand.Failing? && !hand.Dropping?
    && (hand.Stored? ==> IdOf(hand.cmd) in pending && !InUp(up, IdOf(hand.cmd)) && AckOf(IdOf(hand.cmd)) !in down)
  }

  ghost predicate Window(n: Net) {
    && OneEach(n.sender.pending, n.up, n.down)
    && FreshHand(n.sender, n.sent)
    && HandOk(n.sender.hand, n.sender.pending, n.up, n.down)
  }

  lemma StoreFresh(s: Pipeline, sent: set<Cmd>)
    requires FreshHand(s, sent) && s.hand.Holding?
    ensures FreshHand(Sender.Next(s, Store), sent + {s.hand.cmd}) && IdOf(s.hand.cmd) !in s.pending
  {
    var cmd, r, sent' := s.hand.cmd, Sender.Next(s, Store), sent + {s.hand.cmd};
    forall id | id in r.pending ensures exists c :: c in sent' && IdOf(c) == id {
      if id == IdOf(cmd) {
        assert cmd in sent';
      } else {
        var c :| c in sent && IdOf(c) == id;
        assert c in sent';
      }
    }
  }

  lemma SentWindow(pending: map<Id, Cmd>, up: seq<Cmd>, down: seq<Reply>, cmd: Cmd)
    requires OneEach(pending, up, down) && HandOk(Stored(cmd), pending, up, down)
    ensures OneEach(pending, up + [cmd], down)
  {
  }

  lemma SendingWindow(max: nat, n: Net, step: Step, arrives: bool)
    requires Window(n) && Local(step) && Sender.Enabled(n.sender, step) && Fresh(n, Sending(step, arrives))
    requires !step.WriteFailed?
    ensures Window(EndToEnd.Next(max, n, Sending(step, arrives))) && Drift(n.sender, step) == 0
  {
    assert n.sent + {} == n.sent && n.up + [] == n.up;
    match step {
      case Acquire(_) =>
      case Store => StoreFresh(n.sender, n.sent);
      case Written => SentWindow(n.sender.pending, n.up, n.down, n.sender.hand.cmd);
      case Release =>
      case CollectUnacked =>
    }
  }

  lemma ReplyWires(pending: map<Id, Cmd>, up: seq<Cmd>, down: seq<Reply>)
    requires OneEach(pending, up, down) && down != []
    ensures OneEach(if down[0].AckOf? then pending - {down[0].id} else pending, up, down[1..])
  {
    var rest := down[1..];
    assert forall i :: 0 <= i < |rest| ==> rest[i] == down[i + 1];
  }

  lemma ReplyWindow(max: nat, n: Net)
    requires Window(n) && EndToEnd.Enabled(max, n, ReadReply)
    ensures Window(EndToEnd.Next(max, n, ReadReply)) && Drift(n.sender, Reading(n.down[0])) == 0
  {
    ReplyWires(n.sender.pending, n.up, n.down);
    assert n.down[0] in n.down;
  }

  /** A command leaves the wire and at most its own acknowledgement enters the other. */
  lemma AnsweredWires(hand: Hand, pending: map<Id, Cmd>, up: seq<Cmd>, down: seq<Reply>, more: seq<Reply>)
    requires OneEach(pending, up, down) && HandOk(hand, pending, up, down) && up != []
    requires more == [] || more == [Refusal] || more == [AckOf(IdOf(up[0]))]
    ensures OneEach(pending, up[1..], down + more) && HandOk(hand, pending, up[1..], down + more)
  {
    var rest := up[1..];
    assert forall i :: 0 <= i < |rest| ==> rest[i] == up[i + 1];
    assert IdOf(up[0]) == IdOf(up[0]) && InUp(up, IdOf(up[0]));
  }

  lemma NextWindow(max: nat, n: Net, move: Move)
    requires Window(n) && EndToEnd.Enabled(max, n, move) && Fresh(n, move) && !Fails(move)
    ensures Window(EndToEnd.Next(max, n, move))
    ensures InUse(EndToEnd.Next(max, n, move).sender) == InUse(n.sender)
  {
    match move {
      case Sending(step, arrives) =>
        SendingWindow(max, n, step, arrives);
        StepDrift(n.sender, step);
      case ReadReply =>
        ReplyWindow(max, n);
        StepDrift(n.sender, Reading(n.down[0]));
      case Serve(saved, now, answered) =>
        AnsweredWires(n.sender.hand, n.sender.pending, n.up, n.down,
                      Answer(Run(max, n.ops), PubOf(n.up[0], saved, now), answered));
      case Refuse(answered) =>
        AnsweredWires(n.sender.hand, n.sender.pending, n.up, n.down, if answered then [Refusal] else []);
        assert n.down + [] == n.down;
      case _ =>
    }
  }

  lemma {:induction false} CleanRunWindow(max: nat, n: Net, moves: seq<Move>, r: Net)
    requires Window(n) && FreshRuns(max, n, moves, r) && WritesSucceed(moves)
    ensures Window(r) && InUse(r.sender) == InUse(n.sender)
    decreases |moves|
  {
    if moves == [] {
    } else {
      NextWindow(max, n, moves[0]);
      CleanRunWindow(max, EndToEnd.Next(max, n, moves[0]), moves[1..], r);
    }
  }

  /** A step of the main loop never shrinks the window. */
  lemma NextLoose(max: nat, n: Net, move: Move)
    requires FreshHand(n.sender, n.sent) && EndToEnd.Enabled(max, n, move) && Fresh(n, move)
    ensures var r := EndToEnd.Next(max, n, move);
      && FreshHand(r.sender, r.sent)
      && InUse(r.sender) >= InUse(n.sender) + (if move.Sending? && move.step.AddBack? then 1 else 0)
      && (r.sender.hand.Failing? ==> Fails(move) || n.sender.hand.Failing?)
      && (n.sender.hand.Failing? && !r.sender.hand.Failing? ==> move.Sending? && move.step.AddBack?)
  {
    match move {
      case Sending(step, _) =>
        assert n.sent + {} == n.sent;
        StepDrift(n.sender, step);
        if step.Store? {
          StoreFresh(n.sender, n.sent);
        }
      case ReadReply => StepDrift(n.sender, Reading(n.down[0]));
      case _ =>
    }
  }

  lemma {:induction false} FreshRunLoose(max: nat, n: Net, moves: seq<Move>, r: Net)
    requires FreshHand(n.sender, n.sent) && FreshRuns(max, n, moves, r)
    ensures InUse(r.sender) >= InUse(n.sender)
    ensures (n.sender.hand.Failing? || !WritesSucceed(moves)) && !r.sender.hand.Failing? ==>
      InUse(r.sender) > InUse(n.sender)
    decreases |moves|
  {
    if moves == [] {
    } else {
      var n' := EndToEnd.Next(max, n, moves[0]);
      NextLoose(max, n, moves[0]);
      FreshRunLoose(max, n', moves[1..], r);
      assert Fails(moves[0]) ==> n'.sender.hand.Failing?;
      assert WritesSucceed(moves) <==> !Fails(moves[0]) && WritesSucceed(moves[1..]) by {
        assert forall i :: 0 < i < |moves| ==> moves[i] == moves[1..][i - 1];
      }
    }
  }

  /** In every interleaving of the main loop with fresh ids, whatever the server refuses: free permits, pending
      entries and permits in transit add up to at least `max_inflight`; to exactly that while no write or flush has
      failed, so that no more than `max_inflight` messages are pending; and to more once a failure has been dealt
      with. */
  lemma WindowConservedIff(max: nat, inflight: nat, moves: seq<Move>, n: Net)
    requires FreshRuns(max, Begin(inflight), moves, n)
    ensures InUse(n.sender) >= inflight
    ensures WritesSucceed(moves) ==> InUse(n.sender) == inflight && |n.sender.pending| <= inflight
    ensures !n.sender.hand.Failing? ==> (InUse(n.sender) == inflight <==> WritesSucceed(moves))
  {
    FreshRunLoose(max, Begin(inflight), moves, n);
    if WritesSucceed(moves) {
      CleanRunWindow(max, Begin(inflight), moves, n);
    }
  }

  /** A failed write returns two permits for the one it took. */
  lemma FailureReturnsTwo(max: nat, n: Net) returns (moves: seq<Move>, r: Net)
    requires n.sender.hand.Stored?
    ensures moves == [Sending(WriteFailed, false), Sending(AddBack, false), Sending(DropOwned, false)]
    ensures FreshRuns(max, n, moves, r)
    ensures r.sender.permits == n.sender.permits + 2 && r.sender.hand == Ready
    ensures r.sender.releasing == n.sender.releasing
    ensures r.sender.pending == n.sender.pending - {IdOf(n.sender.hand.cmd)}
  {
    var n1 := EndToEnd.Next(max, n, Sending(WriteFailed, false));
    var n2 := EndToEnd.Next(max, n1, Sending(AddBack, false));
    r := EndToEnd.Next(max, n2, Sending(DropOwned, false));
    moves := FreshCons(max, n2, Sending(DropOwned, false), [], r);
    moves := FreshCons(max, n1, Sending(AddBack, false), moves, r);
    moves := FreshCons(max, n, Sending(WriteFailed, false), moves, r);
  }

  /** One failed write: the window has grown by one. */
  lemma FailedWriteGrows(max: nat, inflight: nat, cmd: Cmd) returns (moves: seq<Move>, n: Net)
    requires inflight > 0
    ensures moves == [Sending(Acquire(cmd), false), Sending(Store, false), Sending(WriteFailed, false),
                      Sending(AddBack, false), Sending(DropOwned, false)]
    ensures FreshRuns(max, Begin(inflight), moves, n)
    ensures n.sender.permits == inflight + 1 && n.sender.pending == map[] && InUse(n.sender) == inflight + 1
  {
    var n0 := Begin(inflight);
    var n1 := EndToEnd.Next(max, n0, Sending(Acquire(cmd), false));
    var n2 := EndToEnd.Next(max, n1, Sending(Store, false));
    moves, n := FailureReturnsTwo(max, n2);
    moves := FreshCons(max, n1, Sending(Store, false), moves, n);
    moves := FreshCons(max, n0, Sending(Acquire(cmd), false), moves, n);
  }

  lemma FreshCons(max: nat, n: Net, move: Move, moves: seq<Move>, r: Net) returns (all: seq<Move>)
    requires EndToEnd.Enabled(max, n, move) && Fresh(n, move) && FreshRuns(max, EndToEnd.Next(max, n, move), moves, r)
    ensures all == [move] + moves && FreshRuns(max, n, all, r)
  {
    all := [move] + moves;
    assert all[1..] == moves;
  }
}
