/** Three runs in which an acknowledged message is lost: another client acknowledges it, the receiver's storage task has
    stopped taking messages, or its id is reused while an acknowledgement is under way. */
module LossWitness {
  import opened Prelude
  import opened Broker
  import opened BrokerIndex
  import opened BrokerRuns
  import opened BrokerHistory
  import opened Sender
  import opened EndToEnd
  import BrokerWitness

  function Secret(): Message {
    Message("a", "", "", "", "")
  }

  function Sole(): Cmd {
    Cmd("x", "k", Secret())
  }

  function SetUp(): seq<Op> {
    [Declare("q"), DeclareX("x"), BindTo("q", "x", "k")]
  }

  function Publish(): Op {
    PubOf(Sole(), true, 0)
  }

  /** A network whose receiver has seen nothing. */
  function Quiet(sender: Pipeline, sent: set<Cmd>, up: seq<Cmd>, down: seq<Reply>, ops: seq<Op>): Net {
    Net(sender, sent, up, down, ops, [], {}, {}, [])
  }

  /** The message was published, acknowledged to the sender and is queued. */
  function Queued(): Net {
    Quiet(Sender.Start(1), {Sole()}, [], [], SetUp() + [Publish()])
  }

  lemma SetUpTargets()
    ensures Targets(Run(1, SetUp()), "x", "k") == ["q"]
  {
    BrokerWitness.RunTake(1, SetUp(), 0);
    BrokerWitness.RunTake(1, SetUp(), 1);
    BrokerWitness.RunTake(1, SetUp(), 2);
    assert SetUp()[..3] == SetUp();
    assert Run(1, SetUp()).bindings == map["x" := [("q", "k")]];
    assert Matching([("q", "k")], "k") == Matching([], "k") + ["q"];
  }

  lemma {:induction false} NothingPublished(max: nat, ops: seq<Op>, m: Id)
    requires forall i :: 0 <= i < |ops| ==> !ops[i].Pub?
    ensures FateOf(max, ops, m).Unknown?
  {
    if ops == [] {
    } else {
      NothingPublished(max, ops[..|ops| - 1], m);
    }
  }

  lemma SetUpTracksNothing(m: Id)
    ensures FateOf(1, SetUp(), m).Unknown? && m !in Run(1, SetUp()).tables.status
  {
    NothingPublished(1, SetUp(), m);
    FateIs(1, SetUp(), m);
  }

  lemma SetUpRoutes()
    ensures Accepts(Run(1, SetUp()), Publish())
  {
    SetUpTargets();
    SetUpTracksNothing("a");
  }

  lemma {:induction false} RunsSnoc(max: nat, n: Net, moves: seq<Move>, m: Net, move: Move)
    requires Runs(max, n, moves, m) && EndToEnd.Enabled(max, m, move)
    ensures Runs(max, n, moves + [move], EndToEnd.Next(max, m, move))
    decreases |moves|
  {
    if moves == [] {
      assert moves + [move] == [move];
    } else {
      RunsSnoc(max, EndToEnd.Next(max, n, moves[0]), moves[1..], m, move);
      assert (moves + [move])[1..] == moves[1..] + [move];
    }
  }

  lemma Sets() returns (moves: seq<Move>)
    ensures Runs(1, Begin(1), moves, Quiet(Sender.Start(1), {}, [], [], SetUp()))
  {
    var n := Begin(1);
    moves := [];
    RunsSnoc(1, Begin(1), moves, n, Others(Declare("q")));
    n, moves := EndToEnd.Next(1, n, Others(Declare("q"))), moves + [Others(Declare("q"))];
    RunsSnoc(1, Begin(1), moves, n, Others(DeclareX("x")));
    n, moves := EndToEnd.Next(1, n, Others(DeclareX("x"))), moves + [Others(DeclareX("x"))];
    RunsSnoc(1, Begin(1), moves, n, Others(BindTo("q", "x", "k")));
    n, moves := EndToEnd.Next(1, n, Others(BindTo("q", "x", "k"))), moves + [Others(BindTo("q", "x", "k"))];
    assert n.ops == SetUp();
  }

  /** The sender's first three steps put its command on the wire. */
  lemma Sends() returns (moves: seq<Move>)
    ensures Runs(1, Begin(1), moves,
                 Quiet(Pipeline(0, map["a" := Sole()], [], Ready, false), {Sole()}, [Sole()], [], SetUp()))
  {
    var n := Quiet(Sender.Start(1), {}, [], [], SetUp());
    moves := Sets();
    RunsSnoc(1, Begin(1), moves, n, Sending(Acquire(Sole()), false));
    n, moves := EndToEnd.Next(1, n, Sending(Acquire(Sole()), false)), moves + [Sending(Acquire(Sole()), false)];
    RunsSnoc(1, Begin(1), moves, n, Sending(Store, false));
    n, moves := EndToEnd.Next(1, n, Sending(Store, false)), moves + [Sending(Store, false)];
    RunsSnoc(1, Begin(1), moves, n, Sending(Written, false));
    n, moves := EndToEnd.Next(1, n, Sending(Written, false)), moves + [Sending(Written, false)];
    assert n.sent == {Sole()} && n.up == [Sole()];
  }

  lemma ReachesQueued() returns (moves: seq<Move>)
    ensures Runs(1, Begin(1), moves, Queued())
  {
    SetUpRoutes();
    var n := Quiet(Pipeline(0, map["a" := Sole()], [], Ready, false), {Sole()}, [Sole()], [], SetUp());
    moves := Sends();
    RunsSnoc(1, Begin(1), moves, n, Serve(true, 0, true));
    n, moves := EndToEnd.Next(1, n, Serve(true, 0, true)), moves + [Serve(true, 0, true)];
    assert n.down == [AckOf("a")] && n.up == [];
    RunsSnoc(1, Begin(1), moves, n, ReadReply);
    n, moves := EndToEnd.Next(1, n, ReadReply), moves + [ReadReply];
    assert n.sender.pending == map[] && n.down == [];
    RunsSnoc(1, Begin(1), moves, n, Sending(Release, false));
    n, moves := EndToEnd.Next(1, n, Sending(Release, false)), moves + [Sending(Release, false)];
    assert n.sent == {Sole()} && n.up == [];
  }

  lemma QueuedFate()
    ensures FateOf(1, Queued().ops, "a").Held? && LatestMessage(1, Queued().ops, "a") == Some(Secret())
    ensures "a" in Run(1, Queued().ops).tables.status
  {
    SetUpRoutes();
    FateSnoc(1, SetUp(), Publish(), "a");
    FateIs(1, Queued().ops, "a");
  }

  /** The sender is done with the id, the broker was told to forget it, and what it last accepted reached no storage. */
  predicate Lost(n: Net) {
    && Sole() in n.sent && "a" !in n.sender.pending && "a" !in n.sender.failed
    && FateOf(1, n.ops, "a").Acknowledged? && !Handed(1, n, "a")
  }

  /** Such a run, with its states. */
  ghost predicate Loses(states: seq<Net>, moves: seq<Move>) {
    Trace(1, 1, states, moves) && LostAt(1, states, moves, |moves|, "a") && Lost(states[|moves|])
  }

  lemma LosesAtEnd(moves: seq<Move>, n: Net) returns (states: seq<Net>)
    requires Runs(1, Begin(1), moves, n) && Lost(n)
    ensures Loses(states, moves)
  {
    states := RunHasTrace(1, Begin(1), moves, n);
    LostIsHanded(1, 1, states, moves, |moves|, "a");
  }

  lemma AckedAway(n: Net)
    requires n.sent == {Sole()} && n.sender == Sender.Start(1) && n.ops == Queued().ops + [Ack("a")] && n.handed == {}
    ensures Lost(n)
  {
    QueuedFate();
    FateSnoc(1, Queued().ops, Ack("a"), "a");
  }

  /** Any client may acknowledge any message. */
  lemma ForeignAckLoses() returns (moves: seq<Move>, states: seq<Net>)
    ensures Loses(states, moves + [Others(Ack("a"))]) && Runs(1, Begin(1), moves, Queued())
  {
    moves := ReachesQueued();
    RunsSnoc(1, Begin(1), moves, Queued(), Others(Ack("a")));
    var n := EndToEnd.Next(1, Queued(), Others(Ack("a")));
    AckedAway(n);
    states := LosesAtEnd(moves + [Others(Ack("a"))], n);
  }

  lemma DeliversSecret()
    ensures EndToEnd.Enabled(1, Queued(), Deliver(Secret()))
  {
    QueuedFate();
    KnownIs(1, Queued().ops, "a");
    FreshStatus();
  }

  /** A status just inserted can be delivered. */
  lemma FreshStatus()
    ensures CanPass(Run(1, Queued().ops).tables, "a")
  {
    SetUpRoutes();
    var ops := Queued().ops;
    assert ops[..3] == SetUp();
    ApplyTables(Run(1, SetUp()), Publish(), 3);
  }

  /** The message was delivered and opened, and its acknowledgement is under way. */
  function Opened(taken: bool): Net {
    Queued().(processed := {"a"}, handed := if taken then {Secret()} else {}, acks := ["a"])
  }

  lemma ReachesDelivered() returns (moves: seq<Move>)
    ensures Runs(1, Begin(1), moves + [Deliver(Secret())], Queued().(frames := [Secret()]))
  {
    moves := ReachesQueued();
    DeliversSecret();
    RunsSnoc(1, Begin(1), moves, Queued(), Deliver(Secret()));
    assert [] + [Secret()] == [Secret()];
  }

  lemma ReachesOpened(taken: bool) returns (moves: seq<Move>, all: seq<Move>)
    ensures all == moves + [Deliver(Secret())] + [Receive(true, taken)]
    ensures Runs(1, Begin(1), all, Opened(taken))
  {
    moves := ReachesDelivered();
    var n := Queued().(frames := [Secret()]);
    RunsSnoc(1, Begin(1), moves + [Deliver(Secret())], n, Receive(true, taken));
    all := moves + [Deliver(Secret())] + [Receive(true, taken)];
    assert EndToEnd.Next(1, n, Receive(true, taken)) == Opened(taken);
  }

  /** The receiver acknowledges a message its storage task did not take. */
  lemma FailedHandOffLoses() returns (moves: seq<Move>, states: seq<Net>)
    ensures Loses(states, moves + [Deliver(Secret())] + [Receive(true, false)] + [AckArrives])
  {
    var all;
    moves, all := ReachesOpened(false);
    RunsSnoc(1, Begin(1), all, Opened(false), AckArrives);
    var n := EndToEnd.Next(1, Opened(false), AckArrives);
    AckedAway(n);
    states := LosesAtEnd(all + [AckArrives], n);
  }

  // ----- An id used for two messages

  function Filler(): Op {
    Pub("x", "k", Message("b", "", "", "", ""), true, 1)
  }

  function Impostor(): Message {
    Message("a", "", "", "", "other")
  }

  function Reuse(): Op {
    Pub("x", "k", Impostor(), true, 2)
  }

  /** A publish changes no route. */
  lemma RouteStays(ops: seq<Op>, op: Op)
    requires op.Pub? && Targets(Run(1, ops), "x", "k") == ["q"]
    ensures Targets(Run(1, ops + [op]), "x", "k") == ["q"]
  {
    assert (ops + [op])[..|ops|] == ops;
    var s := Run(1, ops);
    if Accepts(s, op) {
      var targets, e := Route(s, op), NewEntry(op, |ops|);
      NotifyKeeps(s.(tables := Enqueue(s.tables, s.maxQueueSize, targets, e, op.now)), targets, e);
    }
  }

  /** A queue of size 1 holds what was last published to it. */
  lemma HoldsLast(ops: seq<Op>, op: Op)
    requires op.Pub? && op.x == "x" && op.k == "k" && Targets(Run(1, ops), "x", "k") == ["q"]
    requires Accepts(Run(1, ops), op)
    ensures var queues := Run(1, ops + [op]).tables.queues; "q" in queues && queues["q"] == [NewEntry(op, |ops|)]
  {
    var all := ops + [op];
    OneAtMost(all, "q");
    LandsInQ(ops, op, all);
  }

  lemma OneAtMost(ops: seq<Op>, q: Queue)
    ensures q in Run(1, ops).tables.queues ==> |Run(1, ops).tables.queues[q]| <= 1
  {
    QueueDiscipline(1, ops, q);
  }

  lemma LandsInQ(ops: seq<Op>, op: Op, all: seq<Op>)
    requires op.Pub? && op.x == "x" && op.k == "k" && Targets(Run(1, ops), "x", "k") == ["q"]
    requires Accepts(Run(1, ops), op)
    requires all == ops + [op]
    ensures var queues := Run(1, all).tables.queues;
      "q" in queues && queues["q"] != [] && queues["q"][|queues["q"]| - 1] == NewEntry(op, |ops|)
  {
    assert all[..|ops|] == ops && all[..|ops| + 1] == all && all[|ops|] == op;
    AcceptedLands(1, all, |ops|);
    assert ["q"][0] in Route(Run(1, ops), op);
  }

  /** ... and the next publish evicts it. */
  lemma NextEvicts(s: State, op: Op, m: Id)
    requires Accepts(s, op) && Route(s, op) == ["q"] && s.maxQueueSize == 1
    requires "q" in s.tables.queues && |s.tables.queues["q"]| == 1 && s.tables.queues["q"][0].id == m
    ensures Releases(s, op, m)
  {
    assert Full(s.tables, 1, "q") && ["q"][0] in Route(s, op);
    assert m in Victims(s.tables, s.maxQueueSize, Route(s, op));
  }

  lemma QueuedRoute()
    ensures Targets(Run(1, Queued().ops), "x", "k") == ["q"] && Targets(Run(1, SetUp()), "x", "k") == ["q"]
  {
    SetUpRoutes();
    SetUpTargets();
    RouteStays(SetUp(), Publish());
  }

  /** "b" evicts the message with id "a". */
  lemma FillerEvicts()
    ensures FateOf(1, Queued().ops + [Filler()], "a").Dropped?
    ensures Targets(Run(1, Queued().ops + [Filler()]), "x", "k") == ["q"]
  {
    QueuedRoute();
    SetUpRoutes();
    QueuedFate();
    var ops := Queued().ops;
    assert "a"[0] != "b"[0];
    NotThere(ops, "b");
    assert Accepts(Run(1, ops), Filler());
    HoldsLast(SetUp(), Publish());
    RunSound(1, ops);
    NextEvicts(Run(1, ops), Filler(), "a");
    FateSnoc(1, ops, Filler(), "a");
    RouteStays(ops, Filler());
  }

  /** Only "a" was ever accepted. */
  lemma NotThere(ops: seq<Op>, m: Id)
    requires ops == Queued().ops && m != "a"
    ensures m !in Run(1, ops).tables.status
  {
    SetUpTracksNothing(m);
    FateSnoc(1, SetUp(), Publish(), m);
    FateIs(1, ops, m);
  }

  /** Another message takes the id "a". */
  lemma Reused()
    ensures var ops := Queued().ops + [Filler()] + [Reuse()];
      FateOf(1, ops, "a").Held? && LatestMessage(1, ops, "a") == Some(Impostor())
  {
    FillerEvicts();
    var ops := Queued().ops + [Filler()];
    FateIs(1, ops, "a");
    assert Accepts(Run(1, ops), Reuse());
    FateSnoc(1, ops, Reuse(), "a");
  }

  function Replaced(): Net {
    Opened(true).(ops := Queued().ops + [Filler()] + [Reuse()])
  }

  lemma ReachesReplaced() returns (moves: seq<Move>, all: seq<Move>)
    ensures all == moves + [Deliver(Secret())] + [Receive(true, true)] + [Others(Filler())] + [Others(Reuse())]
    ensures Runs(1, Begin(1), all, Replaced())
  {
    moves, all := ReachesOpened(true);
    RunsSnoc(1, Begin(1), all, Opened(true), Others(Filler()));
    var n := Opened(true).(ops := Queued().ops + [Filler()]);
    all := all + [Others(Filler())];
    RunsSnoc(1, Begin(1), all, n, Others(Reuse()));
    all := all + [Others(Reuse())];
  }

  lemma ImpostorLost(n: Net)
    requires n == Replaced().(acks := [], ops := Replaced().ops + [Ack("a")])
    ensures Lost(n)
  {
    Reused();
    var ops := Replaced().ops;
    FateIs(1, ops, "a");
    FateSnoc(1, ops, Ack("a"), "a");
    assert Impostor().ciphertext != Secret().ciphertext;
  }

  /** "a" is taken and its acknowledgement under way when "a" is evicted and the id is used again: the acknowledgement
      removes the second message, which reached no storage. */
  lemma ReusedIdLoses() returns (moves: seq<Move>, states: seq<Net>)
    ensures Loses(states, moves + [Deliver(Secret())] + [Receive(true, true)] + [Others(Filler())] + [Others(Reuse())]
                          + [AckArrives])
  {
    var all;
    moves, all := ReachesReplaced();
    RunsSnoc(1, Begin(1), all, Replaced(), AckArrives);
    var n := Replaced().(acks := [], ops := Replaced().ops + [Ack("a")]);
    assert n == EndToEnd.Next(1, Replaced(), AckArrives);
    ImpostorLost(n);
    states := LosesAtEnd(all + [AckArrives], n);
  }
}
