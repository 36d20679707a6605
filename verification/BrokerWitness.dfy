/** A concrete run in which fan-out and eviction leave the index inexact. */
module BrokerWitness {
  import opened Broker
  import opened BrokerIndex
  import opened BrokerRuns

  function Msg(id: Id): Message {
    Message(id, "", "", "", "")
  }

  /** Queues "p" and "q" of size 1, both bound to key "both" and "q" also to "one"; "a" goes to both, "b" to "q". */
  function StrayRun(): seq<Op> {
    [Declare("p"), Declare("q"), DeclareX("x"),
     BindTo("p", "x", "both"), BindTo("q", "x", "both"), BindTo("q", "x", "one"),
     Pub("x", "both", Msg("a"), true, 0), Pub("x", "one", Msg("b"), true, 1)]
  }

  function Bound(bs: seq<(Queue, Key)>, t: Tables): State {
    State(t, if bs == [] then map[] else map["x" := bs], {"x"}, map[], map[], 1)
  }

  function Empty2(): Tables {
    Tables(map["p" := [], "q" := []], map[], map[])
  }

  lemma RunTake(max: nat, ops: seq<Op>, k: nat)
    requires k < |ops|
    ensures Run(max, ops[..k + 1]) == Apply(Run(max, ops[..k]), ops[k], k)
  {
    assert ops[..k + 1][..k] == ops[..k];
  }

  lemma StrayDeclared()
    ensures Run(1, StrayRun()[..3]) == Bound([], Empty2())
  {
    RunTake(1, StrayRun(), 0);
    RunTake(1, StrayRun(), 1);
    RunTake(1, StrayRun(), 2);
    assert DeclareQueue(DeclareQueue(Init(1), "p"), "q").tables.queues == map["p" := [], "q" := []];
  }

  lemma BindNext(bs: seq<(Queue, Key)>, t: Tables, q: Queue, k: Key)
    requires q in t.queues && (q, k) !in bs
    ensures Bind(Bound(bs, t), q, "x", k) == Bound(bs + [(q, k)], t)
  {
    assert map["x" := bs]["x" := bs + [(q, k)]] == map["x" := bs + [(q, k)]];
    assert bs == [] ==> bs + [(q, k)] == [(q, k)];
  }

  lemma StrayBound()
    ensures Run(1, StrayRun()[..6]) == Bound([("p", "both"), ("q", "both"), ("q", "one")], Empty2())
  {
    StrayDeclared();
    RunTake(1, StrayRun(), 3);
    RunTake(1, StrayRun(), 4);
    RunTake(1, StrayRun(), 5);
    BindNext([], Empty2(), "p", "both");
    assert [] + [("p", "both")] == [("p", "both")];
    assert [("p", "both")] + [("q", "both")] == [("p", "both"), ("q", "both")];
    assert [("p", "both"), ("q", "both")] + [("q", "one")] == [("p", "both"), ("q", "both"), ("q", "one")];
    assert "p"[0] != "q"[0] && "both"[0] != "one"[0];
    BindNext([("p", "both")], Empty2(), "q", "both");
    BindNext([("p", "both"), ("q", "both")], Empty2(), "q", "one");
  }

  lemma StrayRoutes(t: Tables)
    ensures Targets(Bound([("p", "both"), ("q", "both"), ("q", "one")], t), "x", "both") == ["p", "q"]
    ensures Targets(Bound([("p", "both"), ("q", "both"), ("q", "one")], t), "x", "one") == ["q"]
  {
    var bs := [("p", "both"), ("q", "both"), ("q", "one")];
    assert bs[..2] == [("p", "both"), ("q", "both")] && bs[..2][..1] == [("p", "both")];
    assert "both"[0] != "one"[0];
    assert Matching([("p", "both")], "both") == ["p"] && Matching([("p", "both")], "one") == [];
    assert Matching(bs[..2], "both") == ["p", "q"] && Matching(bs[..2], "one") == [];
  }

  function OneCopyEach(): Tables {
    var a := Entry("a", Msg("a"), 6);
    Tables(map["p" := [a], "q" := [a]], map["a" := {"p", "q"}], map["a" := Sent(0)])
  }

  lemma OneCopyEachExact()
    ensures Exact(OneCopyEach())
  {
    var a := Entry("a", Msg("a"), 6);
    assert a in [a] && Ids([a]) == {"a"};
  }

  lemma PushBoth(targets: seq<Queue>, a: Entry, r: Tables)
    requires "p" in targets && "q" in targets && PushEffect(Empty2(), 1, targets, a, r)
    ensures r == Tables(map["p" := [a], "q" := [a]], map[], map[])
  {
    assert Pushed([], 1, a) == [a];
    assert r.queues == map["p" := [a], "q" := [a]];
  }

  lemma EnqueueBoth(targets: seq<Queue>, a: Entry)
    requires targets == ["p", "q"] && a == Entry("a", Msg("a"), 6)
    ensures Enqueue(Empty2(), 1, targets, a, 0) == OneCopyEach()
  {
    assert targets[0] == "p" && targets[1] == "q" && "p"[0] != "q"[0];
    PushAllEffect(Empty2(), 1, targets, a);
    PushBoth(targets, a, PushAll(Empty2(), 1, targets, a));
    assert Routed(Empty2(), targets) == {"p", "q"};
  }

  lemma StrayFirst()
    ensures Run(1, StrayRun()[..7]) == Bound([("p", "both"), ("q", "both"), ("q", "one")], OneCopyEach())
  {
    StrayBound();
    StrayRoutes(Empty2());
    RunTake(1, StrayRun(), 6);
    FirstPublish(Bound([("p", "both"), ("q", "both"), ("q", "one")], Empty2()), StrayRun()[6]);
  }

  lemma FirstPublish(s: State, op: Op)
    requires s.consumers == map[] && s.tables == Empty2() && s.maxQueueSize == 1
    requires op == Pub("x", "both", Msg("a"), true, 0) && Targets(s, "x", "both") == ["p", "q"]
    ensures Apply(s, op, 6) == s.(tables := OneCopyEach())
  {
    PublishNoConsumers(s, op, 6);
    EnqueueBoth(["p", "q"], Entry("a", Msg("a"), 6));
  }

  /** The run reaches such a state: "a" is evicted from "q" only, and its copy in "p" is stray. */
  lemma StrayIsReachable()
    ensures var t := Run(1, StrayRun()).tables;
      "p" in t.queues && "a" in Ids(t.queues["p"]) && "a" !in t.status && Acknowledge(t, "a") == t && !Exact(t)
  {
    StrayFirst();
    OneCopyEachExact();
    StrayRoutes(OneCopyEach());
    RunSound(1, StrayRun()[..7]);
    RunTake(1, StrayRun(), 7);
    assert StrayRun()[..8] == StrayRun();
    var t := OneCopyEach();
    assert "p"[0] != "q"[0] && "a"[0] != "b"[0];
    assert "q" in ["q"] && Full(t, 1, "q");
    assert "a" in Victims(t, 1, ["q"]);
    assert "p" !in Evicting(t, 1, ["q"], "a");
    VictimBecomesStray(Run(1, StrayRun()[..7]), StrayRun()[7], 7, "a", "p");
  }

  lemma PublishNoConsumers(s: State, op: Op, stamp: nat)
    requires op.Pub? && s.consumers == map[]
    ensures Apply(s, op, stamp) == s.(tables := NextTables(s, op, stamp))
  {
    ApplyTables(s, op, stamp);
    if Accepts(s, op) {
      NotifyNobody(s.(tables := NextTables(s, op, stamp)), Route(s, op), NewEntry(op, stamp));
    }
  }

  lemma NotifyNobody(s: State, targets: seq<Queue>, e: Entry)
    requires s.consumers == map[]
    ensures NotifyAll(s, targets, e) == s
  {
  }
}
