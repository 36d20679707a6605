/** An interleaving without evictions, with one publish of an id at a time, that leaves the index inexact: the id is
    published again while a second acknowledgement of it is still at work. */
module QuietIndexWitness {
  import opened Prelude
  import opened Broker
  import opened BrokerIndex
  import opened Interleaving
  import opened NoDeliveryGap
  import opened QuietIndex

  function Letter(): Message {
    Message("a", "", "", "", "")
  }

  /** `Orderly` without its clause on removals. */
  ghost predicate OnePublishAtATime(s: System, ev: Event, m: Id) {
    ev.PubEv? && Enabled(s, ev) ==>
      && (ev.ps.MakeRoom? ==> !Full(Tables(s.queues, s.index, s.status), s.max,
            s.pubs[ev.p].targets[s.pubs[ev.p].pushed]))
      && (ev.ps.CheckDuplicate? && s.pubs[ev.p].message.messageId == m && m !in s.status ==> NoPub(s.pubs, m))
  }

  ghost predicate Steps(s: System, evs: seq<Event>, t: System)
    decreases |evs|
  {
    if evs == [] then t == s
    else Enabled(s, evs[0]) && OnePublishAtATime(s, evs[0], "a") && Steps(Next(s, evs[0]), evs[1..], t)
  }

  lemma {:induction false} Then(s: System, evs: seq<Event>, t: System, ev: Event)
    requires Steps(s, evs, t) && Enabled(t, ev) && OnePublishAtATime(t, ev, "a")
    ensures Steps(s, evs + [ev], Next(t, ev))
    decreases |evs|
  {
    if evs == [] {
      assert evs + [ev] == [ev];
    } else {
      Then(Next(s, evs[0]), evs[1..], t, ev);
      assert (evs + [ev])[1..] == evs[1..] + [ev];
    }
  }

  lemma {:induction false} StepsRun(s: System, evs: seq<Event>, t: System)
    requires Steps(s, evs, t)
    ensures Runs(s, evs, t)
    decreases |evs|
  {
    if evs == [] {
    } else {
      StepsRun(Next(s, evs[0]), evs[1..], t);
    }
  }

  function With(s: System, p: TaskId, phase: PubPhase, targets: seq<Queue>): System {
    SetPub(s, p, Pub(Letter(), targets, 0, 0, phase))
  }

  /** A step before the push loop. */
  lemma Early(s0: System, before: seq<Event>, s: System, p: TaskId, step: PubStep, t: System) returns (evs: seq<Event>)
    requires Steps(s0, before, s) && PubEnabled(s, p, step) && BeforePush(step) && t == SetPub(s, p, Moved(s, p, step))
    requires step.CheckDuplicate? ==> NoPub(s.pubs, "a")
    ensures Steps(s0, evs, t)
  {
    Then(s0, before, s, PubEv(p, step));
    evs := before + [PubEv(p, step)];
  }

  lemma BeginsIdle(s: System, p: TaskId)
    requires NoPub(s.pubs, "a")
    ensures NoPub(With(s, p, Checking, []).pubs, "a")
  {
    var t := With(s, p, Checking, []);
    assert forall x :: PubBusy(t.pubs, x, "a") ==> x != p && PubBusy(s.pubs, x, "a");
  }

  /** The first half of a publish: up to its push. */
  lemma Routes(s0: System, before: seq<Event>, s: System, p: TaskId) returns (evs: seq<Event>)
    requires Steps(s0, before, s) && p !in s.pubs && "q" in s.queues && NoPub(s.pubs, "a") && "a" !in s.status
    ensures Steps(s0, evs, With(s, p, Room, ["q"]))
  {
    BeginsIdle(s, p);
    evs := Early(s0, before, s, p, Begin(Letter()), With(s, p, Checking, []));
    evs := OnTo(s0, evs, s, p, CheckDuplicate, Checking, Saving, [], []);
    evs := OnTo(s0, evs, s, p, Saved(true), Saving, Routing, [], []);
    evs := OnTo(s0, evs, s, p, Route(["q"]), Routing, Room, [], ["q"]);
  }

  /** A publish goes on to its next phase. */
  lemma OnTo(s0: System, before: seq<Event>, s: System, p: TaskId, step: PubStep, was: PubPhase, phase: PubPhase,
             targets: seq<Queue>, targets': seq<Queue>) returns (evs: seq<Event>)
    requires var t := With(s, p, was, targets);
      && Steps(s0, before, t) && PubEnabled(t, p, step) && BeforePush(step)
      && Moved(t, p, step) == Pub(Letter(), targets', 0, 0, phase) && (step.CheckDuplicate? ==> NoPub(t.pubs, "a"))
    ensures Steps(s0, evs, With(s, p, phase, targets'))
  {
    evs := Early(s0, before, With(s, p, was, targets), p, step, With(s, p, phase, targets'));
  }

  lemma Pushes(s0: System, before: seq<Event>, s: System, p: TaskId) returns (evs: seq<Event>, t: System)
    requires Steps(s0, before, s) && p in s.pubs && s.pubs[p] == Pub(Letter(), ["q"], 0, 0, Room)
    requires "q" in s.queues && |s.queues["q"]| < s.max
    ensures Steps(s0, evs, t) && t == s.(pubs := s.pubs[p := Pub(Letter(), ["q"], 1, 0, Indexing)],
                                         queues := s.queues["q" := s.queues["q"] + [Entry("a", Letter(), p)]])
  {
    Then(s0, before, s, PubEv(p, MakeRoom));
    t, evs := SetPub(s, p, Pub(Letter(), ["q"], 0, 0, Appending)), before + [PubEv(p, MakeRoom)];
    assert t == Next(s, PubEv(p, MakeRoom));
    Then(s0, evs, t, PubEv(p, Append));
    t, evs := Next(t, PubEv(p, Append)), evs + [PubEv(p, Append)];
  }

  lemma Indexes(s0: System, before: seq<Event>, s: System, p: TaskId) returns (evs: seq<Event>, t: System)
    requires Steps(s0, before, s) && p in s.pubs && s.pubs[p] == Pub(Letter(), ["q"], 1, 0, Indexing)
    ensures Steps(s0, evs, t)
    ensures t == s.(pubs := s.pubs[p := Pub(Letter(), ["q"], 1, 0, Accepting)], index := s.index["a" := {"q"}])
  {
    Then(s0, before, s, PubEv(p, Index));
    evs, t := before + [PubEv(p, Index)], Next(s, PubEv(p, Index));
    assert (set q | q in ["q"]) == {"q"};
  }

  lemma Accepts(s0: System, before: seq<Event>, s: System, p: TaskId) returns (evs: seq<Event>, t: System)
    requires Steps(s0, before, s) && p in s.pubs && s.pubs[p] == Pub(Letter(), ["q"], 1, 0, Accepting)
    ensures Steps(s0, evs, t)
    ensures t == s.(pubs := s.pubs[p := Pub(Letter(), ["q"], 1, 0, Notifying)], status := s.status["a" := Sent(0)])
  {
    Then(s0, before, s, PubEv(p, Accept(0)));
    evs, t := before + [PubEv(p, Accept(0))], Next(s, PubEv(p, Accept(0)));
  }

  /** A whole publish. */
  lemma Publishes(s0: System, before: seq<Event>, s: System, p: TaskId) returns (evs: seq<Event>, t: System)
    requires Steps(s0, before, s) && p !in s.pubs && NoPub(s.pubs, "a") && "a" !in s.status
    requires "q" in s.queues && |s.queues["q"]| < s.max
    ensures Steps(s0, evs, t) && t.pubs == s.pubs[p := Pub(Letter(), ["q"], 1, 0, Notifying)]
    ensures t.queues == s.queues["q" := s.queues["q"] + [Entry("a", Letter(), p)]] && t.index == s.index["a" := {"q"}]
    ensures t.status == s.status["a" := Sent(0)] && t.removers == s.removers && t.max == s.max
  {
    evs := Routes(s0, before, s, p);
    evs, t := Finishes(s0, evs, With(s, p, Room, ["q"]), p);
  }

  /** Its second half. */
  lemma Finishes(s0: System, before: seq<Event>, s: System, p: TaskId) returns (evs: seq<Event>, t: System)
    requires Steps(s0, before, s) && p in s.pubs && s.pubs[p] == Pub(Letter(), ["q"], 0, 0, Room)
    requires "q" in s.queues && |s.queues["q"]| < s.max
    ensures Steps(s0, evs, t) && t.pubs == s.pubs[p := Pub(Letter(), ["q"], 1, 0, Notifying)]
    ensures t.queues == s.queues["q" := s.queues["q"] + [Entry("a", Letter(), p)]] && t.index == s.index["a" := {"q"}]
    ensures t.status == s.status["a" := Sent(0)] && t.removers == s.removers && t.max == s.max
  {
    evs, t := Pushes(s0, before, s, p);
    evs, t := Indexes(s0, evs, t, p);
    evs, t := Accepts(s0, evs, t, p);
  }

  lemma Rem(s0: System, before: seq<Event>, s: System, a: TaskId, step: RemStep) returns (evs: seq<Event>)
    requires Steps(s0, before, s) && RemEnabled(s, a, step)
    ensures Steps(s0, evs, RemNext(s, a, step))
  {
    Then(s0, before, s, RemEv(a, step));
    evs := before + [RemEv(a, step)];
  }

  /** An acknowledgement finds its message and goes on. */
  lemma Starts(s0: System, before: seq<Event>, s: System, a: TaskId) returns (evs: seq<Event>, t: System)
    requires Steps(s0, before, s) && a !in s.removers && "a" in s.status
    ensures Steps(s0, evs, t) && t == s.(removers := s.removers[a := Remover("a", AckMarking)])
  {
    evs := Rem(s0, before, s, a, Ack("a"));
    t := s.(removers := s.removers[a := Remover("a", AckChecking)]);
    evs := Rem(s0, evs, t, a, CheckStatus);
    t := RemNext(t, a, CheckStatus);
  }

  /** ... marks. */
  lemma Marks(s0: System, before: seq<Event>, s: System, a: TaskId) returns (evs: seq<Event>, t: System)
    requires Steps(s0, before, s) && RemAt(s, a, AckMarking) && s.removers[a].m == "a"
    ensures Steps(s0, evs, t) && t.queues == s.queues && t.index == s.index && t.status.Keys == s.status.Keys
    ensures t.pubs == s.pubs && t.max == s.max && t.removers == s.removers[a := Remover("a", ReadingIndex)]
  {
    evs := Rem(s0, before, s, a, MarkAcknowledged(0));
    t := RemNext(s, a, MarkAcknowledged(0));
  }

  /** ... and reads the index. */
  lemma Reads(s0: System, before: seq<Event>, s: System, a: TaskId) returns (evs: seq<Event>, t: System)
    requires Steps(s0, before, s) && RemAt(s, a, AckMarking) && s.removers[a].m == "a"
    ensures Steps(s0, evs, t) && t.queues == s.queues && t.index == s.index && t.status.Keys == s.status.Keys
    ensures t.pubs == s.pubs && t.max == s.max
    ensures t.removers == s.removers[a := Remover("a", Clearing(if "a" in s.index then s.index["a"] else {}))]
  {
    evs, t := Marks(s0, before, s, a);
    evs := Rem(s0, evs, t, a, ReadIndex);
    t := RemNext(t, a, ReadIndex);
  }

  /** ... clears the one queue it read. */
  lemma Clears(s0: System, before: seq<Event>, s: System, a: TaskId) returns (evs: seq<Event>, t: System)
    requires Steps(s0, before, s) && RemAt(s, a, Clearing({"q"})) && s.removers[a].m == "a" && "q" in s.queues
    ensures Steps(s0, evs, t) && t.queues == s.queues["q" := Without(s.queues["q"], {"a"})] && t.index == s.index
    ensures t.status == s.status && t.pubs == s.pubs && t.max == s.max
    ensures t.removers == s.removers[a := Remover("a", Clearing({}))]
  {
    evs := Rem(s0, before, s, a, Clear("q"));
    t := RemNext(s, a, Clear("q"));
    assert {"q"} - {"q"} == {};
  }

  /** ... and drops index and status. */
  lemma Ends(s0: System, before: seq<Event>, s: System, a: TaskId) returns (evs: seq<Event>, t: System)
    requires Steps(s0, before, s) && RemAt(s, a, Clearing({})) && s.removers[a].m == "a"
    ensures Steps(s0, evs, t) && t.queues == s.queues && t.index == s.index - {"a"} && t.status == s.status - {"a"}
    ensures t.pubs == s.pubs && t.removers == s.removers[a := Remover("a", Removed)] && t.max == s.max
  {
    evs := Rem(s0, before, s, a, DropIndex);
    t := s.(removers := s.removers[a := Remover("a", DroppingStatus)], index := s.index - {"a"});
    evs := Rem(s0, evs, t, a, DropStatus);
    t := RemNext(t, a, DropStatus);
  }

  /** "a" is published, and two acknowledgements of it have started. */
  lemma TwoAcksStart() returns (evs: seq<Event>, t: System)
    ensures Steps(Start(2), evs, t) && t.queues == map["q" := [Entry("a", Letter(), 0)]] && t.index == map["a" := {"q"}]
    ensures t.status.Keys == {"a"} && t.pubs == map[0 := Pub(Letter(), ["q"], 1, 0, Notifying)] && t.max == 2
    ensures t.removers == map[0 := Remover("a", AckMarking), 1 := Remover("a", AckMarking)]
  {
    var s := Start(2);
    Then(s, [], s, DeclareEv("q"));
    t, evs := Next(s, DeclareEv("q")), [] + [DeclareEv("q")];
    evs, t := Publishes(s, evs, t, 0);
    assert [] + [Entry("a", Letter(), 0)] == [Entry("a", Letter(), 0)];
    evs, t := Starts(s, evs, t, 0);
    evs, t := Starts(s, evs, t, 1);
  }

  lemma FirstAckClears() returns (evs: seq<Event>, t: System)
    ensures Steps(Start(2), evs, t) && t.queues == map["q" := []] && t.index == map["a" := {"q"}]
    ensures t.status.Keys == {"a"}
    ensures t.pubs == map[0 := Pub(Letter(), ["q"], 1, 0, Notifying)] && t.max == 2
    ensures t.removers == map[0 := Remover("a", Clearing({})), 1 := Remover("a", AckMarking)]
  {
    evs, t := TwoAcksStart();
    evs, t := Reads(Start(2), evs, t, 0);
    evs, t := Clears(Start(2), evs, t, 0);
    assert [Entry("a", Letter(), 0)][..0] == [] && Without([Entry("a", Letter(), 0)], {"a"}) == [];
  }

  /** The first acknowledgement is done, and the second has read an index that no longer lists the message. */
  lemma FirstAckDone() returns (evs: seq<Event>, t: System)
    ensures Steps(Start(2), evs, t) && t.queues == map["q" := []] && t.index == map[] && t.status.Keys == {}
    ensures t.pubs == map[0 := Pub(Letter(), ["q"], 1, 0, Notifying)] && t.max == 2
    ensures t.removers == map[0 := Remover("a", Removed), 1 := Remover("a", Clearing({}))]
  {
    evs, t := FirstAckClears();
    evs, t := Ends(Start(2), evs, t, 0);
    evs, t := Reads(Start(2), evs, t, 1);
  }

  /** The message is published again and the second acknowledgement ends: no task is at work on "a", the queue holds
      it, and neither index nor status knows of it. */
  lemma RepublishedDuringRemoval() returns (evs: seq<Event>, t: System)
    ensures Steps(Start(2), evs, t) && Runs(Start(2), evs, t)
    ensures NoPub(t.pubs, "a") && NoRem(t.removers, "a")
    ensures In(t.queues, "q", "a") && !Places(Tables(t.queues, t.index, t.status), "a", "q")
  {
    var s := Start(2);
    evs, t := FirstAckDone();
    evs, t := Publishes(s, evs, t, 1);
    assert Entry("a", Letter(), 1) in t.queues["q"];
    evs, t := Ends(s, evs, t, 1);
    StepsRun(s, evs, t);
  }
}
