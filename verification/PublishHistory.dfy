/** What a publish has been through, over the events of every interleaving: the way to acceptance, and the three ways to
    a refusal. */
module PublishHistory {
  import opened Prelude
  import opened Broker
  import opened Interleaving

  // ----- A publish changes only by its own steps

  predicate OwnStep(ev: Event, p: TaskId) {
    ev.PubEv? && ev.p == p
  }

  lemma PubsAfter(s: System, p: TaskId, step: PubStep)
    requires PubEnabled(s, p, step)
    ensures p in PubNext(s, p, step).pubs && PubNext(s, p, step).pubs == s.pubs[p := PubNext(s, p, step).pubs[p]]
  {
    match step
    case Begin(_) =>
    case CheckDuplicate =>
    case Saved(_) =>
    case Route(_) =>
    case MakeRoom =>
    case Unindex =>
    case Unstatus =>
    case Append =>
    case Index =>
    case Accept(_) =>
    case Notify =>
  }

  lemma RegPubs(s: System, r: TaskId, step: RegStep)
    requires RegEnabled(s, r, step)
    ensures RegNext(s, r, step).pubs == s.pubs
  {
    match step
    case Consume(_, _) =>
    case Declare =>
    case Join =>
    case Copy =>
    case Filter =>
    case Send =>
  }

  lemma RemPubs(s: System, a: TaskId, step: RemStep)
    requires RemEnabled(s, a, step)
    ensures RemNext(s, a, step).pubs == s.pubs
  {
  }

  lemma SessionPubs(s: System, c: ChannelId, step: SessionStep)
    requires SessionEnabled(s, c, step)
    ensures SessionNext(s, c, step).pubs == s.pubs
  {
  }

  lemma OtherPub(s: System, x: TaskId, step: PubStep, p: TaskId)
    requires PubEnabled(s, x, step) && x != p
    ensures p in PubNext(s, x, step).pubs <==> p in s.pubs
    ensures p in s.pubs ==> PubNext(s, x, step).pubs[p] == s.pubs[p]
  {
    PubsAfter(s, x, step);
  }

  lemma OthersKeepPub(s: System, ev: Event, p: TaskId)
    requires Enabled(s, ev) && !OwnStep(ev, p)
    ensures p in Next(s, ev).pubs <==> p in s.pubs
    ensures p in s.pubs ==> Next(s, ev).pubs[p] == s.pubs[p]
  {
    match ev {
      case DeclareEv(_) =>
      case PubEv(x, step) => OtherPub(s, x, step, p);
      case RegEv(r, step) => RegPubs(s, r, step);
      case RemEv(a, step) => RemPubs(s, a, step);
      case SessionEv(c, step) => SessionPubs(s, c, step);
    }
  }

  // ----- The way of a publish

  /** The events at which a publish began, passed its duplicate check, had its row saved, was routed, entered in the
      index and accepted; and the one at which it was refused. */
  datatype Way = Way(begun: nat, checked: nat, saved: nat, routed: nat, indexed: nat, accepted: nat, refused: nat)

  /** How many of these lie behind a publish. */
  function Stage(phase: PubPhase): nat {
    match phase
    case Checking => 0
    case Saving => 1
    case Routing => 2
    case Accepting => 4
    case Notifying => 5
    case Refused => 0
    case _ => 3
  }

  predicate DidAt(evs: seq<Event>, p: TaskId, step: PubStep, i: nat, k: nat) {
    i < k <= |evs| && evs[i] == PubEv(p, step)
  }

  /** Event `i` refused the publish: its id was known, its row could not be saved, or no queue is bound. */
  predicate RefusedAt(states: seq<System>, evs: seq<Event>, p: TaskId, m: Id, i: nat, k: nat)
    requires k <= |evs| < |states|
  {
    || (DidAt(evs, p, CheckDuplicate, i, k) && m in states[i].status)
    || DidAt(evs, p, Saved(false), i, k)
    || DidAt(evs, p, Route([]), i, k)
  }

  ghost predicate CameBy(states: seq<System>, evs: seq<Event>, p: TaskId, pub: Pub, at: Way, k: nat)
    requires k <= |evs| < |states|
  {
    var m, stage := pub.message.messageId, Stage(pub.phase);
    && DidAt(evs, p, Begin(pub.message), at.begun, k)
    && (stage >= 1 ==>
          at.begun < at.checked && DidAt(evs, p, CheckDuplicate, at.checked, k) && m !in states[at.checked].status)
    && (stage >= 2 ==> at.checked < at.saved && DidAt(evs, p, Saved(true), at.saved, k))
    && (stage >= 3 ==>
          at.saved < at.routed && DidAt(evs, p, Route(pub.targets), at.routed, k) && pub.targets != [])
    && (stage >= 4 ==> at.routed < at.indexed && DidAt(evs, p, Index, at.indexed, k))
    && (stage >= 5 ==>
          && at.indexed < at.accepted < k && evs[at.accepted].PubEv? && evs[at.accepted].p == p
          && evs[at.accepted].ps.Accept?)
    && (pub.phase.Refused? ==> at.begun < at.refused && RefusedAt(states, evs, p, m, at.refused, k))
  }

  /** The publish, if begun, came by `at` to where it is after `k` events. */
  ghost predicate CameTo(states: seq<System>, evs: seq<Event>, p: TaskId, at: Way, k: nat)
    requires k <= |evs| < |states|
  {
    p in states[k].pubs ==> CameBy(states, evs, p, states[k].pubs[p], at, k)
  }

  /** What its own step makes of a publish. */
  lemma Advances(s: System, p: TaskId, step: PubStep)
    requires PubEnabled(s, p, step)
    ensures p in PubNext(s, p, step).pubs
    ensures var pub := PubNext(s, p, step).pubs[p];
      && (step.Begin? ==> pub == Pub(step.message, [], 0, 0, Checking))
      && (!step.Begin? ==> p in s.pubs && pub.message == s.pubs[p].message)
      && (!step.Begin? && !step.Route? ==> pub.targets == s.pubs[p].targets)
      && (!BeforePush(step) ==> !pub.phase.Refused?)
  {
    match step
    case Begin(_) =>
    case CheckDuplicate =>
    case Saved(_) =>
    case Route(_) =>
    case MakeRoom =>
    case Unindex =>
    case Unstatus =>
    case Append =>
    case Index =>
    case Accept(_) =>
    case Notify =>
  }

  lemma StageAfter(s: System, p: TaskId, step: PubStep)
    requires PubEnabled(s, p, step) && !BeforePush(step)
    ensures p in PubNext(s, p, step).pubs
    ensures Stage(PubNext(s, p, step).pubs[p].phase) ==
      if step.Index? then 4 else if step.Accept? then 5 else Stage(s.pubs[p].phase)
  {
    match step
    case MakeRoom =>
    case Unindex =>
    case Unstatus =>
    case Append =>
    case Index =>
    case Accept(_) =>
    case Notify =>
  }

  lemma CameLater(states: seq<System>, evs: seq<Event>, p: TaskId, pub: Pub, at: Way, k: nat)
    requires k < |evs| < |states| && CameBy(states, evs, p, pub, at, k)
    ensures CameBy(states, evs, p, pub, at, k + 1)
  {
  }

  /** The first four steps. */
  lemma CameEarly(states: seq<System>, evs: seq<Event>, p: TaskId, at: Way, k: nat) returns (way: Way)
    requires |states| == |evs| + 1 && k < |evs| && StepAt(states, evs, k)
    requires OwnStep(evs[k], p) && BeforePush(evs[k].ps)
    requires p in states[k].pubs ==> CameBy(states, evs, p, states[k].pubs[p], at, k)
    ensures p in states[k + 1].pubs && CameBy(states, evs, p, states[k + 1].pubs[p], way, k + 1)
  {
    match evs[k].ps
    case Begin(_) => way := at.(begun := k);
    case CheckDuplicate => way := at.(checked := k, refused := k);
    case Saved(_) => way := at.(saved := k, refused := k);
    case Route(_) => way := at.(routed := k, refused := k);
  }

  lemma CameLate(states: seq<System>, evs: seq<Event>, p: TaskId, at: Way, k: nat) returns (way: Way)
    requires |states| == |evs| + 1 && k < |evs| && StepAt(states, evs, k)
    requires OwnStep(evs[k], p) && !BeforePush(evs[k].ps)
    requires p in states[k].pubs ==> CameBy(states, evs, p, states[k].pubs[p], at, k)
    ensures p in states[k + 1].pubs && CameBy(states, evs, p, states[k + 1].pubs[p], way, k + 1)
  {
    var step := evs[k].ps;
    Advances(states[k], p, step);
    StageAfter(states[k], p, step);
    way := if step.Index? then at.(indexed := k) else if step.Accept? then at.(accepted := k) else at;
  }

  lemma CameStep(states: seq<System>, evs: seq<Event>, p: TaskId, at: Way, k: nat) returns (way: Way)
    requires |states| == |evs| + 1 && k < |evs| && StepAt(states, evs, k)
    requires CameTo(states, evs, p, at, k)
    ensures CameTo(states, evs, p, way, k + 1)
  {
    if OwnStep(evs[k], p) {
      if BeforePush(evs[k].ps) {
        way := CameEarly(states, evs, p, at, k);
      } else {
        way := CameLate(states, evs, p, at, k);
      }
    } else {
      way := at;
      OthersKeepPub(states[k], evs[k], p);
      if p in states[k].pubs {
        CameLater(states, evs, p, states[k].pubs[p], at, k);
      }
    }
  }

  /** In every interleaving, a publish that is accepted was begun with its message, then found its id unknown, then had
      its row saved, then was routed to its targets, of which there is one, then entered in the index and then given its
      status, all by events of its own; and a refused one found its id known, or its row not saved, or no target. */
  lemma {:induction false} WayOf(max: nat, states: seq<System>, evs: seq<Event>, p: TaskId, k: nat) returns (at: Way)
    requires Trace(max, states, evs) && k <= |evs|
    ensures CameTo(states, evs, p, at, k)
  {
    if k == 0 {
      at := Way(0, 0, 0, 0, 0, 0, 0);
    } else {
      at := WayOf(max, states, evs, p, k - 1);
      assert StepAt(states, evs, k - 1);
      at := CameStep(states, evs, p, at, k - 1);
    }
  }

  /** A publish whose row could not be saved is refused for good: it pushes, indexes, accepts and tells nothing. */
  lemma {:induction false} UnsavedStaysRefused(max: nat, states: seq<System>, evs: seq<Event>, p: TaskId, i: nat,
                                               k: nat)
    requires Trace(max, states, evs) && DidAt(evs, p, Saved(false), i, k)
    ensures p in states[k].pubs && states[k].pubs[p].phase == Refused
    ensures forall j: nat :: i < j < k ==> !OwnStep(evs[j], p)
  {
    assert StepAt(states, evs, k - 1);
    if k == i + 1 {
    } else {
      UnsavedStaysRefused(max, states, evs, p, i, k - 1);
      OthersKeepPub(states[k - 1], evs[k - 1], p);
    }
  }
}
