/** The delivery branch of a session in server/src/server.rs: gate, bounded retries, delivery mark. */
module DeliveryLoop {
  import opened Prelude
  import opened Broker
  import opened Interleaving
  import opened ServerStates

  const MAX_RETRIES := 3

  datatype Fate = Skipped | Marked | SessionClosed

  /** How the loop ends, given what the stream answers to successive attempts: the attempt at which it stops, and
      whether the session goes on. Only the first three answers are ever asked for. */
  function Attempts(answers: nat -> Outcome): nat {
    if answers(0).Delivered? then 1 else if answers(1).Delivered? then 2 else 3
  }

  predicate GivesUp(answers: nat -> Outcome) {
    !answers(0).Delivered? && !answers(1).Delivered? && answers(2).WriteFailed?
  }

  method Deliver(state: ServerState, id: Id, answers: nat -> Outcome, now: Time, later: Time)
    returns (fate: Fate, attempts: nat, flushed: bool)
    modifies state`messageStatus
    ensures fate == Skipped <==> !(id in old(state.messageStatus) && old(state.messageStatus)[id].CanDeliver())
    ensures fate != Skipped ==> attempts == Attempts(answers) && attempts <= MAX_RETRIES
    ensures fate != Skipped ==> (fate == SessionClosed <==> GivesUp(answers))
    ensures flushed <==> fate == Marked && answers(attempts - 1).Delivered?
    // A message is marked without any successful flush exactly when the third attempt writes but cannot flush.
    ensures fate == Marked && !flushed <==>
      fate != Skipped && !answers(0).Delivered? && !answers(1).Delivered? && answers(2).FlushFailed?
    ensures fate == Marked ==> attempts > 0 && !answers(attempts - 1).WriteFailed?
    ensures fate == Marked && old(state.messageStatus)[id].deliveredTime.None? ==>
      && id in state.messageStatus
      && state.messageStatus[id] == old(state.messageStatus)[id].(deliveredTime := Some(if flushed then now else later))
    ensures fate == Marked && old(state.messageStatus)[id].deliveredTime.Some? ==>
      state.messageStatus == old(state.messageStatus)
    ensures fate != Marked ==> state.messageStatus == old(state.messageStatus)
    ensures state.messageStatus.Keys == old(state.messageStatus).Keys
    ensures forall m :: m in old(state.messageStatus) && m != id ==>
      state.messageStatus[m] == old(state.messageStatus)[m]
    ensures state.View() == old(state.View()).(tables :=
      if fate == Marked then Broker.MarkDelivered(old(state.View()).tables, id, if flushed then now else later)
      else old(state.View()).tables)
  {
    attempts, flushed := 0, false;
    if id !in state.messageStatus {
      return Skipped, attempts, flushed;
    }
    if !state.messageStatus[id].CanDeliver() {
      return Skipped, attempts, flushed;
    }
    var retryCount := 0;
    while retryCount < MAX_RETRIES && !flushed
      invariant retryCount <= MAX_RETRIES && attempts == retryCount + (if flushed then 1 else 0)
      invariant forall i :: 0 <= i < retryCount ==> !answers(i).Delivered?
      invariant flushed ==> retryCount < MAX_RETRIES && answers(retryCount).Delivered?
      invariant retryCount == MAX_RETRIES ==> !answers(MAX_RETRIES - 1).WriteFailed?
      invariant state.View() == old(state.View()).(tables :=
        if flushed then Broker.MarkDelivered(old(state.View()).tables, id, now) else old(state.View()).tables)
      decreases MAX_RETRIES - retryCount, !flushed
    {
      attempts := attempts + 1;
      match answers(retryCount) {
        case Delivered =>
          state.MarkDelivered(id, now);
          flushed := true;
        case FlushFailed =>
          retryCount := retryCount + 1;
        case WriteFailed =>
          retryCount := retryCount + 1;
          if retryCount >= MAX_RETRIES {
            return SessionClosed, attempts, flushed;
          }
      }
    }
    state.MarkDelivered(id, later);
    return Marked, attempts, flushed;
  }

  /** Two failed writes and a failed flush: the session goes on and marks, though no attempt was delivered. */
  lemma MarkedUnflushed(e: Entry)
    ensures var answers := (i: nat) => if i < 2 then WriteFailed else FlushFailed;
      && !GivesUp(answers) && Attempts(answers) == 3 && !answers(2).Delivered?
      && SessionAfter(Writing(e, 0), answers, 0) == Marking(e, 3, true)
  {
    var answers := (i: nat) => if i < 2 then WriteFailed else FlushFailed;
    assert AfterAttempt(Writing(e, 0), answers(0)) == Writing(e, 1);
    assert AfterAttempt(Writing(e, 1), answers(1)) == Writing(e, 2);
    assert SessionAfter(Writing(e, 1), answers, 1) == SessionAfter(Writing(e, 2), answers, 2);
    assert SessionAfter(Writing(e, 2), answers, 2) == SessionAfter(Marking(e, 3, true), answers, 3);
  }

  /** The session of the interleaved model after the given answers. */
  function SessionAfter(session: SessionPhase, answers: nat -> Outcome, from: nat): SessionPhase
    requires session.Writing? ==> session.tries <= MAX_RETRIES
    decreases if session.Writing? then MAX_RETRIES + 1 - session.tries else 0
  {
    if !session.Writing? || session.tries == MAX_RETRIES then session
    else SessionAfter(AfterAttempt(session, answers(from)), answers, from + 1)
  }

  /** The loop and the session steps agree: the session ends closed exactly when the loop gives up, and otherwise comes
      to mark after as many attempts. */
  lemma LoopIsSession(e: Entry, answers: nat -> Outcome)
    ensures var r := SessionAfter(Writing(e, 0), answers, 0);
      if GivesUp(answers) then r == Closed
      else r.Marking? && r.e == e && r.tries == Attempts(answers)
  {
    var w0 := Writing(e, 0);
    var w1 := AfterAttempt(w0, answers(0));
    assert SessionAfter(w0, answers, 0) == SessionAfter(w1, answers, 1);
    if w1.Writing? {
      var w2 := AfterAttempt(w1, answers(1));
      assert SessionAfter(w1, answers, 1) == SessionAfter(w2, answers, 2);
      if w2.Writing? {
        assert SessionAfter(w2, answers, 2) == SessionAfter(AfterAttempt(w2, answers(2)), answers, 3);
      }
    }
  }
}
