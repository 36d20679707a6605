/** The sender's pipeline of clients/sender_1: the sending loop and the acknowledgement reader as interleaved steps over
    the semaphore, the pending map and the list of failed ids. */
module Sender {
  import opened Broker

  /** A publish command. */
  datatype Cmd = Cmd(exchange: Exchange, key: Key, message: Message)

  /** What the sending loop is in the middle of. All but `Ready` own a permit; a stored message will hand it to the
      reader. */
  datatype Hand =
    | Ready
    | Holding(cmd: Cmd)   // permit acquired
    | Stored(cmd: Cmd)    // in the pending map, about to be written
    | Failing             // the write or flush failed and the entry was taken back
    | Dropping            // one permit was added; the owned one is about to be dropped

  datatype Pipeline = Pipeline(
    permits: nat,
    pending: map<Id, Cmd>,
    failed: seq<Id>,
    hand: Hand,
    releasing: bool)      // the reader has removed an id and not yet added its permit

  function Start(maxInflight: nat): Pipeline {
    Pipeline(maxInflight, map[], [], Ready, false)
  }

  datatype Step =
    | Acquire(cmd: Cmd)
    | Store
    | Written             // write and flush succeeded; the permit is forgotten
    | WriteFailed         // write or flush failed: the entry is removed and its id recorded
    | AddBack             // the permit added after a failure
    | DropOwned           // the owned permit goes out of scope
    | AckLine(id: Id)
    | OtherLine           // an error or an unknown line
    | Release
    | CollectUnacked      // after the loop: everything still pending counts as failed

  predicate Enabled(s: Pipeline, step: Step) {
    match step
    case Acquire(_) => s.hand.Ready? && s.permits > 0
    case Store => s.hand.Holding?
    case Written => s.hand.Stored?
    case WriteFailed => s.hand.Stored?
    case AddBack => s.hand.Failing?
    case DropOwned => s.hand.Dropping?
    case AckLine(_) => !s.releasing
    case OtherLine => !s.releasing
    case Release => s.releasing
    case CollectUnacked => s.hand.Ready?
  }

  function IdOf(cmd: Cmd): Id {
    cmd.message.messageId
  }

  ghost function Next(s: Pipeline, step: Step): Pipeline
    requires Enabled(s, step)
  {
    match step
    case Acquire(cmd) => s.(permits := s.permits - 1, hand := Holding(cmd))
    case Store => s.(pending := s.pending[IdOf(s.hand.cmd) := s.hand.cmd], hand := Stored(s.hand.cmd))
    case Written => s.(hand := Ready)
    case WriteFailed =>
      s.(pending := s.pending - {IdOf(s.hand.cmd)}, failed := s.failed + [IdOf(s.hand.cmd)], hand := Failing)
    case AddBack => s.(permits := s.permits + 1, hand := Dropping)
    case DropOwned => s.(permits := s.permits + 1, hand := Ready)
    case AckLine(id) => s.(pending := s.pending - {id}, releasing := true)
    case OtherLine => s
    case Release => s.(permits := s.permits + 1, releasing := false)
    case CollectUnacked => s.(failed := s.failed + PendingIds(s.pending))
  }

  /** The ids of a pending map in some order. */
  ghost function PendingIds(pending: map<Id, Cmd>): seq<Id> {
    if pending == map[] then [] else var id :| id in pending; [id] + PendingIds(pending - {id})
  }

  lemma {:induction false} PendingIdsAll(pending: map<Id, Cmd>)
    ensures forall id :: id in PendingIds(pending) <==> id in pending
    decreases pending
  {
    if pending == map[] {
    } else {
      var id :| id in pending && PendingIds(pending) == [id] + PendingIds(pending - {id});
      PendingIdsAll(pending - {id});
    }
  }

  /** The loop owns a permit that no pending entry stands for. */
  predicate Owns(hand: Hand) {
    hand.Holding? || hand.Failing? || hand.Dropping?
  }

  /** Free permits, pending entries and the permits in transit. */
  function InUse(s: Pipeline): nat {
    s.permits + |s.pending| + (if Owns(s.hand) then 1 else 0) + (if s.releasing then 1 else 0)
  }

  /** How far a step moves that sum. */
  function Drift(s: Pipeline, step: Step): int
    requires Enabled(s, step)
  {
    match step
    case Store => if IdOf(s.hand.cmd) in s.pending then -1 else 0
    case WriteFailed => if IdOf(s.hand.cmd) in s.pending then 0 else 1
    case AddBack => 1
    case AckLine(id) => if id in s.pending then 0 else 1
    case _ => 0
  }

  /** Only a repeated id, the permit added after a failed write, and a removal of an id that is not pending unbalance
      the window. */
  lemma StepDrift(s: Pipeline, step: Step)
    requires Enabled(s, step)
    ensures InUse(Next(s, step)) == InUse(s) + Drift(s, step)
  {
  }
}
