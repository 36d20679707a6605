/** The receiver of clients/receiver_1: parsing, opening and acknowledging frames once per connection, and writing what
    was received in batches. Opening an envelope is an unknown partial function. */
module Receiver {
  import opened Prelude
  import opened Wire

  type Id = string

  /** A frame whose payload could be opened; `taken` says whether the storage task takes it when it is handed over. The
      task takes nothing any more once it has returned. */
  datatype Opened = Opened(id: Id, content: string, taken: bool)

  datatype Output = HandOff(id: Id, content: string, taken: bool) | QueueAck(id: Id)

  // ----- The receive loop

  /** A line as parsed: a message id and a payload, if it is a frame. */
  type Parsed = Option<(string, string)>

  function ParseAll(lines: seq<string>): (ps: seq<Parsed>)
    ensures |ps| == |lines|
    ensures forall k :: 0 <= k < |lines| ==> ps[k] == ParseFrame(lines[k])
  {
    seq(|lines|, k requires 0 <= k < |lines| => ParseFrame(lines[k]))
  }

  function OpenFrame(frame: Parsed, open: string -> Option<string>, taken: bool): Option<Opened> {
    match frame
    case None => None
    case Some((id, payload)) => if open(payload).Some? then Some(Opened(id, open(payload).value, taken)) else None
  }

  function Grow(fs: seq<Opened>, f: Option<Opened>): seq<Opened> {
    if f.Some? then fs + [f.value] else fs
  }

  /** The opened frames of a stream of parsed lines, in order. */
  function Frames(ps: seq<Parsed>, open: string -> Option<string>, taken: nat -> bool): seq<Opened> {
    if ps == [] then []
    else
      var n := |ps| - 1;
      Grow(Frames(ps[..n], open, taken), OpenFrame(ps[n], open, taken(n)))
  }

  predicate HasId(fs: seq<Opened>, id: Id) {
    exists i :: 0 <= i < |fs| && fs[i].id == id
  }

  /** The frames that are the first of their id. */
  function FirstOnly(fs: seq<Opened>): seq<Opened> {
    if fs == [] then []
    else
      var front, last := fs[..|fs| - 1], fs[|fs| - 1];
      if HasId(front, last.id) then FirstOnly(front) else FirstOnly(front) + [last]
  }

  function OutputsOf(f: Opened): seq<Output> {
    [HandOff(f.id, f.content, f.taken), QueueAck(f.id)]
  }

  /** Each processed frame is handed to storage and then queued for acknowledgement, whether storage takes it or not. */
  function Outputs(fs: seq<Opened>): seq<Output> {
    if fs == [] then [] else Outputs(fs[..|fs| - 1]) + OutputsOf(fs[|fs| - 1])
  }

  function Acks(out: seq<Output>): seq<Id> {
    if out == [] then []
    else
      var rest, last := Acks(out[..|out| - 1]), out[|out| - 1];
      if last.QueueAck? then rest + [last.id] else rest
  }

  /** The ids that reached storage. */
  function Stored(out: seq<Output>): seq<Id> {
    if out == [] then []
    else
      var rest, last := Stored(out[..|out| - 1]), out[|out| - 1];
      if last.HandOff? && last.taken then rest + [last.id] else rest
  }

  function IdsOf(fs: seq<Opened>): seq<Id> {
    seq(|fs|, i requires 0 <= i < |fs| => fs[i].id)
  }

  lemma FramesSnoc(ps: seq<Parsed>, open: string -> Option<string>, taken: nat -> bool, k: nat)
    requires k < |ps|
    ensures Frames(ps[..k + 1], open, taken) == Grow(Frames(ps[..k], open, taken), OpenFrame(ps[k], open, taken(k)))
  {
    assert ps[..k + 1][..k] == ps[..k];
  }

  /** The loop's state after the opened frames `fs`. */
  ghost predicate Reached(out: seq<Output>, processed: set<Id>, fs: seq<Opened>) {
    out == Outputs(FirstOnly(fs)) && forall id :: id in processed <==> HasId(fs, id)
  }

  lemma RepeatedReached(out: seq<Output>, processed: set<Id>, fs: seq<Opened>, f: Opened)
    requires Reached(out, processed, fs) && f.id in processed
    ensures Reached(out, processed, fs + [f])
  {
    RepeatedFrame(fs, f);
  }

  lemma NewReached(out: seq<Output>, processed: set<Id>, fs: seq<Opened>, f: Opened)
    requires Reached(out, processed, fs) && f.id !in processed
    ensures Reached(out + OutputsOf(f), processed + {f.id}, fs + [f])
  {
    NewFrame(fs, f);
  }

  method HandleFrame(frame: Parsed, open: string -> Option<string>, taken: bool,
                     out: seq<Output>, processed: set<Id>, ghost fs: seq<Opened>)
    returns (out': seq<Output>, processed': set<Id>)
    requires Reached(out, processed, fs)
    ensures Reached(out', processed', Grow(fs, OpenFrame(frame, open, taken)))
    ensures if frame.Some? && open(frame.value.1).Some? && frame.value.0 !in processed
            then && processed' == processed + {frame.value.0}
                 && out' == out + [HandOff(frame.value.0, open(frame.value.1).value, taken), QueueAck(frame.value.0)]
            else out' == out && processed' == processed
  {
    out', processed' := out, processed;
    if frame.None? {
      return;
    }
    var (id, payload) := frame.value;
    var content := open(payload);
    if id in processed {
      if content.Some? {
        RepeatedReached(out, processed, fs, Opened(id, content.value, taken));
      }
      return;
    }
    if content.Some? {
      ghost var f := Opened(id, content.value, taken);
      NewReached(out, processed, fs, f);
      processed' := processed + {id};
      out' := out + [HandOff(id, content.value, taken)];
      out' := out' + [QueueAck(id)];
      assert out' == out + OutputsOf(f);
    }
  }

  method ReceiveLoop(lines: seq<string>, open: string -> Option<string>, taken: nat -> bool)
    returns (out: seq<Output>, processed: set<Id>)
    ensures out == Outputs(FirstOnly(Frames(ParseAll(lines), open, taken)))
    ensures exists at :: Handled(ParseAll(lines), open, taken, out, at)
    ensures forall id :: id in processed <==> SomeOpens(ParseAll(lines), open, id)
  {
    ghost var ps := ParseAll(lines);
    out, processed := [], {};
    for k := 0 to |lines|
      invariant Reached(out, processed, Frames(ps[..k], open, taken))
    {
      FramesSnoc(ps, open, taken, k);
      out, processed := HandleFrame(ParseFrame(lines[k]), open, taken(k), out, processed, Frames(ps[..k], open, taken));
    }
    assert ps[..|ps|] == ps;
    FramesOpen(ps, open, taken);
    ghost var at := HandsOverFirsts(ps, open, taken);
  }

  lemma HasIdSnoc(fs: seq<Opened>, f: Opened)
    ensures forall i :: HasId(fs + [f], i) <==> HasId(fs, i) || i == f.id
  {
    var all := fs + [f];
    forall i ensures HasId(all, i) <==> HasId(fs, i) || i == f.id {
      if j :| 0 <= j < |fs| && fs[j].id == i {
        assert all[j].id == i;
      }
      assert all[|fs|].id == f.id;
    }
  }

  lemma RepeatedFrame(fs: seq<Opened>, f: Opened)
    requires HasId(fs, f.id)
    ensures FirstOnly(fs + [f]) == FirstOnly(fs)
    ensures forall i :: HasId(fs + [f], i) <==> HasId(fs, i)
  {
    assert (fs + [f])[..|fs|] == fs;
    HasIdSnoc(fs, f);
  }

  lemma OutputsSnoc(fs: seq<Opened>, f: Opened)
    ensures Outputs(fs + [f]) == Outputs(fs) + OutputsOf(f)
  {
    assert (fs + [f])[..|fs|] == fs;
  }

  lemma NewFrame(fs: seq<Opened>, f: Opened)
    requires !HasId(fs, f.id)
    ensures FirstOnly(fs + [f]) == FirstOnly(fs) + [f]
    ensures Outputs(FirstOnly(fs + [f])) == Outputs(FirstOnly(fs)) + OutputsOf(f)
    ensures forall i :: HasId(fs + [f], i) <==> HasId(fs, i) || i == f.id
  {
    assert (fs + [f])[..|fs|] == fs;
    OutputsSnoc(FirstOnly(fs), f);
    HasIdSnoc(fs, f);
  }

  // ----- What the loop guarantees

  lemma IdsOfIs(fs: seq<Opened>)
    ensures forall id :: id in IdsOf(fs) <==> HasId(fs, id)
  {
    forall id ensures id in IdsOf(fs) <==> HasId(fs, id) {
      if i :| 0 <= i < |fs| && fs[i].id == id {
        assert IdsOf(fs)[i] == id;
      }
    }
  }

  lemma {:induction false} FirstOnlyIds(fs: seq<Opened>)
    ensures forall id :: HasId(FirstOnly(fs), id) <==> HasId(fs, id)
    ensures Distinct(IdsOf(FirstOnly(fs)))
  {
    if fs == [] {
    } else {
      var front, last := fs[..|fs| - 1], fs[|fs| - 1];
      assert fs == front + [last];
      FirstOnlyIds(front);
      if HasId(front, last.id) {
        RepeatedFrame(front, last);
      } else {
        NewFrame(front, last);
        HasIdSnoc(FirstOnly(front), last);
        IdsOfIs(FirstOnly(front));
        assert IdsOf(FirstOnly(front) + [last]) == IdsOf(FirstOnly(front)) + [last.id];
      }
    }
  }

  /** `at` places the processed frames in the stream: in order, each the first of its id. */
  ghost predicate Places(fs: seq<Opened>, firsts: seq<Opened>, at: seq<nat>) {
    && |at| == |firsts|
    && (forall k :: 0 <= k < |at| ==> at[k] < |fs| && firsts[k] == fs[at[k]])
    && (forall k, j :: 0 <= k < |at| && 0 <= j < at[k] ==> fs[j].id != firsts[k].id)
    && (forall k, l :: 0 <= k < l < |at| ==> at[k] < at[l])
  }

  lemma PlacesSnoc(fs: seq<Opened>, firsts: seq<Opened>, at: seq<nat>, f: Opened)
    requires Places(fs, firsts, at)
    ensures Places(fs + [f], firsts, at)
    ensures !HasId(fs, f.id) ==> Places(fs + [f], firsts + [f], at + [|fs|])
  {
    var all := fs + [f];
    assert forall j :: 0 <= j < |fs| ==> all[j] == fs[j];
    if !HasId(fs, f.id) {
      assert forall j :: 0 <= j < |fs| ==> fs[j].id != f.id;
    }
  }

  /** The processed frames are frames of the stream, in order, and no earlier frame shares the id of one. */
  lemma {:induction false} FirstOnlyPlaces(fs: seq<Opened>) returns (at: seq<nat>)
    ensures Places(fs, FirstOnly(fs), at)
  {
    if fs == [] {
      at := [];
    } else {
      var front, last := fs[..|fs| - 1], fs[|fs| - 1];
      assert fs == front + [last];
      at := FirstOnlyPlaces(front);
      PlacesSnoc(front, FirstOnly(front), at, last);
      if !HasId(front, last.id) {
        at := at + [|front|];
      }
    }
  }

  lemma {:induction false} OutputsPaired(fs: seq<Opened>)
    ensures |Outputs(fs)| == 2 * |fs|
    ensures forall k :: 0 <= k < |fs| ==> Outputs(fs)[2 * k] == HandOff(fs[k].id, fs[k].content, fs[k].taken)
    ensures forall k :: 0 <= k < |fs| ==> Outputs(fs)[2 * k + 1] == QueueAck(fs[k].id)
  {
    if fs == [] {
    } else {
      OutputsPaired(fs[..|fs| - 1]);
    }
  }

  lemma PairSnoc(o: seq<Output>, f: Opened)
    ensures Acks(o + OutputsOf(f)) == Acks(o) + [f.id]
    ensures Stored(o + OutputsOf(f)) == Stored(o) + if f.taken then [f.id] else []
  {
    var o1, o2 := o + [HandOff(f.id, f.content, f.taken)], o + OutputsOf(f);
    assert o2[..|o1|] == o1 && o1[..|o|] == o;
  }

  lemma {:induction false} OutputsAcks(fs: seq<Opened>)
    ensures Acks(Outputs(fs)) == IdsOf(fs)
  {
    if fs == [] {
    } else {
      var front, last := fs[..|fs| - 1], fs[|fs| - 1];
      OutputsAcks(front);
      PairSnoc(Outputs(front), last);
      assert IdsOf(fs) == IdsOf(front) + [last.id];
    }
  }

  lemma AcksFollow(fs: seq<Opened>)
    ensures var out := Outputs(fs);
      forall k :: 0 <= k < |out| && out[k].QueueAck? ==> k > 0 && out[k - 1].HandOff? && out[k - 1].id == out[k].id
  {
    OutputsPaired(fs);
    var out := Outputs(fs);
    forall k | 0 <= k < |out| && out[k].QueueAck?
      ensures k > 0 && out[k - 1].HandOff? && out[k - 1].id == out[k].id
    {
      assert k == 2 * (k / 2) || k == 2 * (k / 2) + 1;
      assert out[2 * (k / 2)].HandOff?;
    }
  }

  // ----- In terms of the lines

  /** Line `k` is a frame whose payload can be opened. */
  predicate OpensAt(ps: seq<Parsed>, open: string -> Option<string>, k: nat) {
    k < |ps| && ps[k].Some? && open(ps[k].value.1).Some?
  }

  function IdAt(ps: seq<Parsed>, k: nat): Id
    requires k < |ps| && ps[k].Some?
  {
    ps[k].value.0
  }

  ghost predicate SomeOpens(ps: seq<Parsed>, open: string -> Option<string>, id: Id) {
    exists k: nat :: OpensAt(ps, open, k) && IdAt(ps, k) == id
  }

  /** ... and no line before it with the same id can be. */
  ghost predicate FirstOpens(ps: seq<Parsed>, open: string -> Option<string>, k: nat) {
    OpensAt(ps, open, k) && forall j: nat :: j < k && OpensAt(ps, open, j) ==> IdAt(ps, j) != IdAt(ps, k)
  }

  /** `at` lists the lines that are the first of their id to open, in order; for each of them, and for nothing else,
      what it opens to is handed over and then its id is acknowledged. */
  ghost predicate Handled(ps: seq<Parsed>, open: string -> Option<string>, taken: nat -> bool, out: seq<Output>,
                          at: seq<nat>) {
    && |out| == 2 * |at|
    && (forall i :: 0 <= i < |at| ==> HandledAt(ps, open, taken, out, at[i], i))
    && (forall i, j :: 0 <= i < j < |at| ==> at[i] < at[j])
    && (forall k: nat :: FirstOpens(ps, open, k) ==> k in at)
  }

  ghost predicate HandledAt(ps: seq<Parsed>, open: string -> Option<string>, taken: nat -> bool, out: seq<Output>,
                            k: nat, i: nat) {
    && FirstOpens(ps, open, k) && 2 * i + 1 < |out|
    && out[2 * i] == HandOff(IdAt(ps, k), open(ps[k].value.1).value, taken(k))
    && out[2 * i + 1] == QueueAck(IdAt(ps, k))
  }

  lemma OpensInPrefix(ps: seq<Parsed>, open: string -> Option<string>, n: nat)
    requires n <= |ps|
    ensures forall k: nat :: OpensAt(ps[..n], open, k) <==> k < n && OpensAt(ps, open, k)
    ensures forall k: nat :: FirstOpens(ps[..n], open, k) <==> k < n && FirstOpens(ps, open, k)
  {
    assert forall k: nat :: k < n ==> ps[..n][k] == ps[k];
    assert forall k: nat :: k < n && ps[k].Some? ==> IdAt(ps[..n], k) == IdAt(ps, k);
  }

  /** An id has an opened frame exactly if a line with it opens. */
  lemma {:induction false} FramesOpen(ps: seq<Parsed>, open: string -> Option<string>, taken: nat -> bool)
    ensures forall id :: HasId(Frames(ps, open, taken), id) <==> SomeOpens(ps, open, id)
  {
    if ps == [] {
    } else {
      var n := |ps| - 1;
      FramesOpen(ps[..n], open, taken);
      OpensInPrefix(ps, open, n);
      var fs := Frames(ps[..n], open, taken);
      forall id ensures HasId(Frames(ps, open, taken), id) <==> SomeOpens(ps, open, id) {
        assert SomeOpens(ps, open, id) <==>
          SomeOpens(ps[..n], open, id) || (OpensAt(ps, open, n) && IdAt(ps, n) == id) by {
          if k: nat :| OpensAt(ps[..n], open, k) && IdAt(ps[..n], k) == id {
            assert OpensAt(ps, open, k) && IdAt(ps, k) == id;
          }
          if k: nat :| OpensAt(ps, open, k) && IdAt(ps, k) == id && k < n {
            assert OpensAt(ps[..n], open, k) && IdAt(ps[..n], k) == id;
          }
        }
        if OpensAt(ps, open, n) {
          HasIdSnoc(fs, OpenFrame(ps[n], open, taken(n)).value);
        }
      }
    }
  }

  lemma HandledSnoc(ps: seq<Parsed>, open: string -> Option<string>, taken: nat -> bool, out: seq<Output>,
                    at: seq<nat>, f: Opened)
    requires ps != [] && Handled(ps[..|ps| - 1], open, taken, out, at)
    ensures var n := |ps| - 1;
      if FirstOpens(ps, open, n)
      then f == Opened(IdAt(ps, n), open(ps[n].value.1).value, taken(n)) ==>
        Handled(ps, open, taken, out + OutputsOf(f), at + [n])
      else Handled(ps, open, taken, out, at)
  {
    var n := |ps| - 1;
    OpensInPrefix(ps, open, n);
    forall i | 0 <= i < |at|
      ensures HandledAt(ps, open, taken, out, at[i], i)
      ensures HandledAt(ps, open, taken, out + OutputsOf(f), at[i], i)
    {
      assert HandledAt(ps[..n], open, taken, out, at[i], i);
    }
    if FirstOpens(ps, open, n) && f == Opened(IdAt(ps, n), open(ps[n].value.1).value, taken(n)) {
      assert HandledAt(ps, open, taken, out + OutputsOf(f), n, |at|);
    }
  }

  lemma FirstOpensIff(ps: seq<Parsed>, open: string -> Option<string>)
    requires ps != [] && OpensAt(ps, open, |ps| - 1)
    ensures var n := |ps| - 1; FirstOpens(ps, open, n) <==> !SomeOpens(ps[..n], open, IdAt(ps, n))
  {
    var n := |ps| - 1;
    OpensInPrefix(ps, open, n);
    if j: nat :| j < n && OpensAt(ps, open, j) && IdAt(ps, j) == IdAt(ps, n) {
      assert OpensAt(ps[..n], open, j) && IdAt(ps[..n], j) == IdAt(ps, n);
    }
  }

  /** What the last line adds to the outputs. */
  lemma LastLine(ps: seq<Parsed>, open: string -> Option<string>, taken: nat -> bool)
    requires ps != []
    ensures var n := |ps| - 1;
      var before, out := Outputs(FirstOnly(Frames(ps[..n], open, taken))), Outputs(FirstOnly(Frames(ps, open, taken)));
      if FirstOpens(ps, open, n)
      then out == before + OutputsOf(Opened(IdAt(ps, n), open(ps[n].value.1).value, taken(n)))
      else out == before
  {
    var n := |ps| - 1;
    var fs, f := Frames(ps[..n], open, taken), OpenFrame(ps[n], open, taken(n));
    FramesOpen(ps[..n], open, taken);
    if f.Some? {
      FirstOpensIff(ps, open);
      if HasId(fs, f.value.id) {
        RepeatedFrame(fs, f.value);
      } else {
        NewFrame(fs, f.value);
      }
    }
  }

  /** For any stream of lines: exactly the first line of each id that opens is handed over, as it opens, and
      acknowledged, in the order of the lines. */
  lemma {:induction false} HandsOverFirsts(ps: seq<Parsed>, open: string -> Option<string>, taken: nat -> bool)
    returns (at: seq<nat>)
    ensures Handled(ps, open, taken, Outputs(FirstOnly(Frames(ps, open, taken))), at)
  {
    if ps == [] {
      at := [];
    } else {
      var n := |ps| - 1;
      at := HandsOverFirsts(ps[..n], open, taken);
      LastLine(ps, open, taken);
      var before := Outputs(FirstOnly(Frames(ps[..n], open, taken)));
      if FirstOpens(ps, open, n) {
        HandledSnoc(ps, open, taken, before, at, Opened(IdAt(ps, n), open(ps[n].value.1).value, taken(n)));
        at := at + [n];
      } else {
        HandledSnoc(ps, open, taken, before, at, Opened("", "", true));
      }
    }
  }

  /** For any stream of lines, repeated or reordered: no id is acknowledged twice, the acknowledged ids are exactly
      those of the lines that open, and each acknowledgement directly follows the attempt to hand its message over. */
  lemma AcknowledgedOnce(ps: seq<Parsed>, open: string -> Option<string>, taken: nat -> bool)
    ensures var out := Outputs(FirstOnly(Frames(ps, open, taken)));
      && Distinct(Acks(out))
      && (forall id :: id in Acks(out) <==> SomeOpens(ps, open, id))
      && (forall k :: 0 <= k < |out| && out[k].QueueAck? ==> k > 0 && out[k - 1].HandOff? && out[k - 1].id == out[k].id)
  {
    var fs := Frames(ps, open, taken);
    FramesOpen(ps, open, taken);
    FirstOnlyIds(fs);
    OutputsAcks(FirstOnly(fs));
    IdsOfIs(FirstOnly(fs));
    AcksFollow(FirstOnly(fs));
  }

  ghost predicate AllTaken(fs: seq<Opened>) {
    forall k :: 0 <= k < |fs| ==> fs[k].taken
  }

  lemma {:induction false} StoredIffTaken(fs: seq<Opened>)
    ensures |Stored(Outputs(fs))| <= |fs|
    ensures Stored(Outputs(fs)) == IdsOf(fs) <==> AllTaken(fs)
  {
    if fs == [] {
    } else {
      var front, last := fs[..|fs| - 1], fs[|fs| - 1];
      StoredIffTaken(front);
      PairSnoc(Outputs(front), last);
      var ids := IdsOf(fs);
      assert ids == IdsOf(front) + [last.id];
      assert last.taken && Stored(Outputs(fs)) == ids ==> Stored(Outputs(front)) == ids[..|front|];
    }
  }

  /** The acknowledged ids are the stored ones if and only if the storage task takes what the first line of each id to
      open holds. After that task has returned, everything that opens is acknowledged and stored nowhere. */
  lemma AcknowledgedIsStoredIff(ps: seq<Parsed>, open: string -> Option<string>, taken: nat -> bool)
    ensures var out := Outputs(FirstOnly(Frames(ps, open, taken)));
      Acks(out) == Stored(out) <==> forall k: nat :: FirstOpens(ps, open, k) ==> taken(k)
  {
    var firsts := FirstOnly(Frames(ps, open, taken));
    OutputsAcks(firsts);
    StoredIffTaken(firsts);
    var at := HandsOverFirsts(ps, open, taken);
    OutputsPaired(firsts);
    forall i | 0 <= i < |at| ensures firsts[i].taken == taken(at[i]) && FirstOpens(ps, open, at[i]) {
      assert HandledAt(ps, open, taken, Outputs(firsts), at[i], i);
    }
  }

  // ----- The batching writer

  const BATCH := 100

  type Record = string

  datatype TaskEvent = Received(record: Record) | ChannelClosed | TimedOut(running: bool)

  function Records(events: seq<TaskEvent>): seq<Record> {
    if events == [] then []
    else
      var rest, last := Records(events[..|events| - 1]), events[|events| - 1];
      if last.Received? then rest + [last.record] else rest
  }

  /** The records are those received, in order. */
  lemma {:induction false} RecordsAre(events: seq<TaskEvent>) returns (at: seq<nat>)
    ensures |at| == |Records(events)|
    ensures forall i :: 0 <= i < |at| ==> at[i] < |events| && events[at[i]] == Received(Records(events)[i])
    ensures forall i, j :: 0 <= i < j < |at| ==> at[i] < at[j]
    ensures forall k: nat :: k < |events| && events[k].Received? ==> k in at
  {
    if events == [] {
      at := [];
    } else {
      var n := |events| - 1;
      at := RecordsAre(events[..n]);
      if events[n].Received? {
        at := at + [n];
      }
    }
  }

  /** The channel closed, or a timeout found the receiver stopping. */
  predicate Stops(ev: TaskEvent) {
    ev.ChannelClosed? || ev == TimedOut(false)
  }

  /** How many records came in since the last pause. */
  function Unpaused(events: seq<TaskEvent>): nat {
    if events == [] || !events[|events| - 1].Received? then 0 else Unpaused(events[..|events| - 1]) + 1
  }

  lemma OneMoreUnpaused(events: seq<TaskEvent>, n: nat)
    requires n < |events|
    ensures Unpaused(events[..n + 1]) == if events[n].Received? then Unpaused(events[..n]) + 1 else 0
  {
    assert events[..n + 1][..n] == events[..n];
  }

  lemma NextInBatch(n: nat)
    ensures (n + 1) % 100 == if n % 100 == 99 then 0 else n % 100 + 1
  {
  }

  method FlushBatch(written: seq<Record>, batch: seq<Record>) returns (written': seq<Record>, batch': seq<Record>)
    ensures written' == written + batch && batch' == []
  {
    written' := written;
    for i := 0 to |batch|
      invariant written' == written + batch[..i]
    {
      written' := written' + [batch[i]];
    }
    batch' := [];
  }

  /** Runs until the channel closes or a timeout finds the receiver stopping; `stopped` says that one of these happened
      and `used` how many events that took. */
  method ProcessMessages(events: seq<TaskEvent>)
    returns (written: seq<Record>, batch: seq<Record>, used: nat, stopped: bool)
    ensures used <= |events|
    ensures written + batch == Records(events[..used])
    ensures |batch| == Unpaused(events[..used]) % 100
    ensures forall i :: 0 <= i < used - 1 ==> !Stops(events[i])
    ensures if stopped then used > 0 && Stops(events[used - 1]) && batch == []
            else used == |events| && forall i :: 0 <= i < |events| ==> !Stops(events[i])
  {
    written, batch, used, stopped := [], [], 0, false;
    while used < |events| && !stopped
      invariant used <= |events|
      invariant written + batch == Records(events[..used])
      invariant |batch| == Unpaused(events[..used]) % BATCH && |batch| < BATCH
      invariant stopped ==> used > 0 && Stops(events[used - 1])
      invariant forall i :: 0 <= i < (if stopped then used - 1 else used) ==> !Stops(events[i])
      decreases |events| - used
    {
      assert events[..used + 1][..used] == events[..used];
      OneMoreUnpaused(events, used);
      NextInBatch(Unpaused(events[..used]));
      match events[used] {
        case Received(record) =>
          batch := batch + [record];
          if |batch| >= BATCH {
            written, batch := FlushBatch(written, batch);
          }
        case ChannelClosed =>
          if batch != [] {
            written, batch := FlushBatch(written, batch);
          }
          stopped := true;
        case TimedOut(running) =>
          if batch != [] {
            written, batch := FlushBatch(written, batch);
          }
          if !running {
            stopped := true;
          }
      }
      used := used + 1;
    }
  }
}
