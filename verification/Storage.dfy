/** The storage actor of server/src/storage.rs: delivery and acknowledgement times are buffered and written in batches,
    and this refines writing each of them at once. SQL statements are given by their meaning on the table. */
module Storage {
  import opened Prelude

  type Id = string
  type Time = string

  const BATCH_SIZE: nat := 50

  datatype Column = DeliveredTime | AcknowledgedTime

  datatype Row = Row(clientId: string, exchangeName: string, routingKey: string, sentTime: Option<Time>,
                     deliveredTime: Option<Time>, acknowledgedTime: Option<Time>)
  {
    function Get(col: Column): Option<Time> {
      match col
      case DeliveredTime => deliveredTime
      case AcknowledgedTime => acknowledgedTime
    }

    function Set(col: Column, t: Time): Row {
      match col
      case DeliveredTime => this.(deliveredTime := Some(t))
      case AcknowledgedTime => this.(acknowledgedTime := Some(t))
    }
  }

  type Table = map<Id, Row>

  datatype Command =
    | Save(id: Id, row: Row)
    | UpdateAsync(col: Column, id: Id, time: Time)
    | UpdateSync(col: Column, id: Id, time: Time)
    | FlushUpdates
    | Tick
    | Query            // the reading commands and the public-key commands

  /** The table with the two buffers. */
  datatype Actor = Actor(table: Table, delivered: map<Id, Time>, acknowledged: map<Id, Time>)
  {
    function Buffer(col: Column): map<Id, Time> {
      match col
      case DeliveredTime => delivered
      case AcknowledgedTime => acknowledged
    }

    function WithBuffer(col: Column, b: map<Id, Time>): Actor {
      match col
      case DeliveredTime => this.(delivered := b)
      case AcknowledgedTime => this.(acknowledged := b)
    }
  }

  /** INSERT ... ON CONFLICT: an existing row keeps its two times. */
  function Upsert(table: Table, id: Id, row: Row): Table {
    table[id := if id in table
                then row.(deliveredTime := table[id].deliveredTime, acknowledgedTime := table[id].acknowledgedTime)
                else row]
  }

  /** UPDATE ... WHERE the column IS NULL, for one row. */
  function SetIfNull(table: Table, col: Column, id: Id, t: Time): Table {
    if id in table && table[id].Get(col).None? then table[id := table[id].Set(col, t)] else table
  }

  /** UPDATE ... FROM the buffered pairs WHERE the column IS NULL. */
  function SetAllIfNull(table: Table, col: Column, updates: map<Id, Time>): Table {
    map id | id in table ::
      if id in updates && table[id].Get(col).None? then table[id].Set(col, updates[id]) else table[id]
  }

  function Flush(a: Actor, col: Column): Actor {
    a.(table := SetAllIfNull(a.table, col, a.Buffer(col))).WithBuffer(col, map[])
  }

  function FlushBoth(a: Actor): Actor {
    Flush(Flush(a, DeliveredTime), AcknowledgedTime)
  }

  function Step(a: Actor, cmd: Command): Actor {
    match cmd
    case Save(id, row) => a.(table := Upsert(a.table, id, row))
    case UpdateAsync(col, id, t) =>
      var a1 := a.WithBuffer(col, a.Buffer(col)[id := t]);
      if |a1.Buffer(col)| >= BATCH_SIZE then Flush(a1, col) else a1
    case UpdateSync(col, id, t) => a.(table := SetIfNull(a.table, col, id, t))
    case FlushUpdates => FlushBoth(a)
    case Tick => FlushBoth(a)
    case Query => a
  }

  /** The executor without buffers. */
  function StepNow(table: Table, cmd: Command): Table {
    match cmd
    case Save(id, row) => Upsert(table, id, row)
    case UpdateAsync(col, id, t) => SetIfNull(table, col, id, t)
    case UpdateSync(col, id, t) => SetIfNull(table, col, id, t)
    case _ => table
  }

  function Run(cmds: seq<Command>): Actor {
    if cmds == [] then Actor(map[], map[], map[]) else Step(Run(cmds[..|cmds| - 1]), cmds[|cmds| - 1])
  }

  function RunNow(cmds: seq<Command>): Table {
    if cmds == [] then map[] else StepNow(RunNow(cmds[..|cmds| - 1]), cmds[|cmds| - 1])
  }

  // ----- What the two executors agree on

  predicate NonNull(table: Table, col: Column, id: Id) {
    id in table && table[id].Get(col).Some?
  }

  predicate SameButTimes(r: Row, r': Row) {
    && r.clientId == r'.clientId && r.exchangeName == r'.exchangeName
    && r.routingKey == r'.routingKey && r.sentTime == r'.sentTime
  }

  /** A row has a time in the immediate table exactly when it has one here or its update is buffered. */
  ghost predicate Refines(a: Actor, now: Table) {
    && a.table.Keys == now.Keys
    && (forall id :: id in now ==> SameButTimes(a.table[id], now[id]))
    && (forall col, id :: NonNull(now, col, id) <==> NonNull(a.table, col, id) || id in a.Buffer(col))
  }

  /** The value a row will have once its buffered update is written. */
  function Pending(a: Actor, col: Column, id: Id): Option<Time> {
    if NonNull(a.table, col, id) then a.table[id].Get(col)
    else if id in a.Buffer(col) then Some(a.Buffer(col)[id])
    else None
  }

  function Value(table: Table, col: Column, id: Id): Option<Time> {
    if id in table then table[id].Get(col) else None
  }

  /** Also the times agree. */
  ghost predicate Agrees(a: Actor, now: Table) {
    Refines(a, now) && forall col, id :: Pending(a, col, id) == Value(now, col, id)
  }

  lemma FlushRow(a: Actor, col: Column, c: Column, id: Id)
    requires id in a.Buffer(c) ==> id in a.table
    ensures var f := Flush(a, col);
      && (NonNull(f.table, c, id) || id in f.Buffer(c) <==> NonNull(a.table, c, id) || id in a.Buffer(c))
      && Pending(f, c, id) == Pending(a, c, id)
  {
  }

  lemma FlushRefines(a: Actor, col: Column, now: Table)
    requires Refines(a, now)
    ensures Refines(Flush(a, col), now)
    ensures Agrees(a, now) <==> Agrees(Flush(a, col), now)
  {
    var f := Flush(a, col);
    forall c, id
      ensures NonNull(f.table, c, id) || id in f.Buffer(c) <==> NonNull(a.table, c, id) || id in a.Buffer(c)
      ensures Pending(f, c, id) == Pending(a, c, id)
    {
      assert id in a.Buffer(c) ==> NonNull(now, c, id);
      FlushRow(a, col, c, id);
    }
  }

  /** An update arrives after its row was saved, or is flushed at once. */
  predicate RowFirst(a: Actor, cmd: Command) {
    cmd.UpdateAsync? ==> cmd.id in a.table || |a.Buffer(cmd.col)[cmd.id := cmd.time]| >= BATCH_SIZE
  }

  /** Writing `t` for this row now gives what the buffer would give: the row already has its time, or nothing is
      buffered for it, or the same time is. */
  predicate Harmless(a: Actor, col: Column, id: Id, t: Time) {
    NonNull(a.table, col, id) || id !in a.Buffer(col) || a.Buffer(col)[id] == t
  }

  lemma SetIfNullEffect(table: Table, col: Column, id: Id, t: Time)
    ensures var r := SetIfNull(table, col, id, t);
      && r.Keys == table.Keys
      && (forall i :: i in table ==> SameButTimes(table[i], r[i]))
      && (forall c, i :: Value(r, c, i) ==
            if c == col && i == id && id in table && Value(table, c, i).None? then Some(t) else Value(table, c, i))
  {
  }

  lemma BufferRefines(a: Actor, col: Column, id: Id, t: Time, now: Table)
    requires Refines(a, now)
    ensures var a1, now1 := a.WithBuffer(col, a.Buffer(col)[id := t]), SetIfNull(now, col, id, t);
      && (Refines(a1, now1) <==> id in a.table)
      && (id in a.table && Agrees(a, now) ==> (Agrees(a1, now1) <==> Harmless(a, col, id, t)))
  {
    var a1, now1 := a.WithBuffer(col, a.Buffer(col)[id := t]), SetIfNull(now, col, id, t);
    SetIfNullEffect(now, col, id, t);
    assert forall c, i :: NonNull(now1, c, i) <==> Value(now1, c, i).Some?;
    assert forall c, i :: NonNull(now, c, i) <==> Value(now, c, i).Some?;
    forall c, i ensures i in a1.Buffer(c) <==> i in a.Buffer(c) || (c == col && i == id) {
    }
    if id in a.table {
      forall c, i
        ensures Pending(a1, c, i) ==
          if c == col && i == id && !NonNull(a.table, c, i) then Some(t) else Pending(a, c, i)
      {
      }
    } else {
      assert id in a1.Buffer(col) && !NonNull(now1, col, id);
    }
  }

  lemma SyncRefines(a: Actor, col: Column, id: Id, t: Time, now: Table)
    requires Refines(a, now)
    ensures var a1, now1 := a.(table := SetIfNull(a.table, col, id, t)), SetIfNull(now, col, id, t);
      && Refines(a1, now1)
      && (Agrees(a, now) ==> (Agrees(a1, now1) <==> (id in a.table ==> Harmless(a, col, id, t))))
  {
    var a1, now1 := a.(table := SetIfNull(a.table, col, id, t)), SetIfNull(now, col, id, t);
    SetIfNullEffect(now, col, id, t);
    SetIfNullEffect(a.table, col, id, t);
    assert forall c, i :: NonNull(now1, c, i) <==> Value(now1, c, i).Some?;
    assert forall c, i :: NonNull(now, c, i) <==> Value(now, c, i).Some?;
    assert forall c, i :: NonNull(a1.table, c, i) <==> Value(a1.table, c, i).Some?;
    assert forall c, i :: NonNull(a.table, c, i) <==> Value(a.table, c, i).Some?;
    forall c, i
      ensures Pending(a1, c, i) ==
        if c == col && i == id && id in a.table && !NonNull(a.table, c, i) then Some(t) else Pending(a, c, i)
    {
    }
  }

  lemma UpsertRefines(a: Actor, id: Id, row: Row, now: Table)
    requires Refines(a, now)
    ensures var a1, now1 := a.(table := Upsert(a.table, id, row)), Upsert(now, id, row);
      Refines(a1, now1) && (Agrees(a, now) ==> Agrees(a1, now1))
  {
    var a1, now1 := a.(table := Upsert(a.table, id, row)), Upsert(now, id, row);
    forall c, i
      ensures id !in now ==> i != id || i !in a.Buffer(c)
      ensures NonNull(now1, c, i) <==> NonNull(a1.table, c, i) || i in a1.Buffer(c)
      ensures Agrees(a, now) ==> Pending(a1, c, i) == Value(now1, c, i)
    {
      assert i in a.Buffer(c) ==> NonNull(now, c, i);
      assert Agrees(a, now) ==> Pending(a, c, i) == Value(now, c, i);
    }
  }

  /** An immediate flush forgets an update whose row was never saved. */
  lemma FlushForgets(a: Actor, col: Column, id: Id, t: Time)
    requires id !in a.table
    ensures Flush(a.WithBuffer(col, a.Buffer(col)[id := t]), col) == Flush(a, col)
  {
    assert SetAllIfNull(a.table, col, a.Buffer(col)[id := t]) == SetAllIfNull(a.table, col, a.Buffer(col));
  }

  /** Each command keeps the refinement if and only if its row comes first, and keeps the times equal if and only if in
      addition it does not write a different time over a buffered one. Both can be checked before the command. */
  predicate Clean(a: Actor, cmd: Command) {
    && RowFirst(a, cmd)
    && ((cmd.UpdateAsync? || cmd.UpdateSync?) && cmd.id in a.table ==> Harmless(a, cmd.col, cmd.id, cmd.time))
  }

  lemma AsyncRefinesIff(a: Actor, col: Column, id: Id, t: Time, now: Table)
    requires Refines(a, now)
    ensures var cmd := UpdateAsync(col, id, t);
      && (Refines(Step(a, cmd), SetIfNull(now, col, id, t)) <==> RowFirst(a, cmd))
      && (Agrees(a, now) ==> (Agrees(Step(a, cmd), SetIfNull(now, col, id, t)) <==> Clean(a, cmd)))
  {
    var a1 := a.WithBuffer(col, a.Buffer(col)[id := t]);
    BufferRefines(a, col, id, t, now);
    if |a1.Buffer(col)| >= BATCH_SIZE {
      if id in a.table {
        FlushRefines(a1, col, SetIfNull(now, col, id, t));
      } else {
        FlushForgets(a, col, id, t);
        FlushRefines(a, col, now);
      }
    }
  }

  lemma BothRefine(a: Actor, now: Table)
    requires Refines(a, now)
    ensures Refines(FlushBoth(a), now) && (Agrees(a, now) <==> Agrees(FlushBoth(a), now))
  {
    FlushRefines(a, DeliveredTime, now);
    FlushRefines(Flush(a, DeliveredTime), AcknowledgedTime, now);
  }

  lemma StepRefinesIff(a: Actor, cmd: Command, now: Table)
    requires Refines(a, now)
    ensures Refines(Step(a, cmd), StepNow(now, cmd)) <==> RowFirst(a, cmd)
    ensures Agrees(a, now) ==> (Agrees(Step(a, cmd), StepNow(now, cmd)) <==> Clean(a, cmd))
  {
    match cmd {
      case Save(id, row) => UpsertRefines(a, id, row, now);
      case UpdateAsync(col, id, t) => AsyncRefinesIff(a, col, id, t, now);
      case UpdateSync(col, id, t) => SyncRefines(a, col, id, t, now);
      case Query =>
      case _ => BothRefine(a, now);
    }
  }

  // ----- Runs

  ghost predicate RowsFirst(cmds: seq<Command>) {
    cmds != [] ==> RowsFirst(cmds[..|cmds| - 1]) && RowFirst(Run(cmds[..|cmds| - 1]), cmds[|cmds| - 1])
  }

  ghost predicate AlwaysClean(cmds: seq<Command>) {
    cmds != [] ==> AlwaysClean(cmds[..|cmds| - 1]) && Clean(Run(cmds[..|cmds| - 1]), cmds[|cmds| - 1])
  }

  ghost predicate AlwaysAgrees(cmds: seq<Command>) {
    Agrees(Run(cmds), RunNow(cmds)) && (cmds != [] ==> AlwaysAgrees(cmds[..|cmds| - 1]))
  }

  /** For any order of commands and any flush points, if each row is saved before its updates, the rows with a time plus
      the buffered ids are the rows the immediate executor has given a time. */
  lemma {:induction false} BufferingRefines(cmds: seq<Command>)
    requires RowsFirst(cmds)
    ensures Refines(Run(cmds), RunNow(cmds))
  {
    if cmds == [] {
    } else {
      var n := |cmds| - 1;
      BufferingRefines(cmds[..n]);
      StepRefinesIff(Run(cmds[..n]), cmds[n], RunNow(cmds[..n]));
    }
  }

  /** The times agree throughout a run if and only if every command of it is clean. */
  lemma {:induction false} TimesAgreeIff(cmds: seq<Command>)
    ensures AlwaysAgrees(cmds) <==> AlwaysClean(cmds)
  {
    if cmds == [] {
    } else {
      var n := |cmds| - 1;
      TimesAgreeIff(cmds[..n]);
      if AlwaysAgrees(cmds[..n]) {
        StepRefinesIff(Run(cmds[..n]), cmds[n], RunNow(cmds[..n]));
      }
    }
  }

  /** At most one update per row and column between flushes: no update meets a buffered one. */
  ghost predicate OncePerWindow(cmds: seq<Command>) {
    cmds != [] ==>
      var a, cmd := Run(cmds[..|cmds| - 1]), cmds[|cmds| - 1];
      OncePerWindow(cmds[..|cmds| - 1])
      && (cmd.UpdateAsync? || cmd.UpdateSync? ==> cmd.id !in a.Buffer(cmd.col))
  }

  lemma {:induction false} OncePerWindowAgrees(cmds: seq<Command>)
    requires RowsFirst(cmds) && OncePerWindow(cmds)
    ensures AlwaysClean(cmds) && AlwaysAgrees(cmds)
  {
    if cmds == [] {
    } else {
      OncePerWindowAgrees(cmds[..|cmds| - 1]);
    }
    TimesAgreeIff(cmds);
  }

  lemma StepBounded(a: Actor, cmd: Command)
    requires |a.delivered| < BATCH_SIZE && |a.acknowledged| < BATCH_SIZE
    ensures |Step(a, cmd).delivered| < BATCH_SIZE && |Step(a, cmd).acknowledged| < BATCH_SIZE
    ensures forall col, id :: NonNull(a.table, col, id) ==>
      Value(Step(a, cmd).table, col, id) == Value(a.table, col, id)
  {
  }

  /** After every command both buffers hold fewer than 50 updates, and a time once written is never overwritten. */
  lemma {:induction false} BuffersBounded(cmds: seq<Command>, k: nat)
    requires k <= |cmds|
    ensures |Run(cmds).delivered| < 50 && |Run(cmds).acknowledged| < 50
    ensures forall col, id :: NonNull(Run(cmds[..k]).table, col, id) ==>
      Value(Run(cmds).table, col, id) == Value(Run(cmds[..k]).table, col, id)
  {
    if k == |cmds| {
      assert cmds[..k] == cmds;
    }
    if cmds == [] {
    } else {
      var n := |cmds| - 1;
      BuffersBounded(cmds[..n], if k <= n then k else n);
      StepBounded(Run(cmds[..n]), cmds[n]);
      assert k <= n ==> cmds[..n][..k] == cmds[..k];
    }
  }

  /** Whether or not it triggers a flush, a buffered update decides what the one column of its saved row will hold,
      unless that is decided already, and no other value. */
  lemma AsyncUpdateEffect(a: Actor, col: Column, id: Id, t: Time, c: Column, i: Id)
    requires i in a.table
    ensures Pending(Step(a, UpdateAsync(col, id, t)), c, i)
         == if c == col && i == id && !NonNull(a.table, col, id) then Some(t) else Pending(a, c, i)
  {
    var a1 := a.WithBuffer(col, a.Buffer(col)[id := t]);
    assert Pending(a1, c, i) == if c == col && i == id && !NonNull(a.table, col, id) then Some(t) else Pending(a, c, i);
    FlushRow(a1, col, c, i);
  }

  // ----- Rows and times in terms of the commands

  predicate SavesAt(cmds: seq<Command>, id: Id, i: nat) {
    i < |cmds| && cmds[i].Save? && cmds[i].id == id
  }

  predicate UpdatesAt(cmds: seq<Command>, col: Column, id: Id, i: nat) {
    i < |cmds| && (cmds[i].UpdateAsync? || cmds[i].UpdateSync?) && cmds[i].col == col && cmds[i].id == id
  }

  ghost predicate LatestSave(cmds: seq<Command>, id: Id, i: nat) {
    SavesAt(cmds, id, i) && forall j: nat :: i < j ==> !SavesAt(cmds, id, j)
  }

  ghost predicate FirstSave(cmds: seq<Command>, id: Id, i: nat) {
    SavesAt(cmds, id, i) && forall j: nat :: j < i ==> !SavesAt(cmds, id, j)
  }

  lemma PrefixCommands(cmds: seq<Command>, id: Id)
    requires cmds != []
    ensures var n := |cmds| - 1;
      forall i: nat :: SavesAt(cmds[..n], id, i) <==> i < n && SavesAt(cmds, id, i)
    ensures var n := |cmds| - 1;
      forall i: nat, col :: UpdatesAt(cmds[..n], col, id, i) <==> i < n && UpdatesAt(cmds, col, id, i)
  {
  }

  /** What one command does to a row, whatever is flushed with it: a save sets the four columns and gives a new row its
      two times, and nothing else adds a row or changes these columns. */
  lemma RowStep(a: Actor, cmd: Command, id: Id)
    ensures var t := Step(a, cmd).table;
      && (id in t <==> id in a.table || (cmd.Save? && cmd.id == id))
      && (id in t ==> SameButTimes(t[id], if cmd.Save? && cmd.id == id then cmd.row else a.table[id]))
      && (cmd.Save? && cmd.id == id && id !in a.table ==> t[id] == cmd.row)
      && (cmd.Save? && (cmd.id != id || id in a.table) ==> forall col :: Value(t, col, id) == Value(a.table, col, id))
  {
  }

  /** A message has a row exactly when some command saved one, and its client, exchange, key and sent time are those of
      the latest save. */
  lemma {:induction false} RowIsLatestSave(cmds: seq<Command>, id: Id)
    ensures id in Run(cmds).table <==> exists i: nat :: SavesAt(cmds, id, i)
    ensures forall i: nat :: LatestSave(cmds, id, i) ==>
      id in Run(cmds).table && SameButTimes(Run(cmds).table[id], cmds[i].row)
  {
    if cmds == [] {
    } else {
      var n := |cmds| - 1;
      RowIsLatestSave(cmds[..n], id);
      PrefixCommands(cmds, id);
      RowStep(Run(cmds[..n]), cmds[n], id);
      assert SavesAt(cmds, id, n) <==> cmds[n].Save? && cmds[n].id == id;
      forall i: nat | LatestSave(cmds, id, i)
        ensures id in Run(cmds).table && SameButTimes(Run(cmds).table[id], cmds[i].row)
      {
        if i < n {
          assert LatestSave(cmds[..n], id, i) && !SavesAt(cmds, id, n);
        }
      }
    }
  }

  lemma {:induction false} SavedNow(cmds: seq<Command>, id: Id)
    ensures id in RunNow(cmds) <==> exists i: nat :: SavesAt(cmds, id, i)
  {
    if cmds == [] {
    } else {
      var n := |cmds| - 1;
      SavedNow(cmds[..n], id);
      PrefixCommands(cmds, id);
      assert SavesAt(cmds, id, n) <==> cmds[n].Save? && cmds[n].id == id;
    }
  }

  /** Update `j` is the first of its row and column after command `i`. */
  ghost predicate FirstUpdate(cmds: seq<Command>, col: Column, id: Id, i: nat, j: nat) {
    i < j && UpdatesAt(cmds, col, id, j) && forall h: nat :: i < h < j ==> !UpdatesAt(cmds, col, id, h)
  }

  /** The time the commands give a row first saved by command `i`: the one it was saved with, or else that of the first
      update after it. */
  ghost predicate TimeBy(cmds: seq<Command>, col: Column, id: Id, i: nat, time: Option<Time>)
    requires SavesAt(cmds, id, i)
  {
    if cmds[i].row.Get(col).Some? then time == cmds[i].row.Get(col)
    else if time.Some? then exists j: nat :: FirstUpdate(cmds, col, id, i, j) && time.value == cmds[j].time
    else forall j: nat :: i < j ==> !UpdatesAt(cmds, col, id, j)
  }

  /** The immediate executor in terms of its commands: the time of a row is the one it was first saved with, or else
      that of the first update after that save. */
  lemma {:induction false} ImmediateTime(cmds: seq<Command>, col: Column, id: Id, i: nat)
    requires FirstSave(cmds, id, i)
    ensures TimeBy(cmds, col, id, i, Value(RunNow(cmds), col, id))
  {
    var n := |cmds| - 1;
    PrefixCommands(cmds, id);
    SavedNow(cmds[..n], id);
    if i < n {
      assert SavesAt(cmds[..n], id, i);
      ImmediateTime(cmds[..n], col, id, i);
      var before, now := Value(RunNow(cmds[..n]), col, id), Value(RunNow(cmds), col, id);
      if cmds[i].row.Get(col).None? {
        if before.Some? {
          var j: nat :| FirstUpdate(cmds[..n], col, id, i, j) && before.value == cmds[..n][j].time;
          assert FirstUpdate(cmds, col, id, i, j) && now == before;
        } else if UpdatesAt(cmds, col, id, n) {
          assert FirstUpdate(cmds, col, id, i, n) && now == Some(cmds[n].time);
        }
      }
    }
  }

  /** A flush command or a tick leaves nothing buffered, and every row then has the time that was buffered for it unless
      it had one. */
  lemma FlushWrites(a: Actor, cmd: Command)
    requires cmd.FlushUpdates? || cmd.Tick?
    ensures var r := Step(a, cmd);
      && r.delivered == map[] && r.acknowledged == map[] && r.table.Keys == a.table.Keys
      && (forall col, id :: id in a.table ==> Value(r.table, col, id) == Pending(a, col, id))
  {
    var f := Flush(a, DeliveredTime);
    forall col, id | id in a.table ensures Value(Step(a, cmd).table, col, id) == Pending(a, col, id) {
      FlushRow(a, DeliveredTime, col, id);
      FlushRow(f, AcknowledgedTime, col, id);
    }
  }

  /** A synchronous update writes its time at once if the row has none, and touches nothing else. */
  lemma SyncUpdateEffect(a: Actor, col: Column, id: Id, t: Time, c: Column, i: Id)
    ensures var r := Step(a, UpdateSync(col, id, t));
      && (c == col && i == id && id in a.table && Value(a.table, c, i).None? ==> Value(r.table, c, i) == Some(t))
      && (!(c == col && i == id && Value(a.table, c, i).None?) ==> Value(r.table, c, i) == Value(a.table, c, i))
      && r.table.Keys == a.table.Keys && r.delivered == a.delivered && r.acknowledged == a.acknowledged
  {
    SetIfNullEffect(a.table, col, id, t);
  }

  /** A buffered update waits unless it is the fiftieth of its buffer; that one empties it. */
  lemma FlushesAtFifty(a: Actor, col: Column, id: Id, t: Time)
    ensures var r, ids := Step(a, UpdateAsync(col, id, t)), a.Buffer(col).Keys + {id};
      && r.Buffer(col).Keys == (if |ids| < 50 then ids else {})
      && (forall c :: c != col ==> r.Buffer(c) == a.Buffer(c))
      && (|ids| < 50 ==> r.table == a.table && r.Buffer(col)[id] == t)
  {
    var b := a.Buffer(col)[id := t];
    assert b.Keys == a.Buffer(col).Keys + {id} && |b| == |b.Keys|;
  }

  // ----- Two runs in which the executors differ

  function BlankRow(): Row {
    Row("", "", "", None, None, None)
  }

  /** A second time in one window: the buffer keeps it, the immediate executor the first. */
  lemma SecondTimeWins(id: Id, first: Time, second: Time)
    ensures var cmds := [Save(id, BlankRow()), UpdateAsync(DeliveredTime, id, first),
                         UpdateAsync(DeliveredTime, id, second), FlushUpdates];
      && Value(Run(cmds).table, DeliveredTime, id) == Some(second)
      && Value(RunNow(cmds), DeliveredTime, id) == Some(first)
  {
    var save, one, two := Save(id, BlankRow()), UpdateAsync(DeliveredTime, id, first), UpdateAsync(DeliveredTime, id,
      second);
    assert [save, one, two, FlushUpdates][..3] == [save, one, two];
    assert [save, one, two][..2] == [save, one] && [save, one][..1] == [save] && [save][..0] == [];
    assert Run([save]) == Actor(map[id := BlankRow()], map[], map[]);
    assert Run([save, one]) == Actor(map[id := BlankRow()], map[id := first], map[]);
    assert Run([save, one, two]) == Actor(map[id := BlankRow()], map[id := second], map[]);
    assert RunNow([save]) == map[id := BlankRow()];
    assert Value(RunNow([save, one]), DeliveredTime, id) == Some(first);
  }

  /** An update that overtakes its row: the buffer keeps it, the immediate executor loses it. */
  lemma EarlyUpdateKept(id: Id, t: Time)
    ensures var cmds := [UpdateAsync(DeliveredTime, id, t), Save(id, BlankRow()), FlushUpdates];
      Value(Run(cmds).table, DeliveredTime, id) == Some(t) && Value(RunNow(cmds), DeliveredTime, id) == None
  {
    var one, save := UpdateAsync(DeliveredTime, id, t), Save(id, BlankRow());
    assert [one, save, FlushUpdates][..2] == [one, save] && [one, save][..1] == [one] && [one][..0] == [];
    assert Run([one]) == Actor(map[], map[id := t], map[]);
    assert Run([one, save]) == Actor(map[id := BlankRow()], map[id := t], map[]);
    assert RunNow([one]) == map[];
    assert RunNow([one, save]) == map[id := BlankRow()];
  }

  /** SELECT ... WHERE acknowledged_time IS NULL. */
  function Unacknowledged(table: Table): set<Id> {
    set id | id in table && table[id].acknowledgedTime.None?
  }

  /** A load returns the rows without an acknowledged time: it may return rows whose acknowledgement is still buffered,
      but misses none that is unacknowledged. */
  lemma LoadsAllUnacknowledged(a: Actor, now: Table)
    requires Refines(a, now)
    ensures forall id :: id in Unacknowledged(a.table) <==> id in a.table && a.table[id].acknowledgedTime == None
    ensures forall id :: id in now && now[id].acknowledgedTime == None <==>
      id in Unacknowledged(a.table) && id !in a.acknowledged
  {
    forall id
      ensures id in now && now[id].acknowledgedTime == None <==> id in Unacknowledged(a.table) && id !in a.acknowledged
    {
      assert NonNull(now, AcknowledgedTime, id) <==>
        NonNull(a.table, AcknowledgedTime, id) || id in a.Buffer(AcknowledgedTime);
    }
  }

  // ----- The actor itself

  class StorageActor {
    var table: Table
    var deliveredUpdates: map<Id, Time>
    var acknowledgedUpdates: map<Id, Time>

    ghost function View(): Actor
      reads this
    {
      Actor(table, deliveredUpdates, acknowledgedUpdates)
    }

    constructor ()
      ensures View() == Run([])
    {
      table, deliveredUpdates, acknowledgedUpdates := map[], map[], map[];
    }

    method FlushDeliveredUpdates()
      modifies this`table, this`deliveredUpdates
      ensures View() == Flush(old(View()), DeliveredTime)
    {
      if |deliveredUpdates| == 0 {
        assert deliveredUpdates == map[];
        assert table == SetAllIfNull(table, DeliveredTime, map[]);
        return;
      }
      table := SetAllIfNull(table, DeliveredTime, deliveredUpdates);
      deliveredUpdates := map[];
    }

    method FlushAcknowledgedUpdates()
      modifies this`table, this`acknowledgedUpdates
      ensures View() == Flush(old(View()), AcknowledgedTime)
    {
      if |acknowledgedUpdates| == 0 {
        assert acknowledgedUpdates == map[];
        assert table == SetAllIfNull(table, AcknowledgedTime, map[]);
        return;
      }
      table := SetAllIfNull(table, AcknowledgedTime, acknowledgedUpdates);
      acknowledgedUpdates := map[];
    }

    method UpdateDeliveredTimeAsync(id: Id, time: Time)
      modifies this`table, this`deliveredUpdates
      ensures View() == Step(old(View()), UpdateAsync(DeliveredTime, id, time))
    {
      deliveredUpdates := deliveredUpdates[id := time];
      if |deliveredUpdates| >= BATCH_SIZE {
        FlushDeliveredUpdates();
      }
    }

    method UpdateAcknowledgedTimeAsync(id: Id, time: Time)
      modifies this`table, this`acknowledgedUpdates
      ensures View() == Step(old(View()), UpdateAsync(AcknowledgedTime, id, time))
    {
      acknowledgedUpdates := acknowledgedUpdates[id := time];
      if |acknowledgedUpdates| >= BATCH_SIZE {
        FlushAcknowledgedUpdates();
      }
    }

    method Handle(cmd: Command)
      modifies this
      ensures View() == Step(old(View()), cmd)
    {
      match cmd {
        case Save(id, row) => table := Upsert(table, id, row);
        case UpdateAsync(col, id, time) =>
          if col == DeliveredTime {
            UpdateDeliveredTimeAsync(id, time);
          } else {
            UpdateAcknowledgedTimeAsync(id, time);
          }
        case UpdateSync(col, id, time) => table := SetIfNull(table, col, id, time);
        case FlushUpdates =>
          FlushDeliveredUpdates();
          FlushAcknowledgedUpdates();
        case Tick =>
          ghost var before := View();
          if |deliveredUpdates| != 0 || |acknowledgedUpdates| != 0 {
            FlushDeliveredUpdates();
            FlushAcknowledgedUpdates();
          } else {
            FlushNothing(before);
          }
        case Query =>
      }
    }

    /** The actor loop over any finite stream of commands and ticks. */
    method Serve(cmds: seq<Command>)
      requires View() == Run([])
      modifies this
      ensures View() == Run(cmds)
      ensures forall id :: id in table <==> exists i: nat :: SavesAt(cmds, id, i)
      ensures forall id, i: nat :: LatestSave(cmds, id, i) ==> SameButTimes(table[id], cmds[i].row)
      ensures RowsFirst(cmds) ==> Refines(View(), RunNow(cmds))
      ensures |deliveredUpdates| < 50 && |acknowledgedUpdates| < 50
    {
      for i := 0 to |cmds|
        invariant View() == Run(cmds[..i])
      {
        assert cmds[..i + 1][..i] == cmds[..i];
        Handle(cmds[i]);
      }
      assert cmds[..|cmds|] == cmds;
      BuffersBounded(cmds, 0);
      forall id
        ensures id in table <==> exists i: nat :: SavesAt(cmds, id, i)
        ensures forall i: nat :: LatestSave(cmds, id, i) ==> id in table && SameButTimes(table[id], cmds[i].row)
      {
        RowIsLatestSave(cmds, id);
      }
      if RowsFirst(cmds) {
        BufferingRefines(cmds);
      }
    }
  }

  lemma FlushNothing(a: Actor)
    requires |a.delivered| == 0 && |a.acknowledged| == 0
    ensures FlushBoth(a) == a
  {
    assert a.delivered == map[] && a.acknowledged == map[];
    assert SetAllIfNull(a.table, DeliveredTime, map[]) == a.table;
    assert SetAllIfNull(a.table, AcknowledgedTime, map[]) == a.table;
  }
}
