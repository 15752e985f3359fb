/** The whole outbox: every row's protocol, the event locks operators and prunes
    take, the prune's side table, and a ghost log of every success ever recorded.

    Relays and task workers take no event lock. A replay, a requeue and a prune do,
    and hold it to the end of their transaction. */
module World {
  import opened Rows
  import opened Protocol
  import opened Retention

  datatype World = World(
    clock: Time,
    cells: map<int, Cell>,
    events: map<int, Event>,
    locks: map<int, string>,             // event -> the transaction holding its row
    stillDue: map<string, set<int>>,     // a prune's re-check, until it deletes
    side: map<string, Time>,             // newest success per receiver among pruned rows
    log: set<(string, Time)>,            // every success ever recorded
    pruned: map<int, Row>)               // deleted rows, as they were deleted

  datatype Step =
    | OnRow(id: int, action: Action)
    | ReopenUnder(txn: string, id: int, action: Action)
    | Fire(event: int, record: Event, rows: map<int, Row>)
    | AddUnder(txn: string, id: int, row: Row)
    | Lock(txn: string, event: int)
    | Recheck(txn: string, arm: Arm, moment: Time, ordinary: int)
    | DeleteEvents(txn: string, side: map<string, Time>)
    | DeleteChunk(txn: string, event: int, chunk: set<int>, side: map<string, Time>)
    | EndTxn(txn: string)

  const EMPTY := World(0, map[], map[], map[], map[], map[], {}, map[])

  function Live(w: World): map<int, Row> {
    map id | id in w.cells :: w.cells[id].row
  }

  predicate Holds(w: World, txn: string, event: int) {
    event in w.locks && w.locks[event] == txn
  }

  predicate NewIds(w: World, ids: set<int>) {
    ids !! w.cells.Keys && ids !! w.pruned.Keys
  }

  ghost predicate Possible(w: World, now: Time, s: Step) {
    && w.clock <= now
    && match s
       case OnRow(id, action) =>
         id in w.cells && !Reopens(action) && Enabled(w.cells[id], now, action)
       case ReopenUnder(txn, id, action) =>
         id in w.cells && Reopens(action) && Enabled(w.cells[id], now, action)
         && Holds(w, txn, w.cells[id].row.event) && txn !in w.stillDue
       case Fire(event, record, rows) =>
         && event !in w.events && record.recordedAt <= now && NewIds(w, rows.Keys)
         && (forall id <- rows ::
               Rows.Fresh(rows[id]) && rows[id].event == event && rows[id].recordedAt == record.recordedAt)
       case AddUnder(txn, id, row) =>
         && row.event in w.events && Holds(w, txn, row.event) && txn !in w.stillDue && NewIds(w, {id})
         && Rows.Fresh(row) && row.recordedAt == w.events[row.event].recordedAt
       case Lock(txn, event) =>
         event in w.events && event !in w.locks
       case Recheck(txn, _, _, _) =>
         true
       case DeleteEvents(txn, side) =>
         txn in w.stillDue
         && Folds(w.side, Only(Live(w), RowsOfEvents(Live(w), w.stillDue[txn])), side)
       case DeleteChunk(txn, event, chunk, side) =>
         txn in w.stillDue && event in w.stillDue[txn]
         && chunk <= RowsOfEvents(Live(w), {event})
         && Folds(w.side, Only(Live(w), chunk), side)
       case EndTxn(_) => true
  }

  function LogOf(w: World, id: int, c: Cell): set<(string, Time)>
    requires id in w.cells
  {
    // An acknowledgement that landed, and nothing else, moves `succeeded_at`.
    if c.commits > w.cells[id].commits && c.row.succeededAt.Some?
    then w.log + {(c.row.key, c.row.succeededAt.value)} else w.log
  }

  /** Replace one row's cell. */
  function WithCell(w: World, now: Time, id: int, c: Cell): World
    requires id in w.cells
  {
    w.(clock := now, cells := w.cells[id := c], log := LogOf(w, id, c))
  }

  function NewCells(rows: map<int, Row>): map<int, Cell> {
    map id | id in rows :: NewCell(rows[id])
  }

  /** Delete rows, their successes folded into the side table, and events with them;
      a prune that deleted its events is done with its re-check. */
  function Removed(w: World, now: Time, txn: string, gone: set<int>, events: set<int>, side: map<string, Time>): World {
    w.(clock := now,
       cells := map id | id in w.cells && id !in gone :: w.cells[id],
       pruned := w.pruned + Only(Live(w), gone),
       side := side,
       events := w.events - events,
       locks := w.locks - events,
       stillDue := if events == {} then w.stillDue else w.stillDue - {txn})
  }

  ghost function Next(w: World, now: Time, s: Step): World
    requires Possible(w, now, s)
  {
    match s
    case OnRow(id, action) =>
      WithCell(w, now, id, Protocol.After(w.cells[id], now, action))
    case ReopenUnder(_, id, action) =>
      WithCell(w, now, id, Protocol.After(w.cells[id], now, action))
    case Fire(event, record, rows) =>
      w.(clock := now, events := w.events[event := record],
         cells := w.cells + NewCells(rows))
    case AddUnder(_, id, row) =>
      w.(clock := now, events := w.events, cells := w.cells + NewCells(map[id := row]))
    case Lock(txn, event) =>
      w.(clock := now, locks := w.locks[event := txn])
    case Recheck(txn, arm, moment, ordinary) =>
      w.(clock := now, stillDue := w.stillDue[txn :=
           set e | e in w.events && Holds(w, txn, e) && Due(arm, w.events[e], Live(w), e, moment, ordinary)])
    case DeleteEvents(txn, side) =>
      Removed(w, now, txn, RowsOfEvents(Live(w), w.stillDue[txn]), w.stillDue[txn], side)
    case DeleteChunk(txn, _, chunk, side) =>
      Removed(w, now, txn, chunk, {}, side)
    case EndTxn(txn) =>
      w.(clock := now,
         locks := map e | e in w.locks && w.locks[e] != txn :: w.locks[e],
         stillDue := w.stillDue - {txn})
  }

  // ---- The invariant --------------------------------------------------------

  ghost predicate CellsOk(w: World) {
    && (forall id <- w.cells :: CellOk(w.cells[id], w.clock))
    && (forall id <- w.cells :: w.cells[id].row.event in w.events)
    && (forall e <- w.events :: w.events[e].recordedAt <= w.clock)
  }

  /** A prune's re-check stands until it deletes: its events are locked and settled. */
  ghost predicate RechecksOk(w: World, rows: map<int, Row>) {
    && w.locks.Keys <= w.events.Keys
    && (forall txn <- w.stillDue :: RecheckOk(w, rows, txn))
  }

  ghost predicate RecheckOk(w: World, rows: map<int, Row>, txn: string)
    requires txn in w.stillDue
  {
    forall e <- w.stillDue[txn] :: Holds(w, txn, e) && Settled(rows, e)
  }

  ghost predicate PrunedOk(w: World) {
    && w.pruned.Keys !! w.cells.Keys
    && forall id <- w.pruned :: Terminal(w.pruned[id].status)
  }

  ghost predicate WorldOk(w: World) {
    && CellsOk(w)
    && RechecksOk(w, Live(w))
    && Accounted(Live(w), w.side, w.log)
    && PrunedOk(w)
  }

  // ---- Every step keeps it ----------------------------------------------------

  lemma OthersAge(w: World, now: Time)
    requires CellsOk(w) && w.clock <= now
    ensures forall id <- w.cells :: CellOk(w.cells[id], now)
  {
    forall id <- w.cells ensures CellOk(w.cells[id], now) {
      TimePasses(w.cells[id], w.clock, now);
    }
  }

  /** What the rest of the outbox sees of a step on one row: `succeeded_at` stays or
      moves forward with the commit that moved it, and a settled row only reopens. */
  predicate Moves(c: Cell, d: Cell, now: Time) {
    && d.row.key == c.row.key && d.row.event == c.row.event
    && d.commits >= c.commits
    && (if d.commits > c.commits then d.row.succeededAt == Some(now) else d.row.succeededAt == c.row.succeededAt)
    && (c.row.succeededAt.Some? ==> c.row.succeededAt.value <= now)
    && (Terminal(c.row.status) ==> d.row == c.row || d.reopens > c.reopens)
    && d.reopens >= c.reopens
  }

  lemma RowActionMoves(c: Cell, now: Time, a: Action)
    requires CellOk(c, now) && Enabled(c, now, a)
    ensures Moves(c, Protocol.After(c, now, a), now)
    ensures Protocol.After(c, now, a).reopens > c.reopens ==> Reopens(a)
  {
    if a.Finish? {
      assert WorkOk(c, now, a.worker);
    }
  }

  lemma LiveAfterWrite(w: World, now: Time, id: int, d: Cell)
    requires id in w.cells
    ensures Live(WithCell(w, now, id, d)) == Live(w)[id := d.row]
  {
  }

  lemma WriteKeepsCells(w: World, now: Time, id: int, d: Cell)
    requires CellsOk(w) && w.clock <= now && id in w.cells
    requires CellOk(d, now) && d.row.event == w.cells[id].row.event
    ensures CellsOk(WithCell(w, now, id, d))
  {
    OthersAge(w, now);
  }

  /** A re-checked event has no row a step may reopen, and its settled rows stay. */
  lemma WriteKeepsRecheck(w: World, rows: map<int, Row>, now: Time, id: int, d: Cell, txn: string)
    requires txn in w.stillDue && RecheckOk(w, rows, txn) && id in w.cells && id in rows && rows[id] == w.cells[id].row
    requires Moves(w.cells[id], d, now)
    requires d.reopens > w.cells[id].reopens ==> d.row.event !in w.stillDue[txn]
    ensures RecheckOk(WithCell(w, now, id, d), rows[id := d.row], txn)
  {
    forall e <- w.stillDue[txn] ensures Settled(rows[id := d.row], e) {
      assert Settled(rows, e);
    }
  }

  lemma WriteKeepsRechecks(w: World, now: Time, id: int, d: Cell)
    requires RechecksOk(w, Live(w)) && id in w.cells && Moves(w.cells[id], d, now)
    requires d.reopens > w.cells[id].reopens ==>
               exists txn :: Holds(w, txn, d.row.event) && txn !in w.stillDue
    ensures RechecksOk(WithCell(w, now, id, d), Live(w)[id := d.row])
  {
    var v := WithCell(w, now, id, d);
    forall txn <- v.stillDue ensures RecheckOk(v, Live(w)[id := d.row], txn) {
      assert RecheckOk(w, Live(w), txn);
      WriteKeepsRecheck(w, Live(w), now, id, d, txn);
    }
  }

  lemma WriteKeeps(w: World, now: Time, id: int, d: Cell)
    requires WorldOk(w) && w.clock <= now && id in w.cells
    requires CellOk(d, now) && Moves(w.cells[id], d, now)
    requires d.reopens > w.cells[id].reopens ==>
               exists txn :: Holds(w, txn, d.row.event) && txn !in w.stillDue
    ensures WorldOk(WithCell(w, now, id, d))
  {
    var v := WithCell(w, now, id, d);
    WriteKeepsCells(w, now, id, d);
    LiveAfterWrite(w, now, id, d);
    AccountedAfterWrite(Live(w), w.side, w.log, id, d.row, v.log);
    WriteKeepsRechecks(w, now, id, d);
    assert PrunedOk(v);
  }

  lemma FreshCellsOk(more: map<int, Row>, now: Time)
    requires forall id <- more :: Rows.Fresh(more[id]) && more[id].recordedAt <= now
    ensures forall id <- more :: CellOk(NewCell(more[id]), now)
  {
    forall id <- more ensures CellOk(NewCell(more[id]), now) {
      FreshCellOk(more[id], now);
    }
  }

  /** New rows go to a new event, or under the event's lock: none a prune re-checked. */
  lemma InsertRechecks(w: World, v: World, more: map<int, Row>)
    requires RechecksOk(w, Live(w)) && v.locks == w.locks && v.stillDue == w.stillDue && w.events.Keys <= v.events.Keys
    requires forall id <- more :: forall txn <- w.stillDue :: more[id].event !in w.stillDue[txn]
    ensures RechecksOk(v, Live(w) + more)
  {
    forall txn <- v.stillDue ensures RecheckOk(v, Live(w) + more, txn) {
      assert RecheckOk(w, Live(w), txn);
      forall e <- v.stillDue[txn] ensures Settled(Live(w) + more, e) {
        assert Settled(Live(w), e);
      }
    }
  }

  lemma LiveAfterInsert(w: World, v: World, more: map<int, Row>)
    requires v.cells == w.cells + NewCells(more)
    ensures Live(v) == Live(w) + more
  {
    forall id <- v.cells ensures id in Live(w) + more && Live(v)[id] == (Live(w) + more)[id] {
      if id in more {
        assert NewCells(more)[id] == NewCell(more[id]);
      }
    }
  }

  lemma InsertedCells(w: World, now: Time, more: map<int, Row>, events: map<int, Event>)
    requires CellsOk(w) && w.clock <= now && w.events.Keys <= events.Keys
    requires forall id <- more :: Rows.Fresh(more[id]) && more[id].recordedAt <= now && more[id].event in events
    requires forall e <- events :: events[e].recordedAt <= now
    ensures CellsOk(w.(clock := now, events := events, cells := w.cells + NewCells(more)))
  {
    OthersAge(w, now);
    FreshCellsOk(more, now);
  }

  lemma InsertKeeps(w: World, now: Time, more: map<int, Row>, events: map<int, Event>)
    requires WorldOk(w) && w.clock <= now && NewIds(w, more.Keys) && w.events.Keys <= events.Keys
    requires forall id <- more :: Rows.Fresh(more[id]) && more[id].recordedAt <= now && more[id].event in events
    requires forall e <- events :: events[e].recordedAt <= now
    requires forall id <- more :: forall txn <- w.stillDue :: more[id].event !in w.stillDue[txn]
    ensures WorldOk(w.(clock := now, events := events, cells := w.cells + NewCells(more)))
  {
    var v := w.(clock := now, events := events, cells := w.cells + NewCells(more));
    InsertedCells(w, now, more, events);
    LiveAfterInsert(w, v, more);
    AccountedAfterInsert(Live(w), w.side, w.log, more);
    InsertRechecks(w, v, more);
  }

  lemma LocksKeep(w: World, v: World)
    requires WorldOk(w) && w.clock <= v.clock
    requires v == w.(clock := v.clock, locks := v.locks, stillDue := v.stillDue)
    requires RechecksOk(v, Live(w))
    ensures WorldOk(v)
  {
    OthersAge(w, v.clock);
    assert Live(v) == Live(w);
  }

  lemma LockStepRechecks(w: World, now: Time, s: Step)
    requires RechecksOk(w, Live(w)) && Possible(w, now, s) && (s.Lock? || s.Recheck? || s.EndTxn?)
    ensures RechecksOk(Next(w, now, s), Live(w))
  {
    var v := Next(w, now, s);
    forall txn <- v.stillDue ensures RecheckOk(v, Live(w), txn) {
      if s.Recheck? && txn == s.txn {
        forall e <- v.stillDue[txn] ensures Settled(Live(w), e) {
          DueIsSettled(s.arm, w.events[e], Live(w), e, s.moment, s.ordinary);
        }
      } else {
        assert RecheckOk(w, Live(w), txn);
      }
    }
  }

  /** The rows a delete takes are settled rows of events its prune re-checked. */
  lemma DoomedAreSettled(w: World, txn: string, gone: set<int>)
    requires WorldOk(w) && txn in w.stillDue && gone <= RowsOfEvents(Live(w), w.stillDue[txn])
    ensures forall id <- gone :: id in w.cells && Terminal(w.cells[id].row.status)
  {
    forall id <- gone ensures id in w.cells && Terminal(w.cells[id].row.status) {
      var rows := Live(w);
      assert RecheckOk(w, rows, txn);
      assert id in rows && Settled(rows, rows[id].event);
    }
  }

  lemma DeleteRechecks(w: World, v: World, txn: string, gone: set<int>, events: set<int>)
    requires RechecksOk(w, Live(w)) && txn in w.stillDue
    requires events == {} || events == w.stillDue[txn]
    requires v.events.Keys == w.events.Keys - events && v.locks == w.locks - events
    requires v.stillDue == if events == {} then w.stillDue else w.stillDue - {txn}
    ensures RechecksOk(v, Without(Live(w), gone))
  {
    forall t <- v.stillDue ensures RecheckOk(v, Without(Live(w), gone), t) {
      assert RecheckOk(w, Live(w), t);
      assert RecheckOk(w, Live(w), txn);
      forall e <- v.stillDue[t] ensures Holds(v, t, e) && Settled(Without(Live(w), gone), e) {
        assert Holds(w, t, e) && Settled(Live(w), e);
      }
    }
  }

  lemma DeletedCells(w: World, now: Time, txn: string, gone: set<int>, events: set<int>, side: map<string, Time>)
    requires CellsOk(w) && w.clock <= now && txn in w.stillDue
    requires events == {} || gone == RowsOfEvents(Live(w), events)
    ensures CellsOk(Removed(w, now, txn, gone, events, side))
  {
    OthersAge(w, now);
    var v := Removed(w, now, txn, gone, events, side);
    forall id <- v.cells ensures v.cells[id].row.event in v.events {
      assert id in Live(w);
    }
  }

  lemma DeletedPruned(w: World, now: Time, txn: string, gone: set<int>, events: set<int>, side: map<string, Time>)
    requires WorldOk(w) && txn in w.stillDue && gone <= RowsOfEvents(Live(w), w.stillDue[txn])
    ensures PrunedOk(Removed(w, now, txn, gone, events, side))
  {
    DoomedAreSettled(w, txn, gone);
  }

  lemma DeleteKeeps(w: World, now: Time, txn: string, gone: set<int>, events: set<int>, side: map<string, Time>)
    requires WorldOk(w) && w.clock <= now && txn in w.stillDue
    requires gone <= RowsOfEvents(Live(w), w.stillDue[txn]) && Folds(w.side, Only(Live(w), gone), side)
    requires events == {} || (events == w.stillDue[txn] && gone == RowsOfEvents(Live(w), events))
    ensures WorldOk(Removed(w, now, txn, gone, events, side))
  {
    var v := Removed(w, now, txn, gone, events, side);
    DeletedCells(w, now, txn, gone, events, side);
    DeletedPruned(w, now, txn, gone, events, side);
    assert Live(v) == Without(Live(w), gone);
    AccountedAfterDelete(Live(w), w.side, w.log, gone, side);
    DeleteRechecks(w, v, txn, gone, events);
  }

  lemma RowStepKeeps(w: World, now: Time, id: int, a: Action)
    requires WorldOk(w) && w.clock <= now && id in w.cells && Enabled(w.cells[id], now, a)
    requires Reopens(a) ==> exists txn :: Holds(w, txn, w.cells[id].row.event) && txn !in w.stillDue
    ensures WorldOk(WithCell(w, now, id, Protocol.After(w.cells[id], now, a)))
  {
    TimePasses(w.cells[id], w.clock, now);
    StepKeeps(w.cells[id], w.clock, now, a);
    RowActionMoves(w.cells[id], now, a);
    WriteKeeps(w, now, id, Protocol.After(w.cells[id], now, a));
  }

  lemma FireKeeps(w: World, now: Time, s: Step)
    requires WorldOk(w) && s.Fire? && Possible(w, now, s)
    ensures WorldOk(Next(w, now, s))
  {
    assert forall txn <- w.stillDue :: RecheckOk(w, Live(w), txn);
    InsertKeeps(w, now, s.rows, w.events[s.event := s.record]);
  }

  lemma AddKeeps(w: World, now: Time, s: Step)
    requires WorldOk(w) && s.AddUnder? && Possible(w, now, s)
    ensures WorldOk(Next(w, now, s))
  {
    assert forall txn <- w.stillDue :: RecheckOk(w, Live(w), txn);
    assert s.row.recordedAt <= now;
    InsertKeeps(w, now, map[s.id := s.row], w.events);
  }

  lemma StepKeepsWorld(w: World, now: Time, s: Step)
    requires WorldOk(w) && Possible(w, now, s)
    ensures WorldOk(Next(w, now, s))
  {
    match s
    case OnRow(id, action) => RowStepKeeps(w, now, id, action);
    case ReopenUnder(_, id, action) => RowStepKeeps(w, now, id, action);
    case Fire(_, _, _) => FireKeeps(w, now, s);
    case AddUnder(_, _, _) => AddKeeps(w, now, s);
    case DeleteEvents(txn, side) =>
      DeleteKeeps(w, now, txn, RowsOfEvents(Live(w), w.stillDue[txn]), w.stillDue[txn], side);
    case DeleteChunk(txn, _, chunk, side) =>
      DeleteKeeps(w, now, txn, chunk, {}, side);
    case _ =>
      LockStepRechecks(w, now, s);
      LocksKeep(w, Next(w, now, s));
  }

  // ---- Runs -----------------------------------------------------------------

  ghost predicate StepAt(ws: seq<World>, ss: seq<Step>, i: nat)
    requires |ws| == |ss| + 1 && i < |ss|
  {
    Possible(ws[i], ws[i + 1].clock, ss[i]) && ws[i + 1] == Next(ws[i], ws[i + 1].clock, ss[i])
  }

  /** A run from the empty outbox: `ss[i]` takes `ws[i]` to `ws[i + 1]`, at its clock. */
  ghost predicate IsRun(ws: seq<World>, ss: seq<Step>) {
    && |ws| == |ss| + 1
    && ws[0] == EMPTY
    && forall i | 0 <= i < |ss| :: StepAt(ws, ss, i)
  }

  /** The run takes the step `s` from `ws[i]`. */
  ghost predicate Takes(ws: seq<World>, ss: seq<Step>, i: nat, s: Step) {
    IsRun(ws, ss) && i < |ss| && ss[i] == s && StepAt(ws, ss, i)
  }

  lemma {:induction false} Always(ws: seq<World>, ss: seq<Step>, i: nat)
    requires IsRun(ws, ss) && i < |ws|
    ensures WorldOk(ws[i])
  {
    if i > 0 {
      Always(ws, ss, i - 1);
      assert StepAt(ws, ss, i - 1);
      StepKeepsWorld(ws[i - 1], ws[i].clock, ss[i - 1]);
    }
  }
}
