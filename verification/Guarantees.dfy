/** What holds of every run of the outbox: any number of relays, task workers,
    operators and prunes, in any interleaving. */
module Guarantees {
  import opened Rows
  import opened Protocol
  import opened Retention
  import opened World

  lemma Stepped(ws: seq<World>, ss: seq<Step>, i: nat)
    requires IsRun(ws, ss) && i < |ss|
    ensures StepAt(ws, ss, i) && WorldOk(ws[i]) && WorldOk(ws[i + 1])
  {
    Always(ws, ss, i);
    Always(ws, ss, i + 1);
  }

  // ---- Rows outlive a step or are pruned, and ids are not reused ---------------

  lemma CellAfterStep(w: World, now: Time, s: Step, id: int)
    requires WorldOk(w) && Possible(w, now, s) && id in w.cells
    ensures var v := Next(w, now, s);
            || (id in v.cells && (if (s.OnRow? || s.ReopenUnder?) && s.id == id
                                  then v.cells[id] == Protocol.After(w.cells[id], now, s.action)
                                  else v.cells[id] == w.cells[id]))
            || ((s.DeleteEvents? || s.DeleteChunk?) && id in v.pruned && v.pruned[id] == w.cells[id].row
                && Terminal(w.cells[id].row.status))
  {
    if s.DeleteEvents? {
      DoomedAreSettled(w, s.txn, RowsOfEvents(Live(w), w.stillDue[s.txn]));
    } else if s.DeleteChunk? {
      DoomedAreSettled(w, s.txn, s.chunk);
    }
  }

  lemma PrunedAfterStep(w: World, now: Time, s: Step, id: int)
    requires Possible(w, now, s) && id in w.pruned
    ensures id in Next(w, now, s).pruned
  {
  }

  /** What a step is to one row: its protocol's step, or nothing, or its end in a prune;
      or its start, fresh. */
  ghost predicate CellMoves(w: World, v: World, s: Step, id: int) {
    && w.clock <= v.clock
    && (id in w.cells ==>
          CellOk(w.cells[id], w.clock) && (id in v.pruned || (id in v.cells && CellGoesOn(w, v, s, id))))
    && (id !in w.cells && id in v.cells ==> Rows.Fresh(v.cells[id].row) && v.cells[id] == NewCell(v.cells[id].row))
    && (id in w.pruned ==> id in v.pruned)
  }

  ghost predicate CellGoesOn(w: World, v: World, s: Step, id: int)
    requires id in w.cells && id in v.cells
  {
    if (s.OnRow? || s.ReopenUnder?) && s.id == id then
      && Enabled(w.cells[id], v.clock, s.action) && (s.ReopenUnder? ==> Reopens(s.action))
      && v.cells[id] == Protocol.After(w.cells[id], v.clock, s.action)
    else
      v.cells[id] == w.cells[id]
  }

  lemma CellMoved(w: World, now: Time, s: Step, id: int)
    requires WorldOk(w) && Possible(w, now, s)
    ensures CellMoves(w, Next(w, now, s), s, id)
  {
    if id in w.cells {
      CellAfterStep(w, now, s, id);
    }
  }

  lemma CellMovesAt(ws: seq<World>, ss: seq<Step>, i: nat, id: int)
    requires IsRun(ws, ss) && i < |ss|
    ensures CellMoves(ws[i], ws[i + 1], ss[i], id)
  {
    Stepped(ws, ss, i);
    CellMoved(ws[i], ws[i + 1].clock, ss[i], id);
  }

  lemma {:induction false} PrunedStaysPruned(ws: seq<World>, ss: seq<Step>, i: nat, j: nat, id: int)
    requires IsRun(ws, ss) && i <= j < |ws| && id in ws[i].pruned
    ensures id in ws[j].pruned
  {
    if i < j {
      PrunedStaysPruned(ws, ss, i, j - 1, id);
      CellMovesAt(ws, ss, j - 1, id);
    }
  }

  // ---- Exactly one commit per time a row was owed --------------------------------

  /** Effectively once: a row's receiver committed at most once, and once more for
      each time somebody reopened the row. */
  lemma EffectivelyOnce(ws: seq<World>, ss: seq<Step>, i: nat, id: int)
    requires IsRun(ws, ss) && i < |ws| && id in ws[i].cells
    ensures ws[i].cells[id].commits <= 1 + ws[i].cells[id].reopens
    ensures ws[i].cells[id].row.status != Succeeded ==> ws[i].cells[id].commits <= ws[i].cells[id].reopens
  {
    Always(ws, ss, i);
  }

  /** Whoever finishes a row it no longer holds changes nothing; whoever finishes one
      it holds found it claimed, and no other worker's fence matches. */
  lemma LosersRollBack(ws: seq<World>, ss: seq<Step>, i: nat, id: int, worker: string, v: Verdict, p: Policy, j: Jitter)
    requires Takes(ws, ss, i, OnRow(id, Finish(worker, v, p, j)))
    ensures var c, d := ws[i].cells[id], ws[i + 1].cells[id];
            if Owned(c.row, c.work[worker].fence) then
              && c.row.status == Claimed
              && forall other <- c.work | other != worker && !c.work[other].Held? ::
                   !Owned(c.row, c.work[other].fence)
            else d == c.(work := c.work - {worker})
  {
    Always(ws, ss, i);
    var c := ws[i].cells[id];
    assert forall w <- c.work :: WorkOk(c, ws[i].clock, w);
  }

  // ---- Snapshots and budgets -------------------------------------------------

  /** While a run's fence matches, its row is claimed and is what it read but for
      the lease, so the attempt it writes is the row's own plus one. */
  lemma SnapshotsHold(ws: seq<World>, ss: seq<Step>, i: nat, id: int, worker: string)
    requires IsRun(ws, ss) && i < |ws| && id in ws[i].cells
    requires worker in ws[i].cells[id].work && ws[i].cells[id].work[worker].Running?
    requires Owned(ws[i].cells[id].row, ws[i].cells[id].work[worker].fence)
    ensures var c := ws[i].cells[id];
            c.row.status == Claimed && OnlyLeaseMoved(c.work[worker].row, c.row)
  {
    Always(ws, ss, i);
    assert WorkOk(ws[i].cells[id], ws[i].clock, worker);
  }

  /** No row is past its budget, and an owed one has some left. */
  lemma BudgetsHold(ws: seq<World>, ss: seq<Step>, i: nat, id: int)
    requires IsRun(ws, ss) && i < |ws| && id in ws[i].cells
    ensures var row := ws[i].cells[id].row;
            row.attempts <= row.maxAttempts && (!Terminal(row.status) ==> row.attempts < row.maxAttempts)
  {
    Always(ws, ss, i);
  }

  // ---- Schedules -------------------------------------------------------------

  /** A scheduled row waits for its due time. */
  lemma ScheduledRowsWait(ws: seq<World>, ss: seq<Step>, i: nat, id: int)
    requires IsRun(ws, ss) && i < |ws| && id in ws[i].cells
    ensures var row := ws[i].cells[id].row;
            Retryable(row.status) && row.dueAt.Some? ==> row.availableAt >= row.dueAt.value
  {
    Always(ws, ss, i);
  }

  /** No receiver starts before its row is due, under any claim: not the row its worker
      read, nor, where it read the row claimed, the row as it is. */
  lemma NeverEarly(ws: seq<World>, ss: seq<Step>, i: nat, id: int, worker: string, lease: nat)
    requires Takes(ws, ss, i, OnRow(id, Start(worker, lease)))
    ensures var c, now := ws[i].cells[id], ws[i + 1].clock;
            && !NotYetDue(c.work[worker].row, now)
            && (c.work[worker].row.status == Claimed ==> Owned(c.row, c.work[worker].fence) && !NotYetDue(c.row, now))
  {
    Always(ws, ss, i);
    TimePasses(ws[i].cells[id], ws[i].clock, ws[i + 1].clock);
    NeverStartsEarly(ws[i].cells[id], ws[i + 1].clock, worker, lease);
  }

  /** And no outcome is recorded of a run that started early: one that lands started on
      a claimed row that was due. */
  lemma EarlyRunsNeverLand(ws: seq<World>, ss: seq<Step>, i: nat, id: int, worker: string, v: Verdict, p: Policy,
                           j: Jitter)
    requires Takes(ws, ss, i, OnRow(id, Finish(worker, v, p, j)))
    ensures var c, run := ws[i].cells[id], ws[i].cells[id].work[worker];
            if Owned(c.row, run.fence) then run.row.status == Claimed && !NotYetDue(c.row, run.since)
            else ws[i + 1].cells[id] == c.(work := c.work - {worker})
  {
    Always(ws, ss, i);
    if Owned(ws[i].cells[id].row, ws[i].cells[id].work[worker].fence) {
      LandingRunsWereDue(ws[i].cells[id], ws[i].clock, worker);
    }
  }

  // ---- Leases ----------------------------------------------------------------

  predicate LeasedAhead(row: Row, now: Time, lease: nat) {
    && row.leaseEnd.Some?
    && lease <= row.leaseEnd.value - now
    && 10 * (row.leaseEnd.value - now) <= 11 * lease
  }

  /** A run, or a hand-off, that passes its start check on a claimed row has between
      its lease and 1.1 of it ahead of that reading of the clock. */
  lemma StartsUnderItsLease(ws: seq<World>, ss: seq<Step>, i: nat, id: int, worker: string, lease: nat)
    requires Takes(ws, ss, i, OnRow(id, Start(worker, lease))) || Takes(ws, ss, i, OnRow(id, HandOff(worker, lease)))
    requires ws[i].cells[id].work[worker].row.status == Claimed
    ensures LeasedAhead(ws[i + 1].cells[id].row, ws[i + 1].clock, lease)
    ensures Owned(ws[i + 1].cells[id].row, ws[i].cells[id].work[worker].fence)
  {
    Always(ws, ss, i);
    var c, now := ws[i].cells[id], ws[i + 1].clock;
    TimePasses(c, ws[i].clock, now);
    SecuredLease(c, now, worker, lease);
  }

  /** In-lease work is never wasted: a write within the lease it started under lands. */
  lemma InLeaseWorkLands(ws: seq<World>, ss: seq<Step>, i: nat, id: int, worker: string, v: Verdict, p: Policy,
                         j: Jitter)
    requires Takes(ws, ss, i, OnRow(id, Finish(worker, v, p, j)))
    requires var run := ws[i].cells[id].work[worker];
             run.leased && ws[i + 1].clock <= run.since + run.lease
    ensures var c := ws[i].cells[id];
            && Owned(c.row, c.work[worker].fence)
            && ws[i + 1].cells[id].row == Recorded(c.row, c.work[worker].row, v, p, ws[i + 1].clock, j)
  {
    Always(ws, ss, i);
    WritesWithinTheLeaseLand(ws[i].cells[id], ws[i].clock, ws[i + 1].clock, ss[i].action);
  }

  // ---- Messages --------------------------------------------------------------

  /** Of any number of copies of one hand-off's message, at most one passes. */
  lemma OneCopyPasses(ws: seq<World>, ss: seq<Step>, i: nat, id: int, message: Token)
    requires IsRun(ws, ss) && i < |ws| && id in ws[i].cells
    ensures ws[i].cells[id].takes[message] <= 1
  {
    Always(ws, ss, i);
  }

  /** The token is spent, and the row has been taken under it so many times; or the row
      is gone. */
  predicate StaysSpent(w: World, id: int, message: Token, takes: nat) {
    id in w.pruned || (id in w.cells && Spent(w.cells[id], message) && w.cells[id].takes[message] == takes)
  }

  lemma SpentStep(w: World, v: World, s: Step, id: int, message: Token, takes: nat)
    requires CellMoves(w, v, s, id) && StaysSpent(w, id, message, takes)
    ensures StaysSpent(v, id, message, takes)
  {
    if id in w.cells && (s.OnRow? || s.ReopenUnder?) && s.id == id && id !in v.pruned {
      TimePasses(w.cells[id], w.clock, v.clock);
      SpentStaysSpent(w.cells[id], v.clock, s.action, message);
    }
  }

  /** Once its row was taken, re-claimed, settled, rescheduled or reopened, no copy of
      the message passes, ever. */
  lemma {:induction false} SpentForever(ws: seq<World>, ss: seq<Step>, i: nat, j: nat, id: int, message: Token)
    requires IsRun(ws, ss) && i <= j < |ws| && id in ws[i].cells && Spent(ws[i].cells[id], message)
    ensures StaysSpent(ws[j], id, message, ws[i].cells[id].takes[message])
  {
    if i < j {
      SpentForever(ws, ss, i, j - 1, id, message);
      CellMovesAt(ws, ss, j - 1, id);
      SpentStep(ws[j - 1], ws[j], ss[j - 1], id, message, ws[i].cells[id].takes[message]);
    }
  }

  // ---- Owed rows -------------------------------------------------------------

  /** From when a claim may take an owed row: once it is available, or its lease is over. */
  function WaitsFrom(row: Row): Time {
    if row.status == Claimed && row.leaseEnd.Some? then row.leaseEnd.value + 1 else row.availableAt
  }

  /** No owed row is ever stranded: whatever its attempts and its due time, it has a moment
      from which any worker's claim may take it, whether or not it honours the backoff. */
  lemma NoRowIsStranded(ws: seq<World>, ss: seq<Step>, i: nat, id: int, now: Time, worker: string, lease: nat,
                        ignoreBackoff: bool)
    requires IsRun(ws, ss) && i < |ws| && id in ws[i].cells
    requires var s := ws[i].cells[id].row.status; s == Pending || s == Failed || s == Claimed
    requires now >= WaitsFrom(ws[i].cells[id].row) && now >= ws[i].clock
    requires Unseen(ws[i].cells[id], worker, now)
    ensures Possible(ws[i], now, OnRow(id, Claim(worker, lease, ignoreBackoff)))
    ensures var after := Next(ws[i], now, OnRow(id, Claim(worker, lease, ignoreBackoff))).cells[id].row;
            after.status == Claimed && after.claim == Token(worker, Some(now)) && after.leaseEnd == Some(now + lease)
  {
    Always(ws, ss, i);
  }

  // ---- Settled rows ----------------------------------------------------------

  lemma SettledAfterStep(w: World, now: Time, s: Step, id: int)
    requires WorldOk(w) && Possible(w, now, s) && id in w.cells && Terminal(w.cells[id].row.status)
    ensures var v := Next(w, now, s);
            || id in v.pruned
            || (id in v.cells && (v.cells[id].row == w.cells[id].row || (s.ReopenUnder? && s.id == id)))
  {
    CellAfterStep(w, now, s, id);
    if s.OnRow? && s.id == id {
      TimePasses(w.cells[id], w.clock, now);
      TerminalRowsAbsorb(w.cells[id], now, s.action);
    }
  }

  /** A settled row - a cancelled one included - stays as it is until a replay, a
      requeue or the prune. */
  lemma {:induction false} SettledRowsStay(ws: seq<World>, ss: seq<Step>, i: nat, j: nat, id: int)
    requires IsRun(ws, ss) && i <= j < |ws| && id in ws[i].cells && Terminal(ws[i].cells[id].row.status)
    requires forall k | i <= k < j :: ss[k].ReopenUnder? ==> ss[k].id != id
    ensures id in ws[j].pruned || (id in ws[j].cells && ws[j].cells[id].row == ws[i].cells[id].row)
  {
    if i < j {
      SettledRowsStay(ws, ss, i, j - 1, id);
      Stepped(ws, ss, j - 1);
      if id in ws[j - 1].pruned {
        PrunedAfterStep(ws[j - 1], ws[j].clock, ss[j - 1], id);
      } else {
        SettledAfterStep(ws[j - 1], ws[j].clock, ss[j - 1], id);
      }
    }
  }

  // ---- Pruning ---------------------------------------------------------------

  /** A prune never deletes a row that is owed, alone or with its event. */
  lemma PruneKeepsOwedRows(ws: seq<World>, ss: seq<Step>, i: nat, id: int)
    requires IsRun(ws, ss) && i < |ss| && id in ws[i].cells && !Terminal(ws[i].cells[id].row.status)
    ensures id in ws[i + 1].cells && ws[i].cells[id].row.event in ws[i + 1].events
  {
    Stepped(ws, ss, i);
    CellAfterStep(ws[i], ws[i + 1].clock, ss[i], id);
    if ss[i].OnRow? && ss[i].id == id {
      TimePasses(ws[i].cells[id], ws[i].clock, ws[i + 1].clock);
      RowActionMoves(ws[i].cells[id], ws[i + 1].clock, ss[i].action);
    }
    assert id in ws[i + 1].cells ==> ws[i + 1].cells[id].row.event in ws[i + 1].events;
  }

  /** An event with an owed row when the prune re-checks, a replay's say, is kept. */
  lemma RecheckSparesReopened(ws: seq<World>, ss: seq<Step>, i: nat, id: int)
    requires IsRun(ws, ss) && i < |ss| && ss[i].Recheck? && StepAt(ws, ss, i)
    requires id in ws[i].cells && !Terminal(ws[i].cells[id].row.status)
    ensures ws[i].cells[id].row.event !in ws[i + 1].stillDue[ss[i].txn]
  {
    Always(ws, ss, i + 1);
    assert RecheckOk(ws[i + 1], Live(ws[i + 1]), ss[i].txn);
    assert id in Live(ws[i + 1]);
  }

  predicate Standing(w: World, txn: string, event: int) {
    txn in w.stillDue && event in w.stillDue[txn]
  }

  predicate RowOf(w: World, id: int, event: int) {
    id in w.cells && w.cells[id].row.event == event
  }

  lemma RecheckedIsSettled(w: World, txn: string, event: int, id: int)
    requires WorldOk(w) && Standing(w, txn, event) && RowOf(w, id, event)
    ensures Terminal(w.cells[id].row.status)
  {
    assert RecheckOk(w, Live(w), txn);
    assert Live(w)[id].event == event;
  }

  /** A row of a re-checked event was there before the step, settled, as it is now. */
  lemma RecheckedBefore(w: World, now: Time, s: Step, txn: string, event: int, id: int)
    requires WorldOk(w) && Possible(w, now, s) && WorldOk(Next(w, now, s))
    requires Standing(w, txn, event) && Standing(Next(w, now, s), txn, event) && RowOf(Next(w, now, s), id, event)
    ensures RowOf(w, id, event) && w.cells[id].row == Next(w, now, s).cells[id].row
  {
    RecheckedIsSettled(Next(w, now, s), txn, event, id);
    if id in w.cells {
      CellAfterStep(w, now, s, id);
      if (s.OnRow? || s.ReopenUnder?) && s.id == id {
        TimePasses(w.cells[id], w.clock, now);
        RowActionMoves(w.cells[id], now, s.action);
      }
      RecheckedIsSettled(w, txn, event, id);
      SettledAfterStep(w, now, s, id);
    }
  }

  /** From its re-check to its delete a prune's events hold exactly the rows they
      held, every one settled, but for the chunks the prune itself deletes. */
  lemma {:induction false} RecheckHolds(ws: seq<World>, ss: seq<Step>, i: nat, j: nat, txn: string, event: int, id: int)
    requires IsRun(ws, ss) && i <= j < |ws|
    requires forall k | i <= k <= j :: Standing(ws[k], txn, event)
    requires RowOf(ws[j], id, event)
    ensures RowOf(ws[i], id, event) && ws[i].cells[id].row == ws[j].cells[id].row
    ensures Terminal(ws[i].cells[id].row.status)
  {
    if i == j {
      Always(ws, ss, i);
      RecheckedIsSettled(ws[i], txn, event, id);
    } else {
      RecheckedAt(ws, ss, j - 1, txn, event, id);
      RecheckHolds(ws, ss, i, j - 1, txn, event, id);
    }
  }

  lemma RecheckedAt(ws: seq<World>, ss: seq<Step>, k: nat, txn: string, event: int, id: int)
    requires IsRun(ws, ss) && k < |ss|
    requires Standing(ws[k], txn, event) && Standing(ws[k + 1], txn, event) && RowOf(ws[k + 1], id, event)
    ensures RowOf(ws[k], id, event) && ws[k].cells[id].row == ws[k + 1].cells[id].row
  {
    Stepped(ws, ss, k);
    RecheckedBefore(ws[k], ws[k + 1].clock, ss[k], txn, event, id);
  }

  /** The rows a prune's step deletes. */
  function Gone(w: World, s: Step): set<int>
    requires s.DeleteEvents? || s.DeleteChunk?
  {
    if s.DeleteChunk? then s.chunk
    else if s.txn in w.stillDue then RowsOfEvents(Live(w), w.stillDue[s.txn]) else {}
  }

  lemma LiveAfterPrune(w: World, now: Time, s: Step)
    requires Possible(w, now, s) && (s.DeleteEvents? || s.DeleteChunk?)
    ensures Live(Next(w, now, s)) == Without(Live(w), Gone(w, s))
  {
  }

  lemma PruneStepIsInvisible(w: World, now: Time, s: Step, key: string, last: Option<Time>)
    requires Possible(w, now, s) && (s.DeleteEvents? || s.DeleteChunk?)
    requires Newest(Live(w), w.side, key, last)
    ensures Newest(Live(Next(w, now, s)), Next(w, now, s).side, key, last)
  {
    LiveAfterPrune(w, now, s);
    DeletingIsInvisible(Live(w), Gone(w, s), w.side, s.side, key, last);
  }

  /** Pruning is invisible to `quiet_receivers`, batch by batch and chunk by chunk. */
  lemma PruneIsInvisible(ws: seq<World>, ss: seq<Step>, i: nat, key: string, last: Option<Time>)
    requires IsRun(ws, ss) && i < |ss| && (ss[i].DeleteEvents? || ss[i].DeleteChunk?)
    requires Newest(Live(ws[i]), ws[i].side, key, last)
    ensures Newest(Live(ws[i + 1]), ws[i + 1].side, key, last)
  {
    Stepped(ws, ss, i);
    PruneStepIsInvisible(ws[i], ws[i + 1].clock, ss[i], key, last);
  }

  /** At any moment its answer is the newest success the receiver ever recorded,
      across every replay, requeue and prune. */
  lemma QuietReadsTheNewestEver(ws: seq<World>, ss: seq<Step>, i: nat, key: string, last: Option<Time>)
    requires IsRun(ws, ss) && i < |ws| && Newest(Live(ws[i]), ws[i].side, key, last)
    ensures last.Some? ==> (key, last.value) in ws[i].log
    ensures forall s <- ws[i].log | s.0 == key :: last.Some? && s.1 <= last.value
  {
    Always(ws, ss, i);
    AccountedIsNewestEver(Live(ws[i]), ws[i].side, ws[i].log, key, last);
  }

  // ---- Deferrals ---------------------------------------------------------------

  /** Claims of this row honour the backoff; its receiver gives up after `bound`, and
      its uncounted deferrals ask for at least `least`. */
  predicate Patient(s: Step, id: int, least: nat, ceiling: nat, bound: nat) {
    s.OnRow? && s.id == id ==>
      match s.action
      case Claim(_, _, ignoreBackoff) => !ignoreBackoff
      case Finish(_, verdict, policy, _) =>
        && policy.ceiling == ceiling && policy.giveUpAfter == Some(bound)
        && (verdict.RetryAfter? && !verdict.counts ==> verdict.delay >= least)
      case _ => true
  }

  /** So many gaps, added up. */
  function Gaps(n: nat, gap: nat): nat {
    if n == 0 then 0 else Gaps(n - 1, gap) + gap
  }

  lemma {:induction false} GapsMultiply(n: nat, gap: nat)
    ensures Gaps(n, gap) == n * gap
  {
    if n > 0 {
      GapsMultiply(n - 1, gap);
      assert n * gap == (n - 1) * gap + gap;
    }
  }

  predicate SpacedOut(c: Cell, clock: Time, gap: nat, bound: nat) {
    && (Retryable(c.row.status) ==> OwedSince(c.row) + Gaps(c.deferrals, gap) <= c.row.availableAt)
    && (c.row.status == Claimed ==> OwedSince(c.row) + Gaps(c.deferrals, gap) <= clock)
    && (c.deferrals > 0 ==> Gaps(c.deferrals - 1, gap) < bound)
  }

  lemma SpacedRecord(row: Row, read: Row, v: Verdict, p: Policy, now: Time, jitter: Jitter, spent: nat, gap: nat,
                     bound: nat)
    requires OnlyLeaseMoved(read, row) && row.status == Claimed
    requires OwedSince(row) + spent <= now && p.giveUpAfter == Some(bound)
    requires v.RetryAfter? && !v.counts ==> gap <= Capped(v.delay, p.ceiling)
    ensures var after := Recorded(row, read, v, p, now, jitter);
            && after.status != Claimed
            && (if Defers(read, v, p, now) then spent < bound && OwedSince(after) + spent + gap <= after.availableAt
                else if v.NotYet? then OwedSince(after) == after.availableAt
                else Retryable(after.status) ==> OwedSince(after) + spent <= after.availableAt)
  {
    if v.RetryAfter? {
      SpreadBounds(v.delay, p.ceiling, jitter);
    }
  }

  lemma SpacedDeferral(c: Cell, clock: Time, now: Time, a: Action, gap: nat, bound: nat)
    requires CellOk(c, clock) && clock <= now && Enabled(c, now, a) && SpacedOut(c, clock, gap, bound)
    requires a.Finish? && a.policy.giveUpAfter == Some(bound)
    requires a.verdict.RetryAfter? && !a.verdict.counts ==> gap <= Capped(a.verdict.delay, a.policy.ceiling)
    ensures SpacedOut(Protocol.After(c, now, a), now, gap, bound)
  {
    assert WorkOk(c, clock, a.worker);
    var w := c.work[a.worker];
    if Owned(c.row, w.fence) {
      SpacedRecord(c.row, w.row, a.verdict, a.policy, now, a.jitter, Gaps(c.deferrals, gap), gap, bound);
      assert Recorded(c.row, w.row, a.verdict, a.policy, now, a.jitter) == Protocol.After(c, now, a).row;
    }
  }

  /** Nothing but an outcome defers: any other step leaves the row as late as it was. */
  lemma SpacedOtherwise(c: Cell, now: Time, a: Action, gap: nat, bound: nat)
    requires Enabled(c, now, a) && SpacedOut(c, now, gap, bound) && !a.Finish? && (a.Claim? ==> !a.ignoreBackoff)
    ensures SpacedOut(Protocol.After(c, now, a), now, gap, bound)
  {
  }

  lemma SpacedStep(c: Cell, clock: Time, now: Time, id: int, a: Action, least: nat, ceiling: nat, bound: nat)
    requires CellOk(c, clock) && clock <= now && Enabled(c, now, a)
    requires Patient(OnRow(id, a), id, least, ceiling, bound)
    requires SpacedOut(c, clock, Min(least, ceiling), bound)
    ensures SpacedOut(Protocol.After(c, now, a), now, Min(least, ceiling), bound)
  {
    if a.Finish? {
      SpacedDeferral(c, clock, now, a, Min(least, ceiling), bound);
    } else {
      SpacedOtherwise(c, now, a, Min(least, ceiling), bound);
    }
  }

  lemma AtMostCeil(n: nat, gap: nat, bound: nat)
    requires gap > 0 && (n > 0 ==> Gaps(n - 1, gap) < bound)
    ensures n <= CeilDiv(bound, gap)
  {
    if n > 0 {
      GapsMultiply(n - 1, gap);
      BelowCeil(n - 1, gap, bound);
    }
  }

  lemma BelowCeil(n: nat, gap: nat, bound: nat)
    requires gap > 0 && n * gap < bound
    ensures n < CeilDiv(bound, gap)
  {
    var q := CeilDiv(bound, gap);
    assert bound <= q * gap;
    assert n * gap < q * gap;
  }

  lemma SpacedMove(w: World, v: World, s: Step, id: int, least: nat, ceiling: nat, bound: nat)
    requires CellMoves(w, v, s, id) && id in v.cells && id !in v.pruned && Patient(s, id, least, ceiling, bound)
    requires id in w.cells ==> SpacedOut(w.cells[id], w.clock, Min(least, ceiling), bound)
    ensures SpacedOut(v.cells[id], v.clock, Min(least, ceiling), bound)
  {
    if id in w.cells && (s.OnRow? || s.ReopenUnder?) && s.id == id {
      assert Patient(OnRow(id, s.action), id, least, ceiling, bound);
      SpacedStep(w.cells[id], w.clock, v.clock, id, s.action, least, ceiling, bound);
    }
  }

  lemma NotBoth(ws: seq<World>, ss: seq<Step>, i: nat, id: int)
    requires IsRun(ws, ss) && i < |ws| && id in ws[i].cells
    ensures id !in ws[i].pruned
  {
    Always(ws, ss, i);
  }

  lemma {:induction false} DeferralsAreSpaced(ws: seq<World>, ss: seq<Step>, i: nat, id: int, least: nat,
                                              ceiling: nat, bound: nat)
    requires IsRun(ws, ss) && i < |ws| && id in ws[i].cells
    requires forall k | 0 <= k < i :: Patient(ss[k], id, least, ceiling, bound)
    ensures SpacedOut(ws[i].cells[id], ws[i].clock, Min(least, ceiling), bound)
  {
    if i > 0 {
      CellMovesAt(ws, ss, i - 1, id);
      if id in ws[i - 1].cells {
        DeferralsAreSpaced(ws, ss, i - 1, id, least, ceiling, bound);
      }
      NotBoth(ws, ss, i, id);
      SpacedMove(ws[i - 1], ws[i], ss[i - 1], id, least, ceiling, bound);
    }
  }

  /** A row is deferred without counting at most ceil(give_up_after / gap) times from
      becoming owed to being reopened or rescheduled. */
  lemma DeferralsAreBounded(ws: seq<World>, ss: seq<Step>, i: nat, id: int, least: nat, ceiling: nat, bound: nat)
    requires IsRun(ws, ss) && i < |ws| && id in ws[i].cells
    requires forall k | 0 <= k < i :: Patient(ss[k], id, least, ceiling, bound)
    requires Min(least, ceiling) > 0
    ensures ws[i].cells[id].deferrals <= CeilDiv(bound, Min(least, ceiling))
  {
    DeferralsAreSpaced(ws, ss, i, id, least, ceiling, bound);
    AtMostCeil(ws[i].cells[id].deferrals, Min(least, ceiling), bound);
  }
}
