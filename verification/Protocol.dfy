/** One delivery row and everything that acts on it, as a state machine.

    Any number of relays, task workers and operators interleave these steps. Each
    step is one statement, or one transaction, the database serialises; the
    receiver's work and its acknowledgement are one commit. Two hypotheses of the
    design are conditions of the steps: workers at work at the same time have
    distinct ids and each works through one batch at a time (`worker !in c.work`),
    and a claim's stamp is new (`!in c.stamps`). */
module Protocol {
  import opened Rows

  /** What one worker is doing about this row. */
  datatype Work =
    | Held(at: Time)                          // claimed in a batch, or taken, and not read yet
    | Loaded(fence: Token, row: Row)          // read; ownership not re-established yet
    | Running(fence: Token, row: Row, leased: bool, since: Time, lease: nat)

  /** A row with its workers, the task messages naming it, and its history:
      every stamp it was ever claimed or taken under, every message that passed the
      take, the receiver transactions that committed, the times it was reopened,
      and the uncounted deferrals since it last became owed. */
  datatype Cell = Cell(
    row: Row,
    work: map<string, Work>,
    messages: set<Token>,
    stamps: set<Token>,
    takes: multiset<Token>,
    commits: nat,
    reopens: nat,
    deferrals: nat)

  datatype Action =
    | Claim(worker: string, lease: nat, ignoreBackoff: bool)
    | Take(message: Token, worker: string)
    | Load(worker: string)
    | Start(worker: string, lease: nat)
    | HandOff(worker: string, lease: nat)
    | Finish(worker: string, verdict: Verdict, policy: Policy, jitter: Jitter)
    | Drop(worker: string)                    // a crash, a refusal, a lost lease
    | HandBack(worker: string)
    | Cancel
    | Replay(when: Time)
    | Requeue(when: Time)

  function NewCell(row: Row): Cell {
    Cell(row, map[], {}, {}, multiset{}, 0, 0, 0)
  }

  // ---- Steps ----------------------------------------------------------------

  predicate Unseen(c: Cell, worker: string, now: Time) {
    worker != "" && worker !in c.work && Token(worker, Some(now)) !in c.stamps
  }

  /** Passing the start check on a claimed row: by the band, or by the extension's
      compare-and-set. */
  predicate Secures(c: Cell, w: Work, now: Time, lease: nat)
    requires w.Loaded?
  {
    LeasedFor(w.row, w.fence, now, lease) || Owned(c.row, w.fence)
  }

  predicate Sound(v: Verdict, since: Time) {
    && (v.RetryAfter? && !v.counts ==> v.delay > 0)
    && (v.NotYet? ==> v.until > since)
  }

  predicate Enabled(c: Cell, now: Time, a: Action) {
    match a
    case Claim(worker, _, ignoreBackoff) =>
      Unseen(c, worker, now) && Claimable(c.row, now, ignoreBackoff)
    case Take(message, worker) =>
      Unseen(c, worker, now) && message in c.messages && Takeable(c.row, message)
    case Load(worker) =>
      worker in c.work && c.work[worker].Held?
    case Start(worker, lease) =>
      && worker in c.work && c.work[worker].Loaded?
      && OwedAt(c.work[worker].row, now)
      && (c.work[worker].row.status == Claimed ==> Secures(c, c.work[worker], now, lease))
    case HandOff(worker, lease) =>
      && worker in c.work && c.work[worker].Loaded?
      && c.work[worker].row.status == Claimed
      && Secures(c, c.work[worker], now, lease)
    case Finish(worker, verdict, _, _) =>
      && worker in c.work && c.work[worker].Running?
      && Sound(verdict, c.work[worker].since)
    case Drop(worker) =>
      worker in c.work
    case HandBack(worker) =>
      worker in c.work && c.work[worker].Held?
    case Cancel =>
      Retryable(c.row.status)
    case Replay(_) =>
      Terminal(c.row.status)
    case Requeue(_) =>
      c.row.status == Dead
  }

  /** The row after the extension, which the band skips. */
  function Leased(c: Cell, w: Work, now: Time, lease: nat): Row
    requires w.Loaded?
  {
    if w.row.status != Claimed || LeasedFor(w.row, w.fence, now, lease) then c.row
    else Extended(c.row, now, lease)
  }

  function Reopen(c: Cell, when: Time): Cell {
    c.(row := Reopened(c.row, when), reopens := c.reopens + 1, deferrals := 0)
  }

  function After(c: Cell, now: Time, a: Action): Cell
    requires Enabled(c, now, a)
  {
    match a
    case Claim(worker, lease, _) =>
      c.(row := ClaimedBy(c.row, worker, now, lease),
         work := c.work[worker := Held(now)],
         stamps := c.stamps + {Token(worker, Some(now))})
    case Take(message, worker) =>
      c.(row := TakenBy(c.row, worker, now),
         work := c.work[worker := Held(now)],
         stamps := c.stamps + {Token(worker, Some(now))},
         takes := c.takes + multiset{message})
    case Load(worker) =>
      // The owner is who this worker believes it is; the stamp is what it read.
      c.(work := c.work[worker := Loaded(Token(worker, c.row.claim.at), c.row)])
    case Start(worker, lease) =>
      var w := c.work[worker];
      c.(row := Leased(c, w, now, lease),
         work := c.work[worker := Running(w.fence, w.row, w.row.status == Claimed, now, lease)])
    case HandOff(worker, lease) =>
      c.(row := Leased(c, c.work[worker], now, lease),
         messages := c.messages + {c.work[worker].fence},
         work := c.work - {worker})
    case Finish(worker, verdict, policy, jitter) =>
      var w := c.work[worker];
      var done := c.(work := c.work - {worker});
      // The compare-and-set: a worker that lost the row writes nothing, and its
      // receiver's work is rolled back with the acknowledgement.
      if !Owned(c.row, w.fence) then done
      else done.(row := Recorded(c.row, w.row, verdict, policy, now, jitter),
                 commits := c.commits + (if verdict.Returned? then 1 else 0),
                 deferrals := if verdict.NotYet? then 0
                              else c.deferrals + (if Defers(w.row, verdict, policy, now) then 1 else 0))
    case Drop(worker) =>
      c.(work := c.work - {worker})
    case HandBack(worker) =>
      var mine := HandBackable(c.row, Token(worker, Some(c.work[worker].at)));
      c.(row := if mine then HandedBack(c.row) else c.row, work := c.work - {worker})
    case Cancel =>
      c.(row := Withdrawn(c.row, now))
    case Replay(when) =>
      Reopen(c, when)
    case Requeue(when) =>
      Reopen(c, when)
  }

  // ---- The invariant --------------------------------------------------------

  /** Budgets, ages and marks of a row, at any moment up to `clock`. */
  predicate RowOk(row: Row, clock: Time) {
    && row.attempts <= row.maxAttempts && 1 <= row.maxAttempts
    && (!Terminal(row.status) ==> row.attempts < row.maxAttempts)
    && (Terminal(row.status) <==> row.completedAt.Some?)
    && row.recordedAt <= clock
    && (row.succeededAt.Some? ==> row.succeededAt.value <= clock)
    && (Retryable(row.status) ==> OwedSince(row) <= row.availableAt)
    && (row.status == Claimed ==>
          row.leaseEnd.Some? && row.claim.who != "" && row.claim.at.Some? && OwedSince(row) <= clock)
  }

  /** The same row but for its lease. */
  predicate OnlyLeaseMoved(before: Row, after: Row) {
    after == before.(leaseEnd := after.leaseEnd)
  }

  /** A read row whose fence still matches is claimed, is the row that was read but
      for its lease, and has no message that could take it. */
  predicate FenceOk(c: Cell, w: string, fence: Token, read: Row) {
    && fence.who == w
    && (Owned(c.row, fence) ==>
          c.row.status == Claimed && OnlyLeaseMoved(read, c.row) && fence !in c.messages)
  }

  predicate WorkOk(c: Cell, clock: Time, w: string)
    requires w in c.work
  {
    && w != ""
    && match c.work[w]
       case Held(at) =>
         && Token(w, Some(at)) in c.stamps
         && Token(w, Some(at)) !in c.messages
         && (c.row.claim.who == w ==> c.row.claim.at == Some(at) && c.row.status == Claimed)
       case Loaded(fence, read) =>
         && FenceOk(c, w, fence, read)
         && RowOk(read, clock)
         && fence.at == read.claim.at
         && (read.status == Claimed && read.claim == fence && clock <= read.leaseEnd.value ==>
               Owned(c.row, fence) && c.row.leaseEnd == read.leaseEnd)
       case Running(fence, read, leased, since, lease) =>
         && FenceOk(c, w, fence, read)
         && RowOk(read, since)
         && OwedSince(read) <= since <= clock
         && (leased && clock <= since + lease ==>
               Owned(c.row, fence) && c.row.leaseEnd.Some? && c.row.leaseEnd.value >= since + lease)
  }

  predicate HistoryOk(c: Cell) {
    && (c.row.claim == NOBODY || c.row.claim in c.stamps)
    && NOBODY !in c.stamps
    && c.messages <= c.stamps
    && c.commits <= c.reopens + (if c.row.status == Succeeded then 1 else 0)
    && (forall m <- c.takes :: c.takes[m] == 1 && m in c.stamps && c.row.claim != m)
  }

  predicate CellOk(c: Cell, clock: Time) {
    && RowOk(c.row, clock)
    && HistoryOk(c)
    && (forall w <- c.work :: WorkOk(c, clock, w))
  }

  lemma FreshCellOk(row: Row, clock: Time)
    requires Fresh(row) && row.recordedAt <= clock
    ensures CellOk(NewCell(row), clock)
  {
  }

  lemma TimePasses(c: Cell, clock: Time, now: Time)
    requires CellOk(c, clock) && clock <= now
    ensures CellOk(c, now)
  {
    forall w <- c.work ensures WorkOk(c, now, w) {
      assert WorkOk(c, clock, w);
    }
  }

  lemma ClaimKeeps(c: Cell, now: Time, a: Action)
    requires CellOk(c, now) && Enabled(c, now, a) && (a.Claim? || a.Take?)
    ensures CellOk(After(c, now, a), now)
  {
    var d := After(c, now, a);
    forall w <- d.work ensures WorkOk(d, now, w) {
      if w != a.worker {
        assert WorkOk(c, now, w);
      }
    }
  }

  lemma LoadKeeps(c: Cell, now: Time, worker: string)
    requires CellOk(c, now) && Enabled(c, now, Load(worker))
    ensures CellOk(After(c, now, Load(worker)), now)
  {
    var d := After(c, now, Load(worker));
    assert WorkOk(c, now, worker);
    forall w <- d.work ensures WorkOk(d, now, w) {
      if w != worker {
        assert WorkOk(c, now, w);
      }
    }
  }

  /** Passing the start check leaves the fence holding the row, under a lease
      between the receiver's own and its headroom from this reading of the clock. */
  lemma SecuredLease(c: Cell, now: Time, worker: string, lease: nat)
    requires CellOk(c, now) && worker in c.work && c.work[worker].Loaded?
    requires c.work[worker].row.status == Claimed && Secures(c, c.work[worker], now, lease)
    ensures var w := c.work[worker];
            var row := Leased(c, w, now, lease);
            && Owned(c.row, w.fence) && Owned(row, w.fence) && row.leaseEnd.Some?
            && lease <= row.leaseEnd.value - now
            && 10 * (row.leaseEnd.value - now) <= 11 * lease
  {
    assert WorkOk(c, now, worker);
  }

  lemma StartKeeps(c: Cell, now: Time, a: Action)
    requires CellOk(c, now) && Enabled(c, now, a) && (a.Start? || a.HandOff?)
    ensures CellOk(After(c, now, a), now)
  {
    var d := After(c, now, a);
    assert WorkOk(c, now, a.worker);
    if c.work[a.worker].row.status == Claimed {
      SecuredLease(c, now, a.worker, a.lease);
    }
    if a.Start? {
      assert WorkOk(d, now, a.worker);
    }
    forall w <- d.work | w != a.worker ensures WorkOk(d, now, w) {
      StartSparesOthers(c, now, a, w);
    }
  }

  lemma StartSparesOthers(c: Cell, now: Time, a: Action, w: string)
    requires CellOk(c, now) && Enabled(c, now, a) && (a.Start? || a.HandOff?)
    requires w in c.work && w != a.worker
    ensures WorkOk(After(c, now, a), now, w)
  {
    assert WorkOk(c, now, a.worker) && WorkOk(c, now, w);
  }

  /** The outcome of an attempt that still owns its row keeps the row in order. */
  lemma RecordedOk(row: Row, read: Row, v: Verdict, p: Policy, now: Time, jitter: Jitter)
    requires RowOk(row, now) && row.status == Claimed && OnlyLeaseMoved(read, row)
    ensures RowOk(Recorded(row, read, v, p, now, jitter), now)
    ensures Recorded(row, read, v, p, now, jitter).claim == row.claim
    ensures Recorded(row, read, v, p, now, jitter).status == Succeeded <==> v.Returned?
  {
  }

  lemma FinishKeeps(c: Cell, now: Time, a: Action)
    requires CellOk(c, now) && Enabled(c, now, a) && a.Finish?
    ensures CellOk(After(c, now, a), now)
  {
    var d := After(c, now, a);
    var mine := c.work[a.worker];
    assert WorkOk(c, now, a.worker);
    if Owned(c.row, mine.fence) {
      RecordedOk(c.row, mine.row, a.verdict, a.policy, now, a.jitter);
    }
    forall w <- d.work ensures WorkOk(d, now, w) {
      assert WorkOk(c, now, w);
    }
  }

  lemma RestKeeps(c: Cell, now: Time, a: Action)
    requires CellOk(c, now) && Enabled(c, now, a)
    requires a.Drop? || a.HandBack? || a.Cancel? || a.Replay? || a.Requeue?
    ensures CellOk(After(c, now, a), now)
  {
    var d := After(c, now, a);
    forall w <- d.work ensures WorkOk(d, now, w) {
      assert WorkOk(c, now, w);
    }
  }

  /** Every step of every interleaving keeps the invariant. */
  lemma StepKeeps(c: Cell, clock: Time, now: Time, a: Action)
    requires CellOk(c, clock) && clock <= now && Enabled(c, now, a)
    ensures CellOk(After(c, now, a), now)
  {
    TimePasses(c, clock, now);
    match a
    case Claim(_, _, _) => ClaimKeeps(c, now, a);
    case Take(_, _) => ClaimKeeps(c, now, a);
    case Load(worker) => LoadKeeps(c, now, worker);
    case Start(_, _) => StartKeeps(c, now, a);
    case HandOff(_, _) => StartKeeps(c, now, a);
    case Finish(_, _, _, _) => FinishKeeps(c, now, a);
    case _ => RestKeeps(c, now, a);
  }

  // ---- What one step may do -------------------------------------------------

  predicate Reopens(a: Action) {
    a.Replay? || a.Requeue?
  }

  /** A settled row changes only by a replay, or by a requeue if it is dead. */
  lemma TerminalRowsAbsorb(c: Cell, now: Time, a: Action)
    requires CellOk(c, now) && Enabled(c, now, a) && Terminal(c.row.status)
    ensures Reopens(a) || After(c, now, a).row == c.row
    ensures a.Requeue? ==> c.row.status == Dead
    ensures forall w <- c.work :: !c.work[w].Held? ==> !Owned(c.row, c.work[w].fence)
  {
    forall w <- c.work ensures WorkOk(c, now, w) {
    }
  }

  /** Whether this outcome spends an attempt: every one but a deferral within
      `give_up_after`, a give-up, a NotYet and an orphaned row. */
  predicate Counts(v: Verdict, p: Policy) {
    !v.NotYet? && !v.ReceiverUnknown? && (v.RetryAfter? ==> v.counts || p.giveUpAfter.None?)
  }

  lemma FinishMovesAttempts(c: Cell, now: Time, a: Action)
    requires CellOk(c, now) && Enabled(c, now, a) && a.Finish?
    ensures After(c, now, a).row.attempts ==
            if Owned(c.row, c.work[a.worker].fence) && Counts(a.verdict, a.policy) then c.row.attempts + 1
            else c.row.attempts
    ensures After(c, now, a).row.maxAttempts == c.row.maxAttempts
  {
    assert WorkOk(c, now, a.worker);
  }

  /** The attempt count moves only by an outcome its owner records, to exactly one
      past the row's own, and by a reopening, to zero. */
  lemma AttemptsMoveByOneOutcome(c: Cell, now: Time, a: Action)
    requires CellOk(c, now) && Enabled(c, now, a)
    ensures After(c, now, a).row.attempts ==
            if Reopens(a) then 0
            else if a.Finish? && Owned(c.row, c.work[a.worker].fence) && Counts(a.verdict, a.policy)
            then c.row.attempts + 1
            else c.row.attempts
    ensures After(c, now, a).row.maxAttempts == c.row.maxAttempts
  {
    if a.Finish? {
      FinishMovesAttempts(c, now, a);
    }
  }

  /** An attempt that started on a claimed row and writes within its lease still
      holds the row, so the outcome it writes lands. */
  lemma WritesWithinTheLeaseLand(c: Cell, clock: Time, now: Time, a: Action)
    requires CellOk(c, clock) && clock <= now && Enabled(c, now, a) && a.Finish?
    requires c.work[a.worker].leased && now <= c.work[a.worker].since + c.work[a.worker].lease
    ensures Owned(c.row, c.work[a.worker].fence)
    ensures After(c, now, a).row ==
            Recorded(c.row, c.work[a.worker].row, a.verdict, a.policy, now, a.jitter)
  {
    assert WorkOk(c, clock, a.worker);
  }

  /** No receiver starts before the row its worker read is due, whatever claim it starts
      under; and where that row was claimed, the row itself is due, and the worker's. */
  lemma NeverStartsEarly(c: Cell, now: Time, worker: string, lease: nat)
    requires CellOk(c, now) && Enabled(c, now, Start(worker, lease))
    ensures OwedSince(c.work[worker].row) <= now && !NotYetDue(c.work[worker].row, now)
    ensures c.work[worker].row.status == Claimed ==> Owned(c.row, c.work[worker].fence) && !NotYetDue(c.row, now)
  {
    assert WorkOk(c, now, worker);
    if c.work[worker].row.status == Claimed {
      SecuredLease(c, now, worker, lease);
    }
  }

  /** An outcome lands only for a run that started on a claimed row, and that row was due
      when the run started. */
  lemma LandingRunsWereDue(c: Cell, clock: Time, worker: string)
    requires CellOk(c, clock) && worker in c.work && c.work[worker].Running?
    requires Owned(c.row, c.work[worker].fence)
    ensures c.work[worker].row.status == Claimed && !NotYetDue(c.row, c.work[worker].since)
  {
    assert WorkOk(c, clock, worker);
  }

  /** A claim, or a message, whose moment has passed: never takeable again. */
  predicate Spent(c: Cell, k: Token) {
    k in c.stamps && !Takeable(c.row, k)
  }

  lemma SpentStaysSpent(c: Cell, now: Time, a: Action, k: Token)
    requires CellOk(c, now) && Enabled(c, now, a) && Spent(c, k)
    ensures Spent(After(c, now, a), k)
    ensures a.Take? ==> a.message != k
  {
    if a.Finish? {
      assert WorkOk(c, now, a.worker);
    }
  }
}
