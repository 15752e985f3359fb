/** Delivery rows and what each conditional UPDATE writes to one of them.

    Times and delays are whole microseconds, the resolution of the columns. A row
    carries its event's `recordedAt`, which the code reads through the foreign key. */
module Rows {
  type Time = int

  datatype Option<+T> = None | Some(value: T)

  datatype Status = Pending | Claimed | Succeeded | Failed | Dead | Orphaned | Cancelled

  /** `claimed_by` and `claimed_at` together: the fencing token. */
  datatype Token = Token(who: string, at: Option<Time>)

  /** What a row nobody has claimed since it was written or reopened holds. */
  const NOBODY := Token("", None)

  /** The lease `hand_back` writes: before any moment a claim is made at. */
  const GIVEN_BACK: Time := 0

  datatype Row = Row(
    event: int,
    key: string,
    target: string,
    recordedAt: Time,
    status: Status,
    attempts: nat,
    maxAttempts: nat,
    availableAt: Time,
    dueAt: Option<Time>,
    claim: Token,
    leaseEnd: Option<Time>,
    completedAt: Option<Time>,
    succeededAt: Option<Time>)

  predicate Terminal(s: Status) {
    s == Succeeded || s == Dead || s == Orphaned || s == Cancelled
  }

  predicate Retryable(s: Status) {
    s == Pending || s == Failed
  }

  /** When the row became owed: its due time, or its event's recording. */
  function OwedSince(row: Row): Time {
    if row.dueAt.Some? then row.dueAt.value else row.recordedAt
  }

  predicate NotYetDue(row: Row, now: Time) {
    row.dueAt.Some? && row.dueAt.value > now
  }

  // ---- Claiming -------------------------------------------------------------

  predicate Claimable(row: Row, now: Time, ignoreBackoff: bool) {
    || (Retryable(row.status) && if ignoreBackoff then !NotYetDue(row, now) else row.availableAt <= now)
    || (row.status == Claimed && row.leaseEnd.Some? && row.leaseEnd.value < now)
  }

  function ClaimedBy(row: Row, worker: string, now: Time, lease: nat): Row {
    row.(status := Claimed, claim := Token(worker, Some(now)), leaseEnd := Some(now + lease))
  }

  predicate Takeable(row: Row, message: Token) {
    row.status == Claimed && row.claim == message
  }

  /** A take moves the row to the task's id and leaves the lease as it was. */
  function TakenBy(row: Row, worker: string, now: Time): Row {
    row.(claim := Token(worker, Some(now)))
  }

  predicate HandBackable(row: Row, claim: Token) {
    row.status == Claimed && row.claim == claim
  }

  function HandedBack(row: Row): Row {
    row.(leaseEnd := Some(GIVEN_BACK))
  }

  // ---- Starting -------------------------------------------------------------

  /** Whether a loaded row is still owed a run at `now`. */
  predicate OwedAt(row: Row, now: Time) {
    !Terminal(row.status) && !(Retryable(row.status) && row.availableAt > now)
  }

  predicate Owned(row: Row, fence: Token) {
    row.claim == fence
  }

  /** Past a receiver's own lease, a claim stamps a tenth more. */
  function Headroom(lease: nat): (r: nat)
    ensures 10 * r <= 11 * lease < 10 * (r + 1)
  {
    11 * lease / 10
  }

  /** The band: the row as loaded is this worker's, and its lease ends between
      the receiver's lease and that times the headroom from `now`. */
  predicate LeasedFor(loaded: Row, fence: Token, now: Time, lease: nat) {
    && loaded.claim.who == fence.who
    && loaded.leaseEnd.Some?
    && var remaining := loaded.leaseEnd.value - now;
       lease <= remaining && 10 * remaining <= 11 * lease
  }

  function Extended(row: Row, now: Time, lease: nat): Row {
    row.(leaseEnd := Some(now + lease))
  }

  // ---- Outcomes -------------------------------------------------------------

  /** How one attempt ended, as `_deliver_one` reads it. */
  datatype Verdict =
    | Returned
    | Raised
    | Permanent
    | RetryAfter(delay: nat, counts: bool)
    | NotYet(until: Time)
    | Undecodable
    | EventUnknown
    | ReceiverUnknown

  /** What the failure paths read of the receiver and the settings. */
  datatype Policy = Policy(base: nat, cap: nat, giveUpAfter: Option<nat>, ceiling: nat)

  /** A draw of `random.random()`, or the relay's own jitter of one. */
  type Jitter = j: real | 0.0 <= j <= 1.0 witness 0.0

  function Min(a: int, b: int): int {
    if a <= b then a else b
  }

  function CeilDiv(a: nat, b: nat): (r: nat)
    requires b > 0
    ensures a <= r * b < a + b
  {
    DivRounds(a + b - 1, b);
    (a + b - 1) / b
  }

  lemma DivRounds(a: nat, b: nat)
    requires b > 0
    ensures (a / b) * b <= a < (a / b) * b + b
  {
  }

  function Pow2(n: nat): (r: nat)
    ensures r >= 1
  {
    if n == 0 then 1 else 2 * Pow2(n - 1)
  }

  /** The share of `window` a jitter in [0, 1] draws. */
  function Share(window: nat, jitter: Jitter): (r: nat)
    ensures r <= window
    ensures window as real * jitter - 1.0 < r as real <= window as real * jitter
  {
    assert 0.0 <= window as real * jitter <= window as real;
    (window as real * jitter).Floor
  }

  function Backoff(attempt: nat, base: nat, cap: nat, jitter: Jitter): nat
    requires attempt >= 1
  {
    Share(Min(cap, base * Pow2(attempt - 1)), jitter)
  }

  /** A requested delay, clamped to the retry ceiling. */
  function Capped(delay: nat, ceiling: nat): nat {
    Min(delay, ceiling)
  }

  /** The wait after a deferral that does not count: the capped request, spread up
      to twice itself, under the ceiling again. */
  function Spread(delay: nat, ceiling: nat, jitter: Jitter): nat
  {
    var requested := Capped(delay, ceiling);
    Min(requested + Share(requested, jitter), ceiling)
  }

  predicate GivenUp(owedSince: Time, now: Time, bound: nat) {
    now - owedSince >= bound
  }

  /** A deferral that spends no attempt and keeps the row owed. */
  predicate Defers(loaded: Row, v: Verdict, p: Policy, now: Time) {
    && v.RetryAfter? && !v.counts
    && p.giveUpAfter.Some?
    && !GivenUp(OwedSince(loaded), now, p.giveUpAfter.value)
  }

  /** A failed attempt that counts; dead-lettered when terminal or the budget is spent. */
  function FailedAttempt(row: Row, loaded: Row, terminal: bool, wait: nat, now: Time): Row {
    var attempts := loaded.attempts + 1;
    var exhausted := terminal || attempts >= loaded.maxAttempts;
    row.(status := if exhausted then Dead else Failed,
         attempts := attempts,
         completedAt := if exhausted then Some(now) else None,
         availableAt := now + wait)
  }

  /** The outcome write. `loaded` is the row as this attempt read it: the attempt
      count, the budget and the due time come from there, not from the row. */
  function Recorded(row: Row, loaded: Row, v: Verdict, p: Policy, now: Time, jitter: Jitter): Row
  {
    var attempt := loaded.attempts + 1;
    match v
    case Returned =>
      row.(status := Succeeded, attempts := attempt, completedAt := Some(now), succeededAt := Some(now))
    case ReceiverUnknown =>
      row.(status := Orphaned, completedAt := Some(now))
    case Undecodable =>
      row.(status := Dead, attempts := attempt, completedAt := Some(now))
    case NotYet(until) =>
      row.(status := Pending, availableAt := until, dueAt := Some(until), completedAt := None)
    case RetryAfter(delay, counts) =>
      if counts || p.giveUpAfter.None? then
        FailedAttempt(row, loaded, false, Capped(delay, p.ceiling), now)
      else if GivenUp(OwedSince(loaded), now, p.giveUpAfter.value) then
        row.(status := Dead, completedAt := Some(now))
      else
        row.(status := Failed, completedAt := None, availableAt := now + Spread(delay, p.ceiling, jitter))
    case Permanent =>
      FailedAttempt(row, loaded, true, Backoff(attempt, p.base, p.cap, jitter), now)
    case Raised =>
      FailedAttempt(row, loaded, false, Backoff(attempt, p.base, p.cap, jitter), now)
    case EventUnknown =>
      FailedAttempt(row, loaded, false, Backoff(attempt, p.base, p.cap, jitter), now)
  }

  // ---- Operators ------------------------------------------------------------

  function Withdrawn(row: Row, now: Time): Row {
    row.(status := Cancelled, completedAt := Some(now))
  }

  /** A replay's or a requeue's write: owed from `when`, with a full budget. The
      newest success is the one column of the last cycle it keeps. */
  function Reopened(row: Row, when: Time): Row {
    row.(status := Pending, attempts := 0, availableAt := when, dueAt := Some(when),
         claim := NOBODY, leaseEnd := None, completedAt := None)
  }

  /** A row as `fire` or a replay inserts it. */
  predicate Fresh(row: Row) {
    && row.status == Pending
    && row.attempts == 0 < row.maxAttempts
    && row.claim == NOBODY && row.leaseEnd.None?
    && row.completedAt.None? && row.succeededAt.None?
    && row.availableAt == OwedSince(row)
  }

  // ---- What the waits promise -----------------------------------------------

  /** The curve: the share of its window that the jitter draws, to the microsecond. The
      window starts at the base, doubles, stops at the cap and never shrinks. For one
      jitter neither does the wait; each attempt draws its own, so the wait of a later
      attempt may be the shorter, within its wider window. */
  lemma BackoffBounds(attempt: nat, base: nat, cap: nat, jitter: Jitter)
    requires attempt >= 1
    ensures Min(cap, base * Pow2(attempt - 1)) as real * jitter - 1.0 < Backoff(attempt, base, cap, jitter) as real
    ensures Backoff(attempt, base, cap, jitter) as real <= Min(cap, base * Pow2(attempt - 1)) as real * jitter
    ensures Backoff(attempt, base, cap, jitter) <= Min(cap, base * Pow2(attempt - 1))
    ensures base * Pow2(0) == base && base * Pow2(attempt) == 2 * (base * Pow2(attempt - 1))
    ensures Min(cap, base * Pow2(attempt - 1)) <= Min(cap, base * Pow2(attempt))
    ensures Backoff(attempt, base, cap, jitter) <= Backoff(attempt + 1, base, cap, jitter)
  {
    var low, high := Min(cap, base * Pow2(attempt - 1)), Min(cap, base * Pow2(attempt));
    assert base * Pow2(attempt) == 2 * (base * Pow2(attempt - 1)) by {
      assert Pow2(attempt) == 2 * Pow2(attempt - 1);
    }
    assert low <= high;
    ShareGrows(low, high, jitter);
  }

  /** A jitter of one, which a relay's own waits use, waits the whole window. */
  lemma FullJitterWaitsTheWindow(attempt: nat, base: nat, cap: nat)
    requires attempt >= 1
    ensures Backoff(attempt, base, cap, 1.0) == Min(cap, base * Pow2(attempt - 1))
  {
    BackoffBounds(attempt, base, cap, 1.0);
  }

  lemma ShareGrows(low: nat, high: nat, jitter: Jitter)
    requires low <= high
    ensures Share(low, jitter) <= Share(high, jitter)
  {
    var gap := (high - low) as real;
    assert high as real == low as real + gap;
    assert high as real * jitter == low as real * jitter + gap * jitter;
    assert gap * jitter >= 0.0;
  }

  /** Never earlier than the destination asked (up to the ceiling), nor past twice
      that, nor past the ceiling; and under the ceiling, later by the share of it that
      the jitter draws, to the microsecond. */
  lemma SpreadBounds(delay: nat, ceiling: nat, jitter: Jitter)
    ensures Min(delay, ceiling) <= Spread(delay, ceiling, jitter) <= Min(2 * Min(delay, ceiling), ceiling)
    ensures var asked := Min(delay, ceiling) as real;
            || Spread(delay, ceiling, jitter) == ceiling
            || asked + asked * jitter - 1.0 < Spread(delay, ceiling, jitter) as real <= asked + asked * jitter
    ensures var asked := Min(delay, ceiling) as real;
            Spread(delay, ceiling, jitter) == ceiling ==> asked + asked * jitter >= ceiling as real
  {
  }

  /** An attempt that fails, counted: one more attempt spent, dead for good when it may
      not be retried or was the last, and otherwise waiting the share of its window that
      the jitter draws: never less, by as much as a microsecond, and never more. */
  lemma FailuresWaitTheirBackoff(row: Row, loaded: Row, v: Verdict, p: Policy, now: Time, jitter: Jitter)
    requires v.Raised? || v.Permanent? || v.EventUnknown?
    ensures var after := Recorded(row, loaded, v, p, now, jitter);
            var window := Min(p.cap, p.base * Pow2(loaded.attempts));
            && after.attempts == loaded.attempts + 1
            && after.status == (if v.Permanent? || after.attempts >= loaded.maxAttempts then Dead else Failed)
            && after.completedAt == (if after.status == Dead then Some(now) else None)
            && window as real * jitter - 1.0 < (after.availableAt - now) as real <= window as real * jitter
            && now <= after.availableAt <= now + window
            && after.dueAt == row.dueAt && after.claim == row.claim && after.succeededAt == row.succeededAt
  {
    BackoffBounds(loaded.attempts + 1, p.base, p.cap, jitter);
  }

  /** A destination's request is granted as asked, up to the ceiling, when it counts; and
      when it does not, between that and twice that, spending nothing, until the receiver
      has deferred for as long as it may: then the row is dead with its attempts unspent. */
  lemma RequestsAreGranted(row: Row, loaded: Row, delay: nat, counts: bool, p: Policy, now: Time, jitter: Jitter)
    requires row.attempts == loaded.attempts
    ensures var after := Recorded(row, loaded, RetryAfter(delay, counts), p, now, jitter);
            var asked := Min(delay, p.ceiling);
            if counts || p.giveUpAfter.None? then
              after.attempts == row.attempts + 1 && after.availableAt == now + asked
            else if now - OwedSince(loaded) >= p.giveUpAfter.value then
              after.status == Dead && after.attempts == row.attempts && after.availableAt == row.availableAt
            else
              && after.status == Failed && after.attempts == row.attempts
              && now + asked <= after.availableAt <= now + Min(2 * asked, p.ceiling)
  {
    SpreadBounds(delay, p.ceiling, jitter);
  }

  /** What settles a row, read off what the attempt came to: it succeeds by a return, is
      orphaned for want of its receiver, and is dead when nothing more may be tried - it
      could not be read, was refused for good, spent its last attempt, or deferred for as
      long as it may. Otherwise it is owed still: rescheduled by a NotYet, or failed. */
  lemma OutcomesSettle(row: Row, loaded: Row, v: Verdict, p: Policy, now: Time, jitter: Jitter)
    ensures var after := Recorded(row, loaded, v, p, now, jitter);
            var gaveUp := v.RetryAfter? && !v.counts && p.giveUpAfter.Some?
                          && now - OwedSince(loaded) >= p.giveUpAfter.value;
            var failed := v.Raised? || v.EventUnknown? || (v.RetryAfter? && (v.counts || p.giveUpAfter.None?));
            && (after.status == Succeeded <==> v.Returned?)
            && (after.status == Orphaned <==> v.ReceiverUnknown?)
            && (after.status == Dead <==>
                  v.Undecodable? || v.Permanent? || gaveUp || (failed && loaded.attempts + 1 >= loaded.maxAttempts))
            && (after.status == Pending <==> v.NotYet?)
            && after.status != Claimed && after.status != Cancelled
            && after.completedAt == (if after.status == Pending || after.status == Failed then None else Some(now))
            && after.succeededAt == (if v.Returned? then Some(now) else row.succeededAt)
            && (v.NotYet? ==> after.availableAt == v.until && after.dueAt == Some(v.until))
            && (!v.NotYet? ==> after.dueAt == row.dueAt)
            && (v.Returned? || v.Undecodable? || failed || v.Permanent? ==> after.attempts == loaded.attempts + 1)
            && (v.ReceiverUnknown? || v.NotYet? || gaveUp ==> after.attempts == row.attempts)
            && after.claim == row.claim && after.leaseEnd == row.leaseEnd && after.maxAttempts == row.maxAttempts
            && after.event == row.event && after.key == row.key && after.target == row.target
            && after.recordedAt == row.recordedAt
  {
  }
}
