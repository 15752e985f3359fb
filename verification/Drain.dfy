/** `deliver_pending` told a fixed `now`, as `drain_outbox` tells it: it ends, and
    leaves nothing claimable outside the lanes and rows it put aside. */
module Drain {
  import opened Rows
  import opened Registry
  import opened Serving
  import opened Store
  import opened Claims
  import opened Deliver

  /** A task run inside its hand-off, of a row owed since no later than `since`, does not
      defer without counting, from the `quiet`-th delivery on: the caller could not hear
      of it, and would claim the row again. */
  ghost predicate QuietFrom(fate: Fate, quiet: nat, since: Time, rs: Receivers, s: Settings) {
    forall k: nat | quiet <= k :: NeverDefers(fate.handOffs(k), since, rs, s)
  }

  ghost predicate NeverDefers(q: HandOff, since: Time, rs: Receivers, s: Settings) {
    q.RanAtOnce? ==>
      forall row: Row, fence: Token | row.key in rs && rs[row.key].site == InTask && OwedSince(row) <= since ::
        !Ran(row, fence, q.attempt, rs, s).deferred
  }

  /** A clock that reaches every receiver's give-up bound is enough: nothing need be
      known of the receivers. */
  lemma ClocksQuietQueues(fate: Fate, quiet: nat, since: Time, bound: nat, rs: Receivers, s: Settings)
    requires forall key <- rs :: rs[key].giveUpAfter.Some? ==> rs[key].giveUpAfter.value <= bound
    requires forall k: nat :: quiet <= k && fate.handOffs(k).RanAtOnce? ==>
                                fate.handOffs(k).attempt.recordedAt >= since + bound
    ensures QuietFrom(fate, quiet, since, rs, s)
  {
    forall k: nat | quiet <= k ensures NeverDefers(fate.handOffs(k), since, rs, s) {
    }
  }

  predicate Budgeted(rows: map<int, Row>) {
    forall id <- rows :: !Terminal(rows[id].status) ==> rows[id].attempts < rows[id].maxAttempts
  }

  /** What the pass may rely on of the rows: budgets hold, and those not put aside are
      owed since no later than `since`. */
  predicate Ready(rows: map<int, Row>, aside: set<int>, since: Time) {
    Budgeted(rows) && forall id <- rows | id !in aside :: OwedSince(rows[id]) <= since
  }

  /** The pass is done with the row, although a later `now` could claim it again. */
  predicate PutAside(r: Result) {
    r.outcome == Some(Pending) || (r.outcome.None? && (r.row.status == Claimed || r.row.status == Pending))
  }

  // ---- The measure -----------------------------------------------------------

  datatype Pass = Pass(rows: map<int, Row>, closed: set<string>, aside: set<int>)

  /** The attempts a row can still cost the pass. */
  function Owing(p: Pass, rs: Receivers, id: int): nat {
    if id in p.rows && !Terminal(p.rows[id].status) && id !in p.aside
       && LaneForKey(rs, p.rows[id].key) !in p.closed && p.rows[id].attempts < p.rows[id].maxAttempts
    then p.rows[id].maxAttempts - p.rows[id].attempts
    else 0
  }

  function Total(p: Pass, rs: Receivers, ids: seq<int>): nat {
    if ids == [] then 0 else Owing(p, rs, ids[0]) + Total(p, rs, ids[1..])
  }

  lemma {:induction false} TotalFalls(p: Pass, q: Pass, rs: Receivers, ids: seq<int>, id: int)
    requires forall x <- ids :: Owing(q, rs, x) <= Owing(p, rs, x)
    ensures Total(q, rs, ids) <= Total(p, rs, ids)
    ensures id in ids && Owing(q, rs, id) < Owing(p, rs, id) ==> Total(q, rs, ids) < Total(p, rs, ids)
  {
    if ids != [] {
      TotalFalls(p, q, rs, ids[1..], id);
      assert id in ids ==> id == ids[0] || id in ids[1..];
    }
  }

  ghost function Listing(s: set<int>): (r: seq<int>)
    ensures forall x <- s :: x in r
  {
    if s == {} then []
    else
      EmptyOrNot(s);
      var x :| x in s;
      [x] + Listing(s - {x})
  }

  /** An outcome settles the row, spends an attempt, defers, or reschedules. */
  lemma OutcomeProgresses(row: Row, loaded: Row, v: Verdict, p: Policy, now: Time, jitter: Jitter)
    requires row == loaded.(leaseEnd := row.leaseEnd) && row.attempts < row.maxAttempts
    ensures var after := Recorded(row, loaded, v, p, now, jitter);
            && after.status != Claimed && after.key == row.key && after.maxAttempts == row.maxAttempts
            && row.attempts <= after.attempts
            && (!Terminal(after.status) ==> after.attempts < after.maxAttempts)
            && (after.status == Pending || OwedSince(after) == OwedSince(row))
            && (Terminal(after.status) || after.attempts > row.attempts || Defers(loaded, v, p, now)
                || after.status == Pending)
  {
  }

  /** A run that holds its row always records its outcome. */
  lemma RunProgresses(row: Row, fence: Token, a: Attempt, rs: Receivers, s: Settings)
    requires row.status == Claimed && Owned(row, fence) && row.attempts < row.maxAttempts
    ensures var r := Ran(row, fence, a, rs, s);
            && r.outcome == Some(r.row.status) && r.row.status != Claimed
            && r.row.key == row.key && r.row.maxAttempts == row.maxAttempts
            && row.attempts <= r.row.attempts
            && (!Terminal(r.row.status) ==> r.row.attempts < r.row.maxAttempts)
            && (r.row.status == Pending || OwedSince(r.row) == OwedSince(row))
            && (Terminal(r.row.status) || r.row.attempts > row.attempts || r.deferred || r.row.status == Pending)
  {
    var lease := LeaseOf(rs, row.key, s.lease);
    var started := if LeasedFor(row, fence, a.now, lease) then row else Extended(row, a.now, lease);
    var v := VerdictOn(rs, row.key, a.verdict);
    OutcomeProgresses(started, row, v, PolicyOf(rs, row.key, s), EndOf(a, v), a.jitter);
  }

  /** Whatever a delivery does, it keeps the row's budget, and when it is owed since
      unless the row is put aside. */
  predicate KeepsBudget(row: Row, r: Result) {
    && r.row.key == row.key && r.row.maxAttempts == row.maxAttempts
    && row.attempts <= r.row.attempts
    && (!Terminal(r.row.status) ==> r.row.attempts < r.row.maxAttempts)
    && (PutAside(r) || OwedSince(r.row) == OwedSince(row))
  }

  predicate Progresses(row: Row, r: Result) {
    Terminal(r.row.status) || r.row.attempts > row.attempts || r.deferred || PutAside(r)
  }

  lemma DeliveryProgresses(row: Row, worker: string, a: Attempt, q: HandOff, rs: Receivers, s: Settings)
    requires row.status == Claimed && row.claim.who == worker && row.attempts < row.maxAttempts
    ensures var r := Dispatched(row, worker, a, q, rs, s);
            KeepsBudget(row, r) && (NeverDefers(q, OwedSince(row), rs, s) ==> Progresses(row, r))
  {
    RunProgresses(row, row.claim, a, rs, s);
    if q.RanAtOnce? {
      var lease := LeaseOf(rs, row.key, s.lease);
      var handed := if LeasedFor(row, row.claim, a.now, lease) then row else Extended(row, a.now, lease);
      var taken := TakenBy(handed, q.taskId, q.takenAt);
      RunProgresses(taken, taken.claim, q.attempt, rs, s);
    }
  }

  // ---- The log of the call -----------------------------------------------------

  /** What the call is made with. `now` stands in for the clock at every claim. */
  datatype Call = Call(worker: string, now: Time, ignoreBackoff: bool, sizeOf: string -> nat)

  /** One delivery the call made: the row as its claim left it, and how it went. */
  datatype Run = Run(id: int, lane: string, before: Row, result: Result)

  /** A row as the call's deliveries have left it. */
  function RowAfter(start: map<int, Row>, log: seq<Run>, id: int): Row
    requires id in start
  {
    if log == [] then start[id]
    else if log[|log| - 1].id == id then log[|log| - 1].result.row
    else RowAfter(start, log[..|log| - 1], id)
  }

  function ClosedBy(log: seq<Run>): set<string> {
    if log == [] then {}
    else ClosedBy(log[..|log| - 1]) + if log[|log| - 1].result.deferred then {log[|log| - 1].lane} else {}
  }

  function AsideBy(log: seq<Run>): set<int> {
    if log == [] then {}
    else AsideBy(log[..|log| - 1]) + if PutAside(log[|log| - 1].result) then {log[|log| - 1].id} else {}
  }

  function CountedBy(log: seq<Run>): multiset<Status> {
    if log == [] then multiset{} else CountedBy(log[..|log| - 1]) + Counted(log[|log| - 1].result)
  }

  function Counted(r: Result): multiset<Status> {
    if r.outcome.Some? then multiset{r.outcome.value} else multiset{}
  }

  /** What the call's claim makes of a row of this lane. */
  function Held(row: Row, lane: string, call: Call, leases: Leases): Row {
    ClaimedBy(row, call.worker, call.now, leases(lane))
  }

  type Leases = string -> nat

  /** The lease each lane's claim stamps. */
  function LeasesIn(rs: Receivers, s: Settings): Leases {
    (lane: string) => ClaimLease(rs, Some(lane), s.lease, false)
  }

  /** Each delivery is of a row as the ones before left it, claimed anew for its own
      lane, which no deferral has closed, and not put aside; and it goes as fated. */
  ghost predicate Logged(start: map<int, Row>, log: seq<Run>, call: Call, course: Course, rs: Receivers,
                         leases: Leases) {
    log != [] ==>
      var b, r := log[..|log| - 1], log[|log| - 1];
      && Logged(start, b, call, course, rs, leases)
      && r.id in start && r.lane == LaneForKey(rs, start[r.id].key)
      && r.lane !in ClosedBy(b) && r.id !in AsideBy(b)
      && r.before == Held(RowAfter(start, b, r.id), r.lane, call, leases)
      && r.result == course(|b|, r.before)
  }

  /** A row rests as its last delivery left it, or claimed again and handed back. */
  predicate Rests(row: Row, now: Row, lane: string, call: Call, leases: Leases) {
    now == row || now == HandedBack(Held(row, lane, call, leases))
  }

  /** What the call keeps track of: the deliveries made, the lanes it claims no more,
      the rows it is done with, and the outcomes. */
  datatype Tally = Tally(made: nat, closed: set<string>, aside: set<int>, counts: multiset<Status>)

  function TallyOf(log: seq<Run>): Tally {
    Tally(|log|, ClosedBy(log), AsideBy(log), CountedBy(log))
  }

  /** Where the call stands, by its log: what it tracks, and every row. */
  ghost predicate Stands(start: map<int, Row>, log: seq<Run>, rows: map<int, Row>, t: Tally, call: Call, course: Course,
                         rs: Receivers, leases: Leases) {
    && Logged(start, log, call, course, rs, leases)
    && t == TallyOf(log)
    && rows.Keys == start.Keys
    && forall id <- start :: RestsAt(start, log, rows, id, call, rs, leases)
  }

  predicate RestsAt(start: map<int, Row>, log: seq<Run>, rows: map<int, Row>, id: int, call: Call, rs: Receivers,
                    leases: Leases)
    requires id in start && id in rows
  {
    && Rests(RowAfter(start, log, id), rows[id], LaneForKey(rs, start[id].key), call, leases)
    && rows[id].key == start[id].key
  }

  function Noted(t: Tally, r: Run): Tally {
    Tally(t.made + 1, if r.result.deferred then t.closed + {r.lane} else t.closed,
          if PutAside(r.result) then t.aside + {r.id} else t.aside, t.counts + Counted(r.result))
  }

  /** What one more delivery adds to the log. */
  lemma LogGrows(start: map<int, Row>, log: seq<Run>, r: Run)
    ensures TallyOf(log + [r]) == Noted(TallyOf(log), r)
    ensures forall x <- start :: RowAfter(start, log + [r], x) ==
                                 if x == r.id then r.result.row else RowAfter(start, log, x)
  {
    assert (log + [r])[..|log + [r]| - 1] == log && (log + [r])[|log + [r]| - 1] == r;
  }

  lemma OneLogged(start: map<int, Row>, b: seq<Run>, r: Run, call: Call, course: Course, rs: Receivers, leases: Leases)
    requires Logged(start, b, call, course, rs, leases)
    requires r.id in start && r.lane == LaneForKey(rs, start[r.id].key)
    requires r.lane !in ClosedBy(b) && r.id !in AsideBy(b)
    requires r.before == Held(RowAfter(start, b, r.id), r.lane, call, leases)
    requires r.result == course(|b|, r.before)
    ensures Logged(start, b + [r], call, course, rs, leases)
  {
    assert (b + [r])[..|b + [r]| - 1] == b && (b + [r])[|b + [r]| - 1] == r;
  }

  // ---- One claimed batch -----------------------------------------------------

  /** A row of the batch, claimed from where the log left it and not delivered yet. */
  predicate HeldAt(start: map<int, Row>, log: seq<Run>, rows: map<int, Row>, t: Tally, id: int, lane: string,
                   call: Call, rs: Receivers, leases: Leases) {
    && id in start && id in rows && id !in t.aside
    && LaneForKey(rs, start[id].key) == lane && rows[id].key == start[id].key
    && rows[id] == Held(RowAfter(start, log, id), lane, call, leases)
  }

  /** Mid-batch: `unstarted` is held, and every other row rests. */
  ghost predicate MidBatch(start: map<int, Row>, log: seq<Run>, rows: map<int, Row>, t: Tally, unstarted: seq<int>,
                           lane: string, call: Call, course: Course, rs: Receivers, leases: Leases) {
    && Logged(start, log, call, course, rs, leases) && t == TallyOf(log)
    && rows.Keys == start.Keys && Distinct(unstarted)
    && (forall i | 0 <= i < |unstarted| :: HeldAt(start, log, rows, t, unstarted[i], lane, call, rs, leases))
    && (forall id <- start | id !in unstarted :: RestsAt(start, log, rows, id, call, rs, leases))
  }

  lemma OneRun(start: map<int, Row>, log: seq<Run>, rows: map<int, Row>, t: Tally, ids: seq<int>, lane: string,
               r: Run, call: Call, course: Course, rs: Receivers, leases: Leases)
    requires MidBatch(start, log, rows, t, ids, lane, call, course, rs, leases) && ids != [] && lane !in t.closed
    requires r.id == ids[0] && r.lane == lane && r.before == rows[ids[0]]
    requires r.result == course(|log|, r.before) && r.result.row.key == r.before.key
    ensures MidBatch(start, log + [r], rows[r.id := r.result.row], Noted(t, r), ids[1..], lane, call, course, rs,
                     leases)
  {
    assert HeldAt(start, log, rows, t, ids[0], lane, call, rs, leases);
    LogGrows(start, log, r);
    OneLogged(start, log, r, call, course, rs, leases);
    OneRunHeld(start, log, rows, t, ids, lane, r, call, rs, leases);
    OneRunRests(start, log, rows, t, ids, lane, r, call, rs, leases);
  }

  lemma OneRunHeld(start: map<int, Row>, log: seq<Run>, rows: map<int, Row>, t: Tally, ids: seq<int>, lane: string,
                   r: Run, call: Call, rs: Receivers, leases: Leases)
    requires ids != [] && Distinct(ids) && r.id == ids[0]
    requires forall i | 0 <= i < |ids| :: HeldAt(start, log, rows, t, ids[i], lane, call, rs, leases)
    ensures Distinct(ids[1..])
    ensures forall i | 0 <= i < |ids[1..]| ::
              HeldAt(start, log + [r], rows[r.id := r.result.row], Noted(t, r), ids[1..][i], lane, call, rs, leases)
  {
    DistinctTail(ids);
    forall i | 0 <= i < |ids[1..]|
      ensures HeldAt(start, log + [r], rows[r.id := r.result.row], Noted(t, r), ids[1..][i], lane, call, rs, leases)
    {
      assert ids[1..][i] == ids[i + 1];
      HeldStays(start, log, rows, t, ids[1..][i], lane, r, call, rs, leases);
    }
  }

  lemma OneRunRests(start: map<int, Row>, log: seq<Run>, rows: map<int, Row>, t: Tally, ids: seq<int>, lane: string,
                    r: Run, call: Call, rs: Receivers, leases: Leases)
    requires ids != [] && r.id == ids[0] && rows.Keys == start.Keys && r.result.row.key == r.before.key
    requires HeldAt(start, log, rows, t, ids[0], lane, call, rs, leases) && r.before == rows[ids[0]]
    requires forall id <- start | id !in ids :: RestsAt(start, log, rows, id, call, rs, leases)
    ensures forall id <- start | id !in ids[1..] :: RestsAt(start, log + [r], rows[r.id := r.result.row], id, call,
                                                            rs, leases)
  {
    forall id <- start | id !in ids[1..] ensures RestsAt(start, log + [r], rows[r.id := r.result.row], id, call, rs,
                                                         leases) {
      if id == r.id {
        RunRests(start, log, rows, t, lane, r, call, rs, leases);
      } else {
        NotInTail(ids, id);
        RestsStays(start, log, rows, id, r, call, rs, leases);
      }
    }
  }

  lemma DistinctTail(ids: seq<int>)
    requires Distinct(ids) && ids != []
    ensures Distinct(ids[1..]) && ids[0] !in ids[1..]
  {
  }

  lemma NotInTail(ids: seq<int>, id: int)
    requires ids != [] && id != ids[0] && id !in ids[1..]
    ensures id !in ids
  {
    assert ids == [ids[0]] + ids[1..];
  }

  lemma RunRests(start: map<int, Row>, log: seq<Run>, rows: map<int, Row>, t: Tally, lane: string, r: Run, call: Call,
                 rs: Receivers, leases: Leases)
    requires HeldAt(start, log, rows, t, r.id, lane, call, rs, leases) && r.result.row.key == rows[r.id].key
    ensures RestsAt(start, log + [r], rows[r.id := r.result.row], r.id, call, rs, leases)
  {
    LogGrows(start, log, r);
  }

  lemma HeldStays(start: map<int, Row>, log: seq<Run>, rows: map<int, Row>, t: Tally, id: int, lane: string, r: Run,
                  call: Call, rs: Receivers, leases: Leases)
    requires HeldAt(start, log, rows, t, id, lane, call, rs, leases) && r.id != id
    ensures HeldAt(start, log + [r], rows[r.id := r.result.row], Noted(t, r), id, lane, call, rs, leases)
  {
    LogGrows(start, log, r);
  }

  lemma RestsStays(start: map<int, Row>, log: seq<Run>, rows: map<int, Row>, id: int, r: Run, call: Call, rs: Receivers,
                   leases: Leases)
    requires id in start && id in rows && RestsAt(start, log, rows, id, call, rs, leases) && r.id != id
    ensures RestsAt(start, log + [r], rows[r.id := r.result.row], id, call, rs, leases)
  {
    LogGrows(start, log, r);
  }

  /** What bounds the call: every row's key, when the last of them became owed, and from
      which delivery on no queue defers. */
  datatype Bounds = Bounds(order: seq<int>, since: Time, quiet: nat)

  ghost predicate Bounded(rows: map<int, Row>, t: Tally, fate: Fate, g: Bounds, rs: Receivers, s: Settings) {
    Ready(rows, t.aside, g.since) && QuietFrom(fate, g.quiet, g.since, rs, s) && forall id <- rows :: id in g.order
  }

  /** The deliveries to come whose queue may still defer unheard. */
  function Wait(t: Tally, g: Bounds): nat {
    if t.made < g.quiet then g.quiet - t.made else 0
  }

  function Owed(rows: map<int, Row>, t: Tally, g: Bounds, rs: Receivers): nat {
    Total(Pass(rows, t.closed, t.aside), rs, g.order)
  }

  /** The measure fell: of the deliveries still to wait for, or of the attempts owed. */
  predicate Lower(rows': map<int, Row>, t': Tally, rows: map<int, Row>, t: Tally, g: Bounds, rs: Receivers) {
    Wait(t', g) < Wait(t, g) || (Wait(t', g) == Wait(t, g) && Owed(rows', t', g, rs) < Owed(rows, t, g, rs))
  }

  /** A delivery leaves the measure lower, and budgets hold. */
  lemma RunFalls(rows: map<int, Row>, t: Tally, r: Run, fate: Fate, g: Bounds, rs: Receivers, s: Settings)
    requires Bounded(rows, t, fate, g, rs, s) && r.id in rows && r.before == rows[r.id]
    requires !Terminal(r.before.status) && r.id !in t.aside && r.lane !in t.closed
    requires LaneForKey(rs, r.before.key) == r.lane && KeepsBudget(r.before, r.result)
    requires g.quiet <= t.made ==> Progresses(r.before, r.result)
    ensures Bounded(rows[r.id := r.result.row], Noted(t, r), fate, g, rs, s)
    ensures Lower(rows[r.id := r.result.row], Noted(t, r), rows, t, g, rs)
  {
    var rows', t' := rows[r.id := r.result.row], Noted(t, r);
    var p, q := Pass(rows, t.closed, t.aside), Pass(rows', t'.closed, t'.aside);
    if g.quiet <= t.made {
      assert Owing(q, rs, r.id) < Owing(p, rs, r.id);
      TotalFalls(p, q, rs, g.order, r.id);
    }
  }

  /** The batch's next delivery, all told. */
  lemma NextRun(start: map<int, Row>, log: seq<Run>, rows: map<int, Row>, t: Tally, ids: seq<int>, lane: string, r: Run,
                call: Call, course: Course, fate: Fate, g: Bounds, rs: Receivers, s: Settings, leases: Leases)
    requires MidBatch(start, log, rows, t, ids, lane, call, course, rs, leases) && ids != [] && lane !in t.closed
    requires Bounded(rows, t, fate, g, rs, s)
    requires r.id == ids[0] && r.lane == lane && r.before == rows[ids[0]]
    requires r.result == course(|log|, r.before) && KeepsBudget(r.before, r.result)
    requires g.quiet <= t.made ==> Progresses(r.before, r.result)
    ensures var rows', t' := rows[r.id := r.result.row], Noted(t, r);
            && MidBatch(start, log + [r], rows', t', ids[1..], lane, call, course, rs, leases)
            && Bounded(rows', t', fate, g, rs, s) && Lower(rows', t', rows, t, g, rs)
  {
    assert HeldAt(start, log, rows, t, ids[0], lane, call, rs, leases);
    OneRun(start, log, rows, t, ids, lane, r, call, course, rs, leases);
    RunFalls(rows, t, r, fate, g, rs, s);
  }

  lemma FateProgresses(row: Row, worker: string, fate: Fate, k: nat, g: Bounds, rs: Receivers, s: Settings)
    requires QuietFrom(fate, g.quiet, g.since, rs, s) && row.status == Claimed && row.claim.who == worker
    requires row.attempts < row.maxAttempts && OwedSince(row) <= g.since
    ensures KeepsBudget(row, Fated(row, worker, fate, k, rs, s))
    ensures g.quiet <= k ==> Progresses(row, Fated(row, worker, fate, k, rs, s))
  {
    DeliveryProgresses(row, worker, fate.attempts(k), fate.handOffs(k), rs, s);
    if g.quiet <= k {
      assert NeverDefers(fate.handOffs(k), g.since, rs, s);
      QuietForEarlier(fate.handOffs(k), OwedSince(row), g.since, rs, s);
    }
  }

  lemma QuietForEarlier(q: HandOff, since: Time, later: Time, rs: Receivers, s: Settings)
    requires NeverDefers(q, later, rs, s) && since <= later
    ensures NeverDefers(q, since, rs, s)
  {
  }

  /** Dispatch one row and note how it went. */
  method DispatchNext(db: Outbox, rs: Receivers, s: Settings, call: Call, lane: string, id: int, fate: Fate, t: Tally)
    returns (t': Tally, deferred: bool)
    requires id in db.rows
    modifies db`rows
    ensures var result := Fated(old(db.rows)[id], call.worker, fate, t.made, rs, s);
            && db.rows == old(db.rows)[id := result.row] && deferred == result.deferred
            && t' == Noted(t, Run(id, lane, old(db.rows)[id], result))
  {
    var outcome;
    outcome, deferred := DispatchOne(db, rs, s, id, call.worker, fate.attempts(t.made), fate.handOffs(t.made));
    var aside := t.aside;
    if outcome == Some(Pending) || (outcome.None? && (db.rows[id].status == Claimed || db.rows[id].status == Pending)) {
      aside := aside + {id};
    }
    t' := Tally(t.made + 1, if deferred then t.closed + {lane} else t.closed, aside,
                t.counts + if outcome.Some? then multiset{outcome.value} else multiset{});
  }

  /** Deliver the batch's next row. */
  method DeliverNext(db: Outbox, rs: Receivers, s: Settings, call: Call, lane: string, ids: seq<int>, fate: Fate,
                     t: Tally, ghost start: map<int, Row>, ghost log: seq<Run>, ghost g: Bounds)
    returns (t': Tally, deferred: bool, ghost log': seq<Run>)
    requires MidBatch(start, log, db.rows, t, ids, lane, call, CourseFrom(call.worker, fate, rs, s), rs,
                      LeasesIn(rs, s))
    requires ids != [] && lane !in t.closed
    requires Bounded(db.rows, t, fate, g, rs, s)
    modifies db`rows
    ensures MidBatch(start, log', db.rows, t', ids[1..], lane, call, CourseFrom(call.worker, fate, rs, s), rs,
                     LeasesIn(rs, s))
    ensures Bounded(db.rows, t', fate, g, rs, s) && Lower(db.rows, t', old(db.rows), t, g, rs)
    ensures t'.closed == if deferred then t.closed + {lane} else t.closed
  {
    assert HeldAt(start, log, db.rows, t, ids[0], lane, call, rs, LeasesIn(rs, s));
    ghost var course := CourseFrom(call.worker, fate, rs, s);
    ghost var r := Run(ids[0], lane, db.rows[ids[0]], course(t.made, db.rows[ids[0]]));
    CourseAt(t.made, r.before, call.worker, fate, rs, s);
    FateProgresses(r.before, call.worker, fate, t.made, g, rs, s);
    NextRun(start, log, db.rows, t, ids, lane, r, call, course, fate, g, rs, s, LeasesIn(rs, s));
    t', deferred := DispatchNext(db, rs, s, call, lane, ids[0], fate, t);
    log' := log + [r];
  }

  /** A claim leaves the measure alone. */
  lemma ClaimKeepsOwed(rows: map<int, Row>, t: Tally, ids: seq<int>, worker: string, now: Time, lease: nat, fate: Fate,
                       g: Bounds, rs: Receivers, s: Settings)
    requires Bounded(rows, t, fate, g, rs, s) && AllIn(ids, rows)
    requires forall i | 0 <= i < |ids| :: !Terminal(rows[ids[i]].status)
    ensures var held := ClaimedRows(rows, ids, worker, now, lease);
            Bounded(held, t, fate, g, rs, s) && Owed(held, t, g, rs) <= Owed(rows, t, g, rs)
  {
    TotalFalls(Pass(rows, t.closed, t.aside), Pass(ClaimedRows(rows, ids, worker, now, lease), t.closed, t.aside), rs,
               g.order, 0);
  }

  // ---- The pass --------------------------------------------------------------

  /** A declared lane, and a size its claims can use. */
  predicate Served(lane: string, call: Call, rs: Receivers) {
    lane in Lanes(rs) && call.sizeOf(lane) >= 1
  }

  ghost predicate NothingClaimable(rows: map<int, Row>, rs: Receivers, call: Call, lane: string, aside: set<int>) {
    forall id <- rows :: LaneForKey(rs, rows[id].key) == lane && id !in aside ==>
                           !Claimable(rows[id], call.now, call.ignoreBackoff)
  }

  lemma ClaimedRowsAreHeld(rows: map<int, Row>, rs: Receivers, ids: seq<int>, call: Call, lane: string, aside: set<int>,
                           lease: nat)
    requires Keyed(rs) && lane in Lanes(rs)
    requires forall i | 0 <= i < |ids| ::
               ids[i] in Candidates(rows, rs, call.now, Scope(Some(lane), None, aside, call.ignoreBackoff))
    ensures AllIn(ids, rows)
    ensures forall i | 0 <= i < |ids| ::
              && !Terminal(rows[ids[i]].status) && LaneForKey(rs, rows[ids[i]].key) == lane && ids[i] !in aside
              && ClaimedRows(rows, ids, call.worker, call.now, lease)[ids[i]]
                 == ClaimedBy(rows[ids[i]], call.worker, call.now, lease)
  {
    forall i | 0 <= i < |ids|
      ensures ids[i] in rows && LaneForKey(rs, rows[ids[i]].key) == lane
      ensures !Terminal(rows[ids[i]].status) && ids[i] !in aside
      ensures ClaimedRows(rows, ids, call.worker, call.now, lease)[ids[i]]
           == ClaimedBy(rows[ids[i]], call.worker, call.now, lease)
    {
      assert ids[i] in Candidates(rows, rs, call.now, Scope(Some(lane), None, aside, call.ignoreBackoff));
      LanesPartition(rs, rows[ids[i]].key, lane);
      ClaimableIsOwed(rows[ids[i]], call.now, call.ignoreBackoff);
      ClaimedRowAt(rows, ids, i, call.worker, call.now, lease);
    }
  }

  lemma EmptyClaim(rows: map<int, Row>, rs: Receivers, call: Call, lane: string, aside: set<int>, limit: nat,
                   lease: nat)
    requires Keyed(rs) && lane in Lanes(rs) && limit >= 1
    requires Foremost(rows, Candidates(rows, rs, call.now, Scope(Some(lane), None, aside, call.ignoreBackoff)), limit,
                      [])
    ensures NothingClaimable(rows, rs, call, lane, aside)
    ensures ClaimedRows(rows, [], call.worker, call.now, lease) == rows
  {
    var candidates := Candidates(rows, rs, call.now, Scope(Some(lane), None, aside, call.ignoreBackoff));
    assert candidates == {};
    forall id <- rows | LaneForKey(rs, rows[id].key) == lane && id !in aside
      ensures !Claimable(rows[id], call.now, call.ignoreBackoff)
    {
      LanesPartition(rs, rows[id].key, lane);
      assert id !in candidates;
    }
  }

  /** A claim takes its rows from where the log left them. */
  lemma ClaimHolds(start: map<int, Row>, log: seq<Run>, rows: map<int, Row>, t: Tally, ids: seq<int>, lane: string,
                   call: Call, course: Course, rs: Receivers, leases: Leases)
    requires Stands(start, log, rows, t, call, course, rs, leases) && AllIn(ids, rows) && Distinct(ids)
    requires forall i | 0 <= i < |ids| :: LaneForKey(rs, rows[ids[i]].key) == lane && ids[i] !in t.aside
    ensures var held := ClaimedRows(rows, ids, call.worker, call.now, leases(lane));
            MidBatch(start, log, held, t, ids, lane, call, course, rs, leases)
  {
    var held := ClaimedRows(rows, ids, call.worker, call.now, leases(lane));
    forall i | 0 <= i < |ids| ensures HeldAt(start, log, held, t, ids[i], lane, call, rs, leases) {
      assert RestsAt(start, log, rows, ids[i], call, rs, leases) && ids[i] in ids;
    }
    forall id <- start | id !in ids ensures RestsAt(start, log, held, id, call, rs, leases) {
      assert RestsAt(start, log, rows, id, call, rs, leases);
    }
  }

  /** The rest of a batch, handed back, rests. */
  lemma HandedBackRests(start: map<int, Row>, log: seq<Run>, rows: map<int, Row>, t: Tally, ids: seq<int>, lane: string,
                        call: Call, course: Course, rs: Receivers, leases: Leases)
    requires MidBatch(start, log, rows, t, ids, lane, call, course, rs, leases)
    ensures Stands(start, log, HandedBackRows(rows, ids, Token(call.worker, Some(call.now))), t, call, course, rs,
                   leases)
  {
    var after := HandedBackRows(rows, ids, Token(call.worker, Some(call.now)));
    forall id <- start ensures RestsAt(start, log, after, id, call, rs, leases) {
      if id in ids {
        var i :| 0 <= i < |ids| && ids[i] == id;
        assert HeldAt(start, log, rows, t, ids[i], lane, call, rs, leases);
      } else {
        assert RestsAt(start, log, rows, id, call, rs, leases);
      }
    }
  }

  lemma HandBackKeepsOwed(rows: map<int, Row>, t: Tally, ids: seq<int>, claim: Token, fate: Fate, g: Bounds,
                          rs: Receivers, s: Settings)
    requires Bounded(rows, t, fate, g, rs, s)
    ensures var after := HandedBackRows(rows, ids, claim);
            Bounded(after, t, fate, g, rs, s) && Owed(after, t, g, rs) <= Owed(rows, t, g, rs)
  {
    TotalFalls(Pass(rows, t.closed, t.aside), Pass(HandedBackRows(rows, ids, claim), t.closed, t.aside), rs, g.order,
               0);
  }

  /** One lane's turn: claim its batch under its own lease and deliver it. */
  method Turn(db: Outbox, rs: Receivers, s: Settings, call: Call, lane: string, fate: Fate, t: Tally,
              ghost start: map<int, Row>, ghost log: seq<Run>, ghost g: Bounds)
    returns (claimed: bool, t': Tally, ghost log': seq<Run>)
    requires Keyed(rs) && Served(lane, call, rs) && lane !in t.closed
    requires Bounded(db.rows, t, fate, g, rs, s)
    requires Stands(start, log, db.rows, t, call, CourseFrom(call.worker, fate, rs, s), rs, LeasesIn(rs, s))
    modifies db`rows
    ensures Bounded(db.rows, t', fate, g, rs, s)
    ensures Stands(start, log', db.rows, t', call, CourseFrom(call.worker, fate, rs, s), rs, LeasesIn(rs, s))
    ensures t.closed <= t'.closed <= t.closed + {lane}
    ensures claimed ==> Lower(db.rows, t', old(db.rows), t, g, rs)
    ensures !claimed ==> db.rows == old(db.rows) && t' == t && NothingClaimable(db.rows, rs, call, lane, t.aside)
  {
    ghost var before := db.rows;
    t', log' := t, log;
    var lease := ClaimLease(rs, Some(lane), s.lease, false);
    var ids := ClaimBatch(db, rs, call.worker, call.now, lease, call.sizeOf(lane),
                          Scope(Some(lane), None, t.aside, call.ignoreBackoff));
    claimed := ids != [];
    if !claimed {
      EmptyClaim(before, rs, call, lane, t.aside, call.sizeOf(lane), lease);
      return;
    }
    ClaimedRowsAreHeld(before, rs, ids, call, lane, t.aside, lease);
    ClaimKeepsOwed(before, t, ids, call.worker, call.now, lease, fate, g, rs, s);
    ClaimHolds(start, log, before, t, ids, lane, call, CourseFrom(call.worker, fate, rs, s), rs, LeasesIn(rs, s));
    t', log' := DeliverClaimed(db, rs, s, call, lane, ids, fate, t, start, log, g);
  }

  /** Deliver a claimed batch in order until it is done or one delivery defers, and hand
      the rest back. */
  method DeliverClaimed(db: Outbox, rs: Receivers, s: Settings, call: Call, lane: string, ids: seq<int>, fate: Fate,
                        t: Tally, ghost start: map<int, Row>, ghost log: seq<Run>, ghost g: Bounds)
    returns (t': Tally, ghost log': seq<Run>)
    requires MidBatch(start, log, db.rows, t, ids, lane, call, CourseFrom(call.worker, fate, rs, s), rs,
                      LeasesIn(rs, s))
    requires ids != [] && lane !in t.closed
    requires Bounded(db.rows, t, fate, g, rs, s)
    modifies db`rows
    ensures Bounded(db.rows, t', fate, g, rs, s) && Lower(db.rows, t', old(db.rows), t, g, rs)
    ensures Stands(start, log', db.rows, t', call, CourseFrom(call.worker, fate, rs, s), rs, LeasesIn(rs, s))
    ensures t.closed <= t'.closed <= t.closed + {lane}
  {
    ghost var before := db.rows;
    var deferred, unstarted := false, ids;
    t', log' := t, log;
    while unstarted != [] && !deferred
      invariant MidBatch(start, log', db.rows, t', unstarted, lane, call, CourseFrom(call.worker, fate, rs, s), rs,
                         LeasesIn(rs, s))
      invariant Bounded(db.rows, t', fate, g, rs, s)
      invariant t'.closed == if deferred then t.closed + {lane} else t.closed
      invariant if unstarted == ids then t' == t && !deferred && db.rows == before
                else Lower(db.rows, t', before, t, g, rs)
      decreases |unstarted|
    {
      t', deferred, log' := DeliverNext(db, rs, s, call, lane, unstarted, fate, t', start, log', g);
      unstarted := unstarted[1..];
    }
    HandedBackRests(start, log', db.rows, t', unstarted, lane, call, CourseFrom(call.worker, fate, rs, s), rs,
                    LeasesIn(rs, s));
    HandBackKeepsOwed(db.rows, t', unstarted, Token(call.worker, Some(call.now)), fate, g, rs, s);
    if deferred {
      var _ := HandBack(db, unstarted, call.worker, call.now);
    }
  }

  /** Why something must be known of queues: a task that defers without counting inside
      its hand-off leaves its row as claimable as it was, having spent nothing and with
      nothing to tell the pass so. A drain that ignores the backoff claims it over and
      over, until the attempt's own clock reaches the receiver's bound: then it is dead. */
  lemma UnheardDeferralsSpendNothing(row: Row, worker: string, a: Attempt, q: HandOff, rs: Receivers, s: Settings,
                                     now: Time)
    requires row.status == Claimed && row.claim == Token(worker, row.claim.at) && !NotYetDue(row, now)
    requires row.key in rs && rs[row.key].site == InTask && rs[row.key].giveUpAfter.Some? && q.RanAtOnce?
    requires q.attempt.verdict.RetryAfter? && !q.attempt.verdict.counts
    ensures var r := Dispatched(row, worker, a, q, rs, s);
            && r.row.attempts == row.attempts && OwedSince(r.row) == OwedSince(row) && !r.deferred && !PutAside(r)
            && if q.attempt.recordedAt - OwedSince(row) < rs[row.key].giveUpAfter.value
               then Claimable(r.row, now, true)
               else r.row.status == Dead
  {
    var lease := LeaseOf(rs, row.key, s.lease);
    var fence := Token(worker, row.claim.at);
    var handed := if LeasedFor(row, fence, a.now, lease) then row else Extended(row, a.now, lease);
    var taken := TakenBy(handed, q.taskId, q.takenAt);
    RunProgressesDeferred(taken, q.attempt, rs, s);
  }

  lemma RunProgressesDeferred(row: Row, a: Attempt, rs: Receivers, s: Settings)
    requires row.status == Claimed && row.key in rs && rs[row.key].giveUpAfter.Some?
    requires a.verdict.RetryAfter? && !a.verdict.counts
    ensures var r := Ran(row, row.claim, a, rs, s);
            && r.row.attempts == row.attempts && r.row.dueAt == row.dueAt && r.row.recordedAt == row.recordedAt
            && r.row.status == if a.recordedAt - OwedSince(row) < rs[row.key].giveUpAfter.value then Failed else Dead
  {
  }

  /** The first `n` lanes of a rotation have nothing to claim. */
  ghost predicate Exhausted(rows: map<int, Row>, rs: Receivers, call: Call, rotation: seq<string>, n: nat,
                            aside: set<int>)
    requires n <= |rotation|
  {
    n > 0 ==>
      Exhausted(rows, rs, call, rotation, n - 1, aside) && NothingClaimable(rows, rs, call, rotation[n - 1], aside)
  }

  lemma {:induction false} ExhaustedAt(rows: map<int, Row>, rs: Receivers, call: Call, rotation: seq<string>, n: nat,
                                       aside: set<int>, i: nat)
    requires n <= |rotation| && i < n && Exhausted(rows, rs, call, rotation, n, aside)
    ensures NothingClaimable(rows, rs, call, rotation[i], aside)
  {
    if i < n - 1 {
      ExhaustedAt(rows, rs, call, rotation, n - 1, aside, i);
    }
  }

  /** A rotation of every open lane that found nothing leaves nothing in any of them. */
  lemma AllExhausted(rows: map<int, Row>, rs: Receivers, call: Call, lanes: seq<string>, t: Tally)
    requires var rotation := OpenLanes(lanes, t.closed); Exhausted(rows, rs, call, rotation, |rotation|, t.aside)
    ensures forall i | 0 <= i < |lanes| && lanes[i] !in t.closed :: NothingClaimable(rows, rs, call, lanes[i], t.aside)
  {
    var rotation := OpenLanes(lanes, t.closed);
    forall i | 0 <= i < |lanes| && lanes[i] !in t.closed ensures NothingClaimable(rows, rs, call, lanes[i], t.aside) {
      assert lanes[i] in rotation;
      var j :| 0 <= j < |rotation| && rotation[j] == lanes[i];
      ExhaustedAt(rows, rs, call, rotation, |rotation|, t.aside, j);
    }
  }

  /** One rotation: each open lane's turn, in order. */
  method Rotate(db: Outbox, rs: Receivers, s: Settings, call: Call, rotation: seq<string>, fate: Fate, t: Tally,
                ghost start: map<int, Row>, ghost log: seq<Run>, ghost g: Bounds)
    returns (claimed: bool, t': Tally, ghost log': seq<Run>)
    requires Keyed(rs) && Distinct(rotation)
    requires forall i | 0 <= i < |rotation| :: Served(rotation[i], call, rs) && rotation[i] !in t.closed
    requires Bounded(db.rows, t, fate, g, rs, s)
    requires Stands(start, log, db.rows, t, call, CourseFrom(call.worker, fate, rs, s), rs, LeasesIn(rs, s))
    modifies db`rows
    ensures Bounded(db.rows, t', fate, g, rs, s)
    ensures Stands(start, log', db.rows, t', call, CourseFrom(call.worker, fate, rs, s), rs, LeasesIn(rs, s))
    ensures claimed ==> Lower(db.rows, t', old(db.rows), t, g, rs)
    ensures !claimed ==> db.rows == old(db.rows) && t' == t
    ensures !claimed ==> Exhausted(db.rows, rs, call, rotation, |rotation|, t.aside)
  {
    ghost var rows := db.rows;
    claimed, t', log' := false, t, log;
    for turn := 0 to |rotation|
      invariant Bounded(db.rows, t', fate, g, rs, s)
      invariant Stands(start, log', db.rows, t', call, CourseFrom(call.worker, fate, rs, s), rs, LeasesIn(rs, s))
      invariant forall i | turn <= i < |rotation| :: rotation[i] !in t'.closed
      invariant claimed ==> Lower(db.rows, t', rows, t, g, rs)
      invariant !claimed ==> db.rows == rows && t' == t
      invariant !claimed ==> Exhausted(rows, rs, call, rotation, turn, t.aside)
    {
      var took;
      took, t', log' := Turn(db, rs, s, call, rotation[turn], fate, t', start, log', g);
      claimed := claimed || took;
    }
  }

  /** Nothing is left to claim in the lanes still open. */
  ghost predicate Drained(rows: map<int, Row>, rs: Receivers, call: Call, lanes: seq<string>, t: Tally) {
    forall i | 0 <= i < |lanes| && lanes[i] !in t.closed :: NothingClaimable(rows, rs, call, lanes[i], t.aside)
  }

  // ---- What the call leaves, read off the rows and its log --------------------------------

  /** The delivery deferred its lane: it is owed still, and cost the row no attempt. */
  predicate Deferred(r: Run) {
    r.result.outcome == Some(Failed) && r.result.row.attempts == r.before.attempts
  }

  lemma RunReadsOff(r: Run, k: nat, worker: string, fate: Fate, rs: Receivers, s: Settings)
    requires r.before.status == Claimed && r.before.claim.who == worker
    requires r.result == CourseFrom(worker, fate, rs, s)(k, r.before)
    ensures PutAside(r.result) ==> r.result.row.status == Pending || r.result.row.status == Claimed
    ensures r.result.deferred <==> Deferred(r)
  {
    CourseAt(k, r.before, worker, fate, rs, s);
    DispatchedOutcomes(r.before, worker, fate.attempts(k), fate.handOffs(k), rs, s);
    if r.result.outcome.Some? {
      HeldRunsAreRecorded(r.before, r.before.claim, fate.attempts(k), rs, s);
    }
  }

  /** Every run of the log is of a row it held. */
  lemma {:induction false} LoggedAt(start: map<int, Row>, log: seq<Run>, call: Call, course: Course, rs: Receivers,
                                    leases: Leases, k: nat)
    requires Logged(start, log, call, course, rs, leases) && k < |log|
    ensures log[k].before.status == Claimed && log[k].before.claim == Token(call.worker, Some(call.now))
    ensures log[k].before.leaseEnd == Some(call.now + leases(log[k].lane)) && log[k].id in start
    ensures log[k].lane == LaneForKey(rs, start[log[k].id].key) && log[k].result == course(k, log[k].before)
  {
    if k < |log| - 1 {
      LoggedAt(start, log[..|log| - 1], call, course, rs, leases, k);
    }
  }

  /** A row put aside was delivered, and its last delivery left it pending or claimed. */
  lemma {:induction false} AsideReadsOff(start: map<int, Row>, log: seq<Run>, call: Call, fate: Fate, rs: Receivers,
                                         s: Settings, leases: Leases, id: int)
    requires Logged(start, log, call, CourseFrom(call.worker, fate, rs, s), rs, leases) && id in AsideBy(log)
    ensures id in start && (exists k :: 0 <= k < |log| && log[k].id == id)
    ensures var last := RowAfter(start, log, id).status; last == Pending || last == Claimed
  {
    var b, r := log[..|log| - 1], log[|log| - 1];
    LoggedAt(start, log, call, CourseFrom(call.worker, fate, rs, s), rs, leases, |log| - 1);
    RunReadsOff(r, |log| - 1, call.worker, fate, rs, s);
    if id in AsideBy(b) {
      AsideReadsOff(start, b, call, fate, rs, s, leases, id);
      var k :| 0 <= k < |b| && b[k].id == id;
      assert log[k] == b[k];
    } else {
      assert log[|log| - 1].id == id;
    }
  }

  /** The lanes closed are those of the deliveries that deferred. */
  lemma {:induction false} ClosedReadsOff(log: seq<Run>, lane: string)
    requires forall k | 0 <= k < |log| :: log[k].result.deferred <==> Deferred(log[k])
    ensures lane in ClosedBy(log) <==> exists k :: 0 <= k < |log| && log[k].lane == lane && Deferred(log[k])
  {
    if log != [] {
      var b := log[..|log| - 1];
      ClosedReadsOff(b, lane);
      if lane in ClosedBy(b) {
        var k :| 0 <= k < |b| && b[k].lane == lane && Deferred(b[k]);
        assert log[k] == b[k];
      } else if lane in ClosedBy(log) {
        assert Deferred(log[|log| - 1]) && log[|log| - 1].lane == lane;
      }
    }
  }

  /** Whether a delivery of the log came to this. */
  function CameTo(log: seq<Run>, status: Status): nat -> bool {
    (k: nat) => k < |log| && log[k].result.outcome == Some(status)
  }

  lemma CountedNext(log: seq<Run>, n: nat, status: Status)
    requires n < |log|
    ensures CountedBy(log[..n + 1])[status] == CountedBy(log[..n])[status] + if CameTo(log, status)(n) then 1 else 0
  {
    var upTo := log[..n + 1];
    assert upTo[..|upTo| - 1] == log[..n] && upTo[|upTo| - 1] == log[n];
  }

  lemma {:induction false} CountsReadOff(log: seq<Run>, n: nat, status: Status)
    requires n <= |log|
    ensures CountedBy(log[..n])[status] == |Positions(n, CameTo(log, status))|
  {
    if n == 0 {
      assert Positions(0, CameTo(log, status)) == {};
    } else {
      CountsReadOff(log, n - 1, status);
      CountedNext(log, n - 1, status);
      PositionsGrow(n - 1, CameTo(log, status));
    }
  }

  /** A row left waiting, in a lane served and not closed, was put aside: this call
      delivered it, and it is pending or claimed. */
  predicate LeftAside(id: int, row: Row, log: seq<Run>) {
    (row.status == Pending || row.status == Claimed) && exists k :: 0 <= k < |log| && log[k].id == id
  }

  /** Each delivery was of a row this call had claimed, under the lease of the row's lane. */
  predicate HeldUnder(r: Run, call: Call, rs: Receivers, s: Settings) {
    && r.before.status == Claimed && r.before.claim == Token(call.worker, Some(call.now))
    && r.before.leaseEnd == Some(call.now + ClaimLease(rs, Some(r.lane), s.lease, false))
  }

  /** The rows put aside, the lanes closed and the outcomes counted, by the log. */
  predicate AsideLeft(rows: map<int, Row>, t: Tally, log: seq<Run>) {
    forall id <- t.aside :: id in rows && LeftAside(id, rows[id], log)
  }

  ghost predicate ClosedByDeferrals(t: Tally, log: seq<Run>) {
    forall lane :: lane in t.closed <==> exists k :: 0 <= k < |log| && log[k].lane == lane && Deferred(log[k])
  }

  ghost predicate CountsOutcomes(t: Tally, log: seq<Run>) {
    forall status :: t.counts[status] == |Positions(|log|, CameTo(log, status))|
  }

  /** No row waits in a lane served and still open but those put aside. */
  predicate NoneLeft(rows: map<int, Row>, t: Tally, call: Call, lanes: seq<string>, rs: Receivers) {
    forall id <- rows |
      && Waits(rows[id], call.now, call.ignoreBackoff)
      && (if rows[id].key in rs then rs[rows[id].key].lane else DEFAULT_LANE) in lanes
      && (if rows[id].key in rs then rs[rows[id].key].lane else DEFAULT_LANE) !in t.closed ::
        id in t.aside
  }

  /** Where the call leaves the rows, the lanes and its counts. */
  ghost predicate Leaves(rows: map<int, Row>, t: Tally, log: seq<Run>, call: Call, lanes: seq<string>, rs: Receivers,
                         s: Settings) {
    && AsideLeft(rows, t, log) && NoneLeft(rows, t, call, lanes, rs)
    && ClosedByDeferrals(t, log) && CountsOutcomes(t, log)
    && forall k | 0 <= k < |log| :: HeldUnder(log[k], call, rs, s)
  }

  lemma LeaseIs(rs: Receivers, s: Settings, lane: string)
    ensures LeasesIn(rs, s)(lane) == ClaimLease(rs, Some(lane), s.lease, false)
  {
  }

  lemma RunHeld(r: Run, call: Call, rs: Receivers, s: Settings, lease: nat)
    requires lease == ClaimLease(rs, Some(r.lane), s.lease, false)
    requires r.before.status == Claimed && r.before.claim == Token(call.worker, Some(call.now))
    requires r.before.leaseEnd == Some(call.now + lease)
    ensures HeldUnder(r, call, rs, s)
  {
  }

  lemma LogHeld(start: map<int, Row>, log: seq<Run>, call: Call, course: Course, rs: Receivers, s: Settings, k: nat)
    requires Logged(start, log, call, course, rs, LeasesIn(rs, s)) && k < |log|
    ensures HeldUnder(log[k], call, rs, s)
  {
    LoggedAt(start, log, call, course, rs, LeasesIn(rs, s), k);
    LeaseIs(rs, s, log[k].lane);
    RunHeld(log[k], call, rs, s, LeasesIn(rs, s)(log[k].lane));
  }

  lemma LogDefers(start: map<int, Row>, log: seq<Run>, call: Call, fate: Fate, rs: Receivers, s: Settings,
                  leases: Leases, k: nat)
    requires Logged(start, log, call, CourseFrom(call.worker, fate, rs, s), rs, leases) && k < |log|
    ensures log[k].result.deferred <==> Deferred(log[k])
  {
    LoggedAt(start, log, call, CourseFrom(call.worker, fate, rs, s), rs, leases, k);
    RunReadsOff(log[k], k, call.worker, fate, rs, s);
  }

  lemma AsideAreLeft(start: map<int, Row>, log: seq<Run>, rows: map<int, Row>, t: Tally, call: Call, fate: Fate,
                     rs: Receivers, s: Settings, leases: Leases)
    requires Stands(start, log, rows, t, call, CourseFrom(call.worker, fate, rs, s), rs, leases)
    ensures AsideLeft(rows, t, log)
  {
    forall id <- t.aside ensures id in rows && LeftAside(id, rows[id], log) {
      AsideReadsOff(start, log, call, fate, rs, s, leases, id);
      assert RestsAt(start, log, rows, id, call, rs, leases);
    }
  }

  lemma TallyReadsOff(log: seq<Run>)
    requires forall k | 0 <= k < |log| :: log[k].result.deferred <==> Deferred(log[k])
    ensures ClosedByDeferrals(TallyOf(log), log) && CountsOutcomes(TallyOf(log), log)
  {
    forall lane ensures lane in ClosedBy(log) <==>
                        exists k :: 0 <= k < |log| && log[k].lane == lane && Deferred(log[k]) {
      ClosedReadsOff(log, lane);
    }
    forall status ensures CountedBy(log)[status] == |Positions(|log|, CameTo(log, status))| {
      CountsReadOff(log, |log|, status);
      assert log[..|log|] == log;
    }
  }

  lemma CallLeaves(start: map<int, Row>, log: seq<Run>, rows: map<int, Row>, t: Tally, call: Call, fate: Fate,
                   lanes: seq<string>, rs: Receivers, s: Settings)
    requires Stands(start, log, rows, t, call, CourseFrom(call.worker, fate, rs, s), rs, LeasesIn(rs, s))
    requires Drained(rows, rs, call, lanes, t)
    ensures Leaves(rows, t, log, call, lanes, rs, s)
  {
    forall k | 0 <= k < |log|
      ensures (log[k].result.deferred <==> Deferred(log[k])) && HeldUnder(log[k], call, rs, s)
    {
      LogDefers(start, log, call, fate, rs, s, LeasesIn(rs, s), k);
      LogHeld(start, log, call, CourseFrom(call.worker, fate, rs, s), rs, s, k);
    }
    TallyReadsOff(log);
    AsideAreLeft(start, log, rows, t, call, fate, rs, s, LeasesIn(rs, s));
    NoneWaits(rows, rs, call, lanes, t);
  }

  lemma NoneWaits(rows: map<int, Row>, rs: Receivers, call: Call, lanes: seq<string>, t: Tally)
    requires Drained(rows, rs, call, lanes, t)
    ensures NoneLeft(rows, t, call, lanes, rs)
  {
    forall id <- rows | Waits(rows[id], call.now, call.ignoreBackoff) && LaneForKey(rs, rows[id].key) in lanes
                        && LaneForKey(rs, rows[id].key) !in t.closed
      ensures id in t.aside
    {
      var i :| 0 <= i < |lanes| && lanes[i] == LaneForKey(rs, rows[id].key);
      assert NothingClaimable(rows, rs, call, lanes[i], t.aside);
      assert Claimable(rows[id], call.now, call.ignoreBackoff);
    }
  }

  /** One rotation over whichever lanes are open. */
  method RotateOpen(db: Outbox, rs: Receivers, s: Settings, call: Call, lanes: seq<string>, fate: Fate, t: Tally,
                    ghost start: map<int, Row>, ghost log: seq<Run>, ghost g: Bounds)
    returns (claimed: bool, t': Tally, ghost log': seq<Run>)
    requires Keyed(rs) && Distinct(lanes) && forall i | 0 <= i < |lanes| :: Served(lanes[i], call, rs)
    requires Bounded(db.rows, t, fate, g, rs, s)
    requires Stands(start, log, db.rows, t, call, CourseFrom(call.worker, fate, rs, s), rs, LeasesIn(rs, s))
    modifies db`rows
    ensures Bounded(db.rows, t', fate, g, rs, s)
    ensures Stands(start, log', db.rows, t', call, CourseFrom(call.worker, fate, rs, s), rs, LeasesIn(rs, s))
    ensures if claimed then Lower(db.rows, t', old(db.rows), t, g, rs) else Drained(db.rows, rs, call, lanes, t')
  {
    var rotation := OpenLanes(lanes, t.closed);
    assert forall i | 0 <= i < |rotation| :: rotation[i] in rotation;
    claimed, t', log' := Rotate(db, rs, s, call, rotation, fate, t, start, log, g);
    if !claimed {
      AllExhausted(db.rows, rs, call, lanes, t);
    }
  }

  /** Claim and deliver, lane by lane, until a whole rotation claims nothing. It ends,
      whatever the receivers do, if queues do not defer unheard for ever; when it returns,
      no row is claimable at `now` in a lane it serves but the rows put aside and the lanes
      a deferral closed; and its log accounts for every row, every closed lane, every row
      put aside and every count. */
  method DeliverPending(db: Outbox, rs: Receivers, s: Settings, call: Call, lanes: seq<string>, fate: Fate,
                        ghost quiet: nat, ghost since: Time)
    returns (t: Tally, ghost log: seq<Run>)
    requires Keyed(rs) && Distinct(lanes)
    requires forall i | 0 <= i < |lanes| :: Served(lanes[i], call, rs)
    requires Ready(db.rows, {}, since) && QuietFrom(fate, quiet, since, rs, s)
    modifies db`rows
    ensures Budgeted(db.rows)
    ensures Stands(old(db.rows), log, db.rows, t, call, CourseFrom(call.worker, fate, rs, s), rs, LeasesIn(rs, s))
    ensures Drained(db.rows, rs, call, lanes, t)
    ensures Leaves(db.rows, t, log, call, lanes, rs, s)
  {
    ghost var start := db.rows;
    t, log := Tally(0, {}, {}, multiset{}), [];
    ghost var g := Bounds(Listing(db.rows.Keys), since, quiet);
    var claimed := true;
    while claimed
      invariant Bounded(db.rows, t, fate, g, rs, s)
      invariant Stands(start, log, db.rows, t, call, CourseFrom(call.worker, fate, rs, s), rs, LeasesIn(rs, s))
      invariant !claimed ==> Drained(db.rows, rs, call, lanes, t)
      decreases claimed, Wait(t, g), Owed(db.rows, t, g, rs)
    {
      claimed, t, log := RotateOpen(db, rs, s, call, lanes, fate, t, start, log, g);
    }
    CallLeaves(start, log, db.rows, t, call, fate, lanes, rs, s);
  }
}
