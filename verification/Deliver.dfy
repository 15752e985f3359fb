/** Running one delivery: the fence, the outcome, and the hand-off to a queue. */
module Deliver {
  import opened Rows
  import opened Registry
  import opened Store
  import Protocol

  /** One run of `_deliver_one`: its two readings of the clock, and how it ended. */
  datatype Attempt = Attempt(now: Time, verdict: Verdict, recordedAt: Time, jitter: Jitter)

  /** The row after the call, the outcome it recorded, and whether it deferred its
      lane. No outcome: refused, or lost to another worker. */
  datatype Result = Result(row: Row, outcome: Option<Status>, deferred: bool)

  function PolicyOf(rs: Receivers, key: string, s: Settings): Policy {
    if key !in rs then Policy(s.base, s.cap, None, s.ceiling)
    else Policy(if rs[key].base.Some? then rs[key].base.value else s.base,
                if rs[key].cap.Some? then rs[key].cap.value else s.cap,
                rs[key].giveUpAfter, s.ceiling)
  }

  /** A row whose receiver is gone is orphaned whatever else. */
  function VerdictOn(rs: Receivers, key: string, v: Verdict): Verdict {
    if key !in rs then ReceiverUnknown else v
  }

  /** One delivery run with nobody else writing: refuse, secure the lease, run, record. */
  function Ran(row: Row, fence: Token, a: Attempt, rs: Receivers, s: Settings): Result {
    var lease := LeaseOf(rs, row.key, s.lease);
    var v, p := VerdictOn(rs, row.key, a.verdict), PolicyOf(rs, row.key, s);
    if !OwedAt(row, a.now) then Result(row, None, false)
    else if row.status != Claimed || LeasedFor(row, fence, a.now, lease) then Wrote(row, row, fence, a, v, p)
    else if !Owned(row, fence) then Result(row, None, false)
    else Wrote(Extended(row, a.now, lease), row, fence, a, v, p)
  }

  /** A row without a receiver is stamped with the reading the start check took. */
  function EndOf(a: Attempt, v: Verdict): Time {
    if v.ReceiverUnknown? then a.now else a.recordedAt
  }

  /** The outcome write, conditioned on the fence. */
  function Wrote(row: Row, loaded: Row, fence: Token, a: Attempt, v: Verdict, p: Policy): Result {
    if !Owned(row, fence) then Result(row, None, false)
    else
      var after := Recorded(row, loaded, v, p, EndOf(a, v), a.jitter);
      Result(after, Some(after.status), Defers(loaded, v, p, a.recordedAt))
  }

  /** `Ran` is the protocol's own read, start and finish, taken with no other worker
      between them: where it records an outcome the three steps are enabled and end
      in its row, so what every run keeps is kept by every delivery. */
  lemma RanIsTheProtocol(c: Protocol.Cell, worker: string, a: Attempt, rs: Receivers, s: Settings)
    requires worker in c.work && c.work[worker].Held?
    requires Protocol.Sound(VerdictOn(rs, c.row.key, a.verdict), a.now)
    ensures var r := Ran(c.row, Token(worker, c.row.claim.at), a, rs, s);
            var lease := LeaseOf(rs, c.row.key, s.lease);
            var read := Protocol.After(c, a.now, Protocol.Load(worker));
            var finish := Protocol.Finish(worker, VerdictOn(rs, c.row.key, a.verdict), PolicyOf(rs, c.row.key, s),
                                          a.jitter);
            if Protocol.Enabled(read, a.now, Protocol.Start(worker, lease)) then
              var started := Protocol.After(read, a.now, Protocol.Start(worker, lease));
              var end := EndOf(a, VerdictOn(rs, c.row.key, a.verdict));
              && Protocol.Enabled(started, end, finish)
              && Protocol.After(started, end, finish).row == r.row
              && (r.outcome.Some? <==> Owned(started.row, started.work[worker].fence))
            else r == Result(c.row, None, false)
  {
  }

  method Take(db: Outbox, id: int, message: Token, worker: string, now: Time) returns (taken: bool)
    modifies db`rows
    ensures taken <==> id in old(db.rows) && Takeable(old(db.rows)[id], message)
    ensures db.rows == if taken then old(db.rows)[id := TakenBy(old(db.rows)[id], worker, now)] else old(db.rows)
  {
    taken := id in db.rows && Takeable(db.rows[id], message);
    if taken {
      db.rows := db.rows[id := TakenBy(db.rows[id], worker, now)];
    }
  }

  /** The fence's write of a lease, or an outcome: conditioned on the token alone. */
  method ExtendLease(db: Outbox, id: int, fence: Token, now: Time, lease: nat) returns (owned: bool)
    modifies db`rows
    ensures owned <==> id in old(db.rows) && Owned(old(db.rows)[id], fence)
    ensures db.rows == if owned then old(db.rows)[id := Extended(old(db.rows)[id], now, lease)] else old(db.rows)
  {
    owned := id in db.rows && Owned(db.rows[id], fence);
    if owned {
      db.rows := db.rows[id := Extended(db.rows[id], now, lease)];
    }
  }

  method Write(db: Outbox, id: int, fence: Token, loaded: Row, v: Verdict, p: Policy, now: Time, jitter: Jitter)
    returns (outcome: Option<Status>)
    modifies db`rows
    ensures outcome.Some? <==> id in old(db.rows) && Owned(old(db.rows)[id], fence)
    ensures outcome.Some? ==>
              && id in db.rows && outcome == Some(db.rows[id].status)
              && db.rows == old(db.rows)[id := Recorded(old(db.rows)[id], loaded, v, p, now, jitter)]
    ensures outcome.None? ==> db.rows == old(db.rows)
  {
    outcome := None;
    if id in db.rows && Owned(db.rows[id], fence) {
      var row := Recorded(db.rows[id], loaded, v, p, now, jitter);
      db.rows := db.rows[id := row];
      outcome := Some(row.status);
    }
  }

  /** Read the row, refuse it or secure its lease, run its receiver and record the outcome. */
  method RunLoaded(db: Outbox, rs: Receivers, s: Settings, id: int, me: string, a: Attempt)
    returns (outcome: Option<Status>, deferred: bool)
    requires id in db.rows
    modifies db`rows
    ensures var row := old(db.rows)[id];
            var r := Ran(row, Token(me, row.claim.at), a, rs, s);
            db.rows == old(db.rows)[id := r.row] && outcome == r.outcome && deferred == r.deferred
  {
    outcome, deferred := None, false;
    var loaded := db.rows[id];
    if !OwedAt(loaded, a.now) {
      return;
    }
    var fence := Token(me, loaded.claim.at);
    var lease := LeaseOf(rs, loaded.key, s.lease);
    if loaded.status == Claimed && !LeasedFor(loaded, fence, a.now, lease) {
      var extended := ExtendLease(db, id, fence, a.now, lease);
      if !extended {
        return;
      }
    }
    var v, p := VerdictOn(rs, loaded.key, a.verdict), PolicyOf(rs, loaded.key, s);
    outcome := Write(db, id, fence, loaded, v, p, EndOf(a, v), a.jitter);
    deferred := outcome.Some? && Defers(loaded, v, p, a.recordedAt);
  }

  /** Run one delivery: under the claim the row names, as `worker` believes, or - when
      a message's claim is given - under a take that must succeed first. */
  method DeliverOne(db: Outbox, rs: Receivers, s: Settings, id: int, worker: Option<string>,
                    message: Option<Token>, taskId: string, takenAt: Time, a: Attempt)
    returns (outcome: Option<Status>, deferred: bool)
    requires id in db.rows
    modifies db`rows
    ensures message.Some? && !Takeable(old(db.rows)[id], message.value) ==>
              outcome.None? && !deferred && db.rows == old(db.rows)
    ensures message.Some? && Takeable(old(db.rows)[id], message.value) ==>
              var me := if worker.Some? then worker.value else taskId;
              var taken := TakenBy(old(db.rows)[id], me, takenAt);
              var r := Ran(taken, taken.claim, a, rs, s);
              db.rows == old(db.rows)[id := r.row] && outcome == r.outcome && deferred == r.deferred
    ensures message.None? ==>
              var row := old(db.rows)[id];
              var me := if worker.Some? then worker.value else row.claim.who;
              var r := Ran(row, Token(me, row.claim.at), a, rs, s);
              db.rows == old(db.rows)[id := r.row] && outcome == r.outcome && deferred == r.deferred
  {
    outcome, deferred := None, false;
    var me := worker;
    if message.Some? {
      me := Some(if worker.Some? then worker.value else taskId);
      var taken := Take(db, id, message.value, me.value, takenAt);
      if !taken {
        return;
      }
    }
    outcome, deferred := RunLoaded(db, rs, s, id, if me.Some? then me.value else db.rows[id].claim.who, a);
  }

  /** What a queue does with a hand-off before it returns: keep it, or run it. */
  datatype HandOff = Queued | RanAtOnce(taskId: string, takenAt: Time, attempt: Attempt)

  /** Deliver the row here, or hand it to the task backend under its claim. */
  method DispatchOne(db: Outbox, rs: Receivers, s: Settings, id: int, worker: string, a: Attempt, q: HandOff)
    returns (outcome: Option<Status>, deferred: bool)
    requires id in db.rows
    modifies db`rows
    ensures db.rows == old(db.rows)[id := Dispatched(old(db.rows)[id], worker, a, q, rs, s).row]
    ensures var r := Dispatched(old(db.rows)[id], worker, a, q, rs, s); outcome == r.outcome && deferred == r.deferred
  {
    var row := db.rows[id];
    if row.key !in rs || rs[row.key].site != InTask {
      outcome, deferred := DeliverOne(db, rs, s, id, Some(worker), None, "", 0, a);
      return;
    }
    outcome, deferred := None, false;
    var fence := Token(worker, row.claim.at);
    var lease := LeaseOf(rs, row.key, s.lease);
    if row.status != Claimed {
      return;
    }
    if !LeasedFor(row, fence, a.now, lease) {
      var extended := ExtendLease(db, id, fence, a.now, lease);
      if !extended {
        return;
      }
    }
    if q.RanAtOnce? {
      // The task records its own outcome; the caller hears of none.
      var _, _ := DeliverOne(db, rs, s, id, None, Some(fence), q.taskId, q.takenAt, q.attempt);
    }
  }

  function Dispatched(row: Row, worker: string, a: Attempt, q: HandOff, rs: Receivers, s: Settings): Result {
    var fence := Token(worker, row.claim.at);
    if row.key !in rs || rs[row.key].site != InTask then Ran(row, fence, a, rs, s)
    else
      var lease := LeaseOf(rs, row.key, s.lease);
      if row.status != Claimed then Result(row, None, false)
      else if !LeasedFor(row, fence, a.now, lease) && !Owned(row, fence) then Result(row, None, false)
      else
        var handed := if LeasedFor(row, fence, a.now, lease) then row else Extended(row, a.now, lease);
        match q
        case Queued => Result(handed, None, false)
        case RanAtOnce(taskId, takenAt, attempt) =>
          if !Takeable(handed, fence) then Result(handed, None, false)
          else
            var taken := TakenBy(handed, taskId, takenAt);
            Result(Ran(taken, taken.claim, attempt, rs, s).row, None, false)
  }

  /** The lease a row starts under: as it was, where that ends between the receiver's own
      and a tenth more from now, and else the receiver's own from now. */
  function StartsUnder(row: Row, now: Time, lease: nat): Option<Time> {
    if row.leaseEnd.Some? && lease <= row.leaseEnd.value - now && 10 * (row.leaseEnd.value - now) <= 11 * lease
    then row.leaseEnd else Some(now + lease)
  }

  /** The receiver's own lease, or the setting's where there is none. */
  function LeaseFor(rs: Receivers, key: string, s: Settings): nat {
    if key in rs then OwnLease(rs[key], s.lease) else s.lease
  }

  /** A run of a row it holds records what the attempt came to. */
  lemma HeldRun(row: Row, fence: Token, a: Attempt, rs: Receivers, s: Settings)
    returns (held: Row, v: Verdict, p: Policy)
    requires row.status == Claimed && row.claim == fence
    ensures held == row.(leaseEnd := StartsUnder(row, a.now, LeaseFor(rs, row.key, s)))
    ensures v == (if row.key in rs then a.verdict else ReceiverUnknown) && p == PolicyOf(rs, row.key, s)
    ensures var after := Recorded(held, row, v, p, EndOf(a, v), a.jitter);
            Ran(row, fence, a, rs, s) == Result(after, Some(after.status), Defers(row, v, p, a.recordedAt))
  {
    v, p := VerdictOn(rs, row.key, a.verdict), PolicyOf(rs, row.key, s);
    var lease := LeaseOf(rs, row.key, s.lease);
    held := if LeasedFor(row, fence, a.now, lease) then row else Extended(row, a.now, lease);
  }

  /** What a run did to a row it held: its outcome, of which its caller hears. The caller's
      lane is set aside exactly when the receiver asked to come back later without that
      counting, and may still. */
  lemma HeldRunsAreRecorded(row: Row, fence: Token, a: Attempt, rs: Receivers, s: Settings)
    requires row.status == Claimed && row.claim == fence
    ensures var r := Ran(row, fence, a, rs, s);
            var v := if row.key in rs then a.verdict else ReceiverUnknown;
            && r.outcome == Some(r.row.status)
            && (r.row.status == Succeeded <==> row.key in rs && a.verdict.Returned?)
            && (r.row.status == Orphaned <==> row.key !in rs || a.verdict.ReceiverUnknown?)
            && (r.deferred <==>
                  && row.key in rs && a.verdict.RetryAfter? && !a.verdict.counts && rs[row.key].giveUpAfter.Some?
                  && a.recordedAt - OwedSince(row) < rs[row.key].giveUpAfter.value)
            && (r.deferred <==> r.row.status == Failed && r.row.attempts == row.attempts)
            && r.row.leaseEnd == StartsUnder(row, a.now, LeaseFor(rs, row.key, s))
            && (r.row.completedAt.Some? ==>
                  r.row.completedAt.value == if v.ReceiverUnknown? then a.now else a.recordedAt)
            && (r.row.status == Succeeded ==> r.row.succeededAt == Some(a.recordedAt))
  {
    var held, v, p := HeldRun(row, fence, a, rs, s);
    OutcomesSettle(held, row, v, p, EndOf(a, v), a.jitter);
  }

  /** And a row that failed waits by its receiver's own curve, or the settings'; or for as
      long as was asked, up to the ceiling, where that counts. */
  lemma HeldRunsWait(row: Row, fence: Token, a: Attempt, rs: Receivers, s: Settings)
    requires row.status == Claimed && row.claim == fence && row.key in rs
    ensures var after := Ran(row, fence, a, rs, s).row;
            && (a.verdict.Raised? ==>
                  var base := if rs[row.key].base.Some? then rs[row.key].base.value else s.base;
                  var cap := if rs[row.key].cap.Some? then rs[row.key].cap.value else s.cap;
                  var wait := (after.availableAt - a.recordedAt) as real;
                  var window := Min(cap, base * Pow2(row.attempts)) as real;
                  window * a.jitter - 1.0 < wait <= window * a.jitter)
            && (a.verdict.RetryAfter? && a.verdict.counts ==>
                  after.availableAt == a.recordedAt + Min(a.verdict.delay, s.ceiling))
  {
    var held, v, p := HeldRun(row, fence, a, rs, s);
    if v.Raised? {
      FailuresWaitTheirBackoff(held, row, v, p, a.recordedAt, a.jitter);
    } else if v.RetryAfter? {
      RequestsAreGranted(held, row, v.delay, v.counts, p, a.recordedAt, a.jitter);
    }
  }

  /** Of a claimed row another worker holds, a run changes nothing. */
  lemma LostRunsChangeNothing(row: Row, fence: Token, a: Attempt, rs: Receivers, s: Settings)
    requires row.status == Claimed && row.claim != fence
    ensures Ran(row, fence, a, rs, s) == Result(row, None, false)
  {
  }

  /** A row of a task's receiver is not run by its caller, who hears of no outcome; any
      other is, and of whatever is heard the row has that status. */
  lemma DispatchedOutcomes(row: Row, worker: string, a: Attempt, q: HandOff, rs: Receivers, s: Settings)
    requires row.status == Claimed && row.claim.who == worker
    ensures var r := Dispatched(row, worker, a, q, rs, s);
            && (r.outcome.Some? <==> row.key !in rs || rs[row.key].site == InRelay)
            && (r.outcome.Some? ==> r.outcome.value == r.row.status && r == Ran(row, row.claim, a, rs, s))
            && (r.outcome.None? ==> !r.deferred)
            && (r.outcome.None? ==>
                  var handed := row.(leaseEnd := StartsUnder(row, a.now, LeaseFor(rs, row.key, s)));
                  r.row == match q
                           case Queued => handed
                           case RanAtOnce(taskId, takenAt, attempt) =>
                             var taken := handed.(claim := Token(taskId, Some(takenAt)));
                             Ran(taken, taken.claim, attempt, rs, s).row)
  {
    HeldRunsAreRecorded(row, row.claim, a, rs, s);
  }

  /** How each delivery of a call goes, in order: nothing is known of it. */
  datatype Fate = Fate(attempts: nat -> Attempt, handOffs: nat -> HandOff)

  function Fated(row: Row, worker: string, fate: Fate, k: nat, rs: Receivers, s: Settings): Result {
    Dispatched(row, worker, fate.attempts(k), fate.handOffs(k), rs, s)
  }

  /** What the `k`-th delivery of a call makes of a row. */
  type Course = (nat, Row) -> Result

  function CourseFrom(worker: string, fate: Fate, rs: Receivers, s: Settings): Course {
    (k: nat, row: Row) => Fated(row, worker, fate, k, rs, s)
  }

  lemma CourseAt(k: nat, row: Row, worker: string, fate: Fate, rs: Receivers, s: Settings)
    ensures CourseFrom(worker, fate, rs, s)(k, row) == Fated(row, worker, fate, k, rs, s)
  {
  }
}
