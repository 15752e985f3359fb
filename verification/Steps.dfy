/** The loops' writes are the protocol's steps: what is proved of every run holds of the
    claims, hand-offs, hand-backs, operators and prunes as they are written. */
module Steps {
  import opened Rows
  import opened Registry
  import opened Retention
  import opened Store
  import opened Claims
  import opened Deliver
  import opened World
  import Protocol
  import Operators
  import Replay
  import Prune

  /** A claim writes each row it selects as the protocol's claim does, and selects only
      rows that step may take. */
  lemma ClaimedRowsAreClaimSteps(rows: map<int, Row>, rs: Receivers, worker: string, now: Time, lease: nat,
                                 scope: Scope,
                                 limit: nat, ids: seq<int>, i: nat, c: Protocol.Cell)
    requires Foremost(rows, Candidates(rows, rs, now, scope), limit, ids) && i < |ids|
    requires c.row == rows[ids[i]] && Protocol.Unseen(c, worker, now)
    ensures var a := Protocol.Claim(worker, lease, scope.ignoreBackoff);
            && Protocol.Enabled(c, now, a)
            && ClaimedRows(rows, ids, worker, now, lease)[ids[i]] == Protocol.After(c, now, a).row
  {
    ClaimedRowAt(rows, ids, i, worker, now, lease);
  }

  /** A hand-back writes each row named as the protocol's does, whether or not the claim
      is still its own. */
  lemma HandedBackRowsAreHandBackSteps(rows: map<int, Row>, ids: seq<int>, worker: string, at: Time, i: nat,
                                       c: Protocol.Cell, now: Time)
    requires i < |ids| && ids[i] in rows && c.row == rows[ids[i]]
    requires worker in c.work && c.work[worker] == Protocol.Held(at)
    ensures Protocol.Enabled(c, now, Protocol.HandBack(worker))
    ensures HandedBackRows(rows, ids, Token(worker, Some(at)))[ids[i]]
         == Protocol.After(c, now, Protocol.HandBack(worker)).row
  {
    assert ids[i] in ids;
  }

  /** A queued hand-off is the protocol's read and hand-off, or no step at all. */
  lemma QueuedRowsAreHandOffSteps(c: Protocol.Cell, worker: string, a: Attempt, rs: Receivers, s: Settings)
    requires worker in c.work && c.work[worker].Held? && c.row.key in rs && rs[c.row.key].site == InTask
    ensures var lease := LeaseOf(rs, c.row.key, s.lease);
            var read := Protocol.After(c, a.now, Protocol.Load(worker));
            var row := Dispatched(c.row, worker, a, Queued, rs, s).row;
            if Protocol.Enabled(read, a.now, Protocol.HandOff(worker, lease)) then
              row == Protocol.After(read, a.now, Protocol.HandOff(worker, lease)).row
            else row == c.row
  {
  }

  /** A hand-off the queue runs at once is, besides, the protocol's take by the row's
      message - refused exactly when that step is - and the run that follows it. */
  lemma RowsRunAtOnceAreTakeSteps(c: Protocol.Cell, worker: string, a: Attempt, taskId: string, takenAt: Time,
                                  attempt: Attempt, rs: Receivers, s: Settings)
    requires worker in c.work && c.work[worker].Held? && c.row.key in rs && rs[c.row.key].site == InTask
    requires var read := Protocol.After(c, a.now, Protocol.Load(worker));
             var handOff := Protocol.HandOff(worker, LeaseOf(rs, c.row.key, s.lease));
             Protocol.Enabled(read, a.now, handOff)
             && Protocol.Unseen(Protocol.After(read, a.now, handOff), taskId, takenAt)
    ensures var handOff := Protocol.HandOff(worker, LeaseOf(rs, c.row.key, s.lease));
            var sent := Protocol.After(Protocol.After(c, a.now, Protocol.Load(worker)), a.now, handOff);
            var take := Protocol.Take(Token(worker, c.row.claim.at), taskId);
            var row := Dispatched(c.row, worker, a, RanAtOnce(taskId, takenAt, attempt), rs, s).row;
            if Protocol.Enabled(sent, takenAt, take) then
              var taken := Protocol.After(sent, takenAt, take);
              && taken.work[taskId].Held?
              && row == Ran(taken.row, Token(taskId, taken.row.claim.at), attempt, rs, s).row
            else row == sent.row
  {
  }

  /** A cancel, a requeue and a replay write a row as the protocol's steps do, under the
      same condition on its status, whenever their clock was read. */
  lemma OperatorsAreSteps(c: Protocol.Cell, now: Time, when: Time, pairs: set<Replay.Pair>, plan: Replay.Plan)
    requires plan((c.row.event, c.row.key)).when == when
    ensures Retryable(c.row.status) <==> Protocol.Enabled(c, now, Protocol.Cancel)
    ensures Retryable(c.row.status) ==> Protocol.After(c, now, Protocol.Cancel).row == Withdrawn(c.row, now)
    ensures c.row.status == Dead <==> Protocol.Enabled(c, now, Protocol.Requeue(when))
    ensures c.row.status == Dead ==> Protocol.After(c, now, Protocol.Requeue(when)).row == Reopened(c.row, when)
    ensures Replay.Names(pairs, plan, c.row) ==>
              Replay.Replayed(pairs, plan, c.row) ==
              if Protocol.Enabled(c, now, Protocol.Replay(when)) then Protocol.After(c, now, Protocol.Replay(when)).row
              else c.row
  {
  }

  /** What a prune's transaction holds: the events of its batch. */
  ghost predicate Locked(w: World, txn: string, batch: seq<int>) {
    forall e <- w.events :: Holds(w, txn, e) <==> e in batch
  }

  /** The events of a batch its delete finds still due. */
  function StillDue(events: map<int, Event>, rows: map<int, Row>, batch: seq<int>, q: Prune.Query): set<int> {
    set e | e in batch && Prune.IsDue(events, rows, q, e)
  }

  lemma RecheckFindsTheDue(w: World, now: Time, txn: string, batch: seq<int>, q: Prune.Query)
    requires w.clock <= now && Locked(w, txn, batch)
    ensures var checked := Next(w, now, Recheck(txn, q.arm, q.moment, q.ordinary));
            && Live(checked) == Live(w) && txn in checked.stillDue
            && checked.stillDue[txn] == StillDue(w.events, Live(w), batch, q)
  {
    var checked := Next(w, now, Recheck(txn, q.arm, q.moment, q.ordinary));
    assert forall e <- w.events :: Holds(w, txn, e) <==> e in batch;
    assert Live(checked) == Live(w);
  }

  lemma RemovedLeaves(w: World, now: Time, txn: string, gone: set<int>, events: set<int>, side: map<string, Time>)
    ensures Live(Removed(w, now, txn, gone, events, side)) == Without(Live(w), gone)
  {
  }

  /** The re-check and the delete of a batch, its events locked, take the world where the
      prune's own delete takes the tables. */
  lemma DeleteBatchIsSteps(w: World, now: Time, txn: string, batch: seq<int>, q: Prune.Query, side: map<string, Time>)
    requires w.clock <= now && Locked(w, txn, batch)
    requires Folds(w.side, Only(Live(w), RowsOfEvents(Live(w), StillDue(w.events, Live(w), batch, q))), side)
    ensures var recheck := Recheck(txn, q.arm, q.moment, q.ordinary);
            var gone := StillDue(w.events, Live(w), batch, q);
            && Possible(w, now, recheck)
            && var checked := Next(w, now, recheck);
               Possible(checked, now, DeleteEvents(txn, side))
               && var after := Next(checked, now, DeleteEvents(txn, side));
                  && Live(after) == Without(Live(w), RowsOfEvents(Live(w), gone))
                  && after.events == w.events - gone && after.side == side
  {
    RecheckFindsTheDue(w, now, txn, batch, q);
    var gone := StillDue(w.events, Live(w), batch, q);
    var checked := Next(w, now, Recheck(txn, q.arm, q.moment, q.ordinary));
    RemovedLeaves(checked, now, txn, RowsOfEvents(Live(w), gone), gone, side);
  }

  /** So do they for a chunk of one event's rows, that event locked: refused exactly when
      the re-check finds it no longer due, and otherwise leaving the event. */
  lemma DeleteChunkIsSteps(w: World, now: Time, txn: string, event: int, q: Prune.Query, chunk: set<int>,
                           side: map<string, Time>)
    requires w.clock <= now && Locked(w, txn, [event]) && chunk <= RowsOfEvents(Live(w), {event})
    requires Folds(w.side, Only(Live(w), chunk), side)
    ensures var recheck := Recheck(txn, q.arm, q.moment, q.ordinary);
            && Possible(w, now, recheck)
            && var checked := Next(w, now, recheck);
               var delete := DeleteChunk(txn, event, chunk, side);
               && (Possible(checked, now, delete) <==> Prune.IsDue(w.events, Live(w), q, event))
               && (Possible(checked, now, delete) ==>
                     var after := Next(checked, now, delete);
                     && Live(after) == Without(Live(w), chunk)
                     && after.events == w.events && after.side == side)
  {
    RecheckFindsTheDue(w, now, txn, [event], q);
    var checked := Next(w, now, Recheck(txn, q.arm, q.moment, q.ordinary));
    RemovedLeaves(checked, now, txn, chunk, {}, side);
  }
}
