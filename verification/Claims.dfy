/** Claiming a batch under a lease, and handing back what was not started. */
module Claims {
  import opened Rows
  import opened Registry
  import opened Store

  /** The claim's order: by `available_at`, then by primary key. */
  predicate Earlier(rows: map<int, Row>, a: int, b: int) {
    && a in rows && b in rows
    && (rows[a].availableAt < rows[b].availableAt || (rows[a].availableAt == rows[b].availableAt && a <= b))
  }

  lemma {:induction false} FirstExists(rows: map<int, Row>, s: set<int>)
    requires s != {} && s <= rows.Keys
    ensures exists a <- s :: forall b <- s :: Earlier(rows, a, b)
  {
    EmptyOrNot(s);
    var a :| a in s;
    var rest := s - {a};
    if rest == {} {
      assert s == {a};
    } else {
      FirstExists(rows, rest);
      var first :| first in rest && forall b <- rest :: Earlier(rows, first, b);
      var least := if Earlier(rows, a, first) then a else first;
      assert forall b <- s :: b == a || b in rest;
      assert forall b <- s :: Earlier(rows, least, b);
    }
  }

  datatype Scope = Scope(lane: Option<string>, onlyIds: Option<set<int>>, excluded: set<int>, ignoreBackoff: bool)

  /** The rows a claim may take. */
  function Candidates(rows: map<int, Row>, rs: Receivers, now: Time, scope: Scope): set<int> {
    set id | id in rows
             && Claimable(rows[id], now, scope.ignoreBackoff)
             && InLane(rs, scope.lane, rows[id].key)
             && id !in scope.excluded
             && (scope.onlyIds.Some? ==> id in scope.onlyIds.value)
  }

  /** `ids` are the first `limit` of `candidates`, in claim order. */
  predicate Foremost(rows: map<int, Row>, candidates: set<int>, limit: nat, ids: seq<int>)
  {
    && Distinct(ids)
    && (forall i | 0 <= i < |ids| :: ids[i] in candidates)
    && |ids| == Min(limit, |candidates|)
    && (forall i, j | 0 <= i < j < |ids| :: Earlier(rows, ids[i], ids[j]))
    && (forall id <- candidates, i | id !in ids && 0 <= i < |ids| :: Earlier(rows, ids[i], id))
  }

  predicate AllIn(ids: seq<int>, rows: map<int, Row>) {
    forall i | 0 <= i < |ids| :: ids[i] in rows
  }

  function ClaimedRows(rows: map<int, Row>, ids: seq<int>, worker: string, now: Time, lease: nat): map<int, Row> {
    Updated(rows, set id | id in ids, (row: Row) => ClaimedBy(row, worker, now, lease))
  }

  lemma ClaimableIsOwed(row: Row, now: Time, ignoreBackoff: bool)
    requires Claimable(row, now, ignoreBackoff)
    ensures !Terminal(row.status)
  {
  }

  lemma ClaimedRowAt(rows: map<int, Row>, ids: seq<int>, i: nat, worker: string, now: Time, lease: nat)
    requires i < |ids| && ids[i] in rows
    ensures ClaimedRows(rows, ids, worker, now, lease)[ids[i]] == ClaimedBy(rows[ids[i]], worker, now, lease)
  {
    assert ids[i] in ids;
  }

  /** The claim's ordered, limited read. */
  method Select(rows: map<int, Row>, candidates: set<int>, limit: nat) returns (ids: seq<int>)
    requires candidates <= rows.Keys
    ensures Foremost(rows, candidates, limit, ids)
  {
    var left := candidates;
    ids := [];
    while |ids| < limit && left != {}
      invariant left <= candidates && |left| + |ids| == |candidates| && |ids| <= limit
      invariant forall id <- candidates :: id in left || id in ids
      invariant forall i | 0 <= i < |ids| :: ids[i] in candidates && ids[i] !in left
      invariant Distinct(ids)
      invariant forall i, j | 0 <= i < j < |ids| :: Earlier(rows, ids[i], ids[j])
      invariant forall id <- left, i | 0 <= i < |ids| :: Earlier(rows, ids[i], id)
      decreases left
    {
      FirstExists(rows, left);
      var first :| first in left && forall b <- left :: Earlier(rows, first, b);
      ids, left := ids + [first], left - {first};
    }
  }

  /** Read off its columns, whether a row is in scope: in the lane its receiver is
      declared in, or the default lane for want of one, named where rows are, and not
      left out. */
  predicate Within(id: int, row: Row, rs: Receivers, scope: Scope) {
    && (scope.lane.Some? ==> scope.lane.value == if row.key in rs then rs[row.key].lane else DEFAULT_LANE)
    && (scope.onlyIds.Some? ==> id in scope.onlyIds.value)
    && id !in scope.excluded
  }

  /** And whether it waits for a claim: pending or failed, and available, or due where the
      backoff is ignored; or claimed under a lease that is over. */
  predicate Waits(row: Row, now: Time, ignoreBackoff: bool) {
    if row.status == Pending || row.status == Failed then
      if ignoreBackoff then row.dueAt.None? || row.dueAt.value <= now else row.availableAt <= now
    else
      row.status == Claimed && row.leaseEnd.Some? && row.leaseEnd.value < now
  }

  /** Of two rows, the one a claim takes first: the sooner available, then the lower key. */
  predicate Sooner(a: int, before: Row, b: int, after: Row) {
    before.availableAt < after.availableAt || (before.availableAt == after.availableAt && a < b)
  }

  /** What a claim did to one row: it took it, or left it as it was, and left no row
      waiting in its scope but for ones that are sooner, as many as its limit. */
  ghost predicate Taken(id: int, row: Row, after: Row, ids: seq<int>, rows: map<int, Row>, rs: Receivers,
                        worker: string, now: Time, lease: nat, limit: nat, scope: Scope) {
    if id in ids then
      && Within(id, row, rs, scope) && Waits(row, now, scope.ignoreBackoff)
      && after == row.(status := Claimed, claim := Token(worker, Some(now)), leaseEnd := Some(now + lease))
    else
      && after == row
      && (Within(id, row, rs, scope) && Waits(row, now, scope.ignoreBackoff) ==>
            |ids| == limit && forall i | 0 <= i < |ids| :: ids[i] in rows && Sooner(ids[i], rows[ids[i]], id, row))
  }

  lemma CandidatesWait(rows: map<int, Row>, rs: Receivers, now: Time, scope: Scope, id: int)
    requires Keyed(rs) && id in rows
    ensures id in Candidates(rows, rs, now, scope) <==>
            Within(id, rows[id], rs, scope) && Waits(rows[id], now, scope.ignoreBackoff)
  {
    var key := rows[id].key;
    if key in rs {
      assert rs[key].key == key;
      assert key in KeysInLane(rs, rs[key].lane);
      assert rs[key].lane != DEFAULT_LANE ==> key in KeysInNamedLanes(rs);
    }
  }

  lemma TakenAsOwed(rows: map<int, Row>, ids: seq<int>, rs: Receivers, worker: string, now: Time, lease: nat,
                    limit: nat, scope: Scope, id: int)
    requires Foremost(rows, Candidates(rows, rs, now, scope), limit, ids) && Keyed(rs) && id in rows
    ensures Taken(id, rows[id], ClaimedRows(rows, ids, worker, now, lease)[id], ids, rows, rs, worker, now, lease,
                  limit, scope)
  {
    var candidates := Candidates(rows, rs, now, scope);
    CandidatesWait(rows, rs, now, scope, id);
    if id in ids {
      var i :| 0 <= i < |ids| && ids[i] == id;
      ClaimedRowAt(rows, ids, i, worker, now, lease);
    } else if id in candidates {
      MoreThanTaken(candidates, ids, id);
      forall i | 0 <= i < |ids| ensures ids[i] in rows && Sooner(ids[i], rows[ids[i]], id, rows[id]) {
        assert Earlier(rows, ids[i], id);
      }
    }
  }

  lemma MoreThanTaken(candidates: set<int>, ids: seq<int>, id: int)
    requires Distinct(ids) && (forall i | 0 <= i < |ids| :: ids[i] in candidates) && id in candidates && id !in ids
    ensures |ids| < |candidates|
  {
    var taken := set x | x in ids;
    DistinctSize(ids);
    SubsetSize(taken, candidates - {id});
  }

  /** Take ownership of the first `limit` rows this claim may take. */
  method ClaimBatch(db: Outbox, rs: Receivers, worker: string, now: Time, lease: nat, limit: nat, scope: Scope)
    returns (ids: seq<int>)
    modifies db`rows
    ensures Foremost(old(db.rows), Candidates(old(db.rows), rs, now, scope), limit, ids)
    ensures db.rows == ClaimedRows(old(db.rows), ids, worker, now, lease)
    ensures Keyed(rs) ==> forall id <- old(db.rows) ::
              Taken(id, old(db.rows)[id], db.rows[id], ids, old(db.rows), rs, worker, now, lease, limit, scope)
  {
    ghost var before := db.rows;
    ids := Select(db.rows, Candidates(db.rows, rs, now, scope), limit);
    db.rows := ClaimedRows(db.rows, ids, worker, now, lease);
    forall id <- before | Keyed(rs)
      ensures Taken(id, before[id], db.rows[id], ids, before, rs, worker, now, lease, limit, scope)
    {
      TakenAsOwed(before, ids, rs, worker, now, lease, limit, scope, id);
    }
  }

  /** No owed row is stranded: a claim whose limit was not reached left none waiting in
      its scope, whatever its attempts and its due time. */
  lemma NoneIsLeftWaiting(rows: map<int, Row>, after: map<int, Row>, ids: seq<int>, rs: Receivers, worker: string,
                          now: Time, lease: nat, limit: nat, scope: Scope, id: int)
    requires id in rows && id in after && (|ids| < limit || limit >= |rows|)
    requires forall i | 0 <= i < |ids| :: ids[i] in rows
    requires Distinct(ids)
    requires Taken(id, rows[id], after[id], ids, rows, rs, worker, now, lease, limit, scope)
    requires Within(id, rows[id], rs, scope)
    requires || ((rows[id].status == Pending || rows[id].status == Failed) && rows[id].availableAt <= now
                 && !scope.ignoreBackoff)
             || (rows[id].status == Claimed && rows[id].leaseEnd.Some? && rows[id].leaseEnd.value < now)
    ensures after[id].status == Claimed && after[id].claim == Token(worker, Some(now))
    ensures after[id].leaseEnd == Some(now + lease)
  {
    if id !in ids {
      MoreThanTaken(rows.Keys, ids, id);
    }
  }

  /** A hand-back, read off the columns: a named row still claimed by this worker since then
      has a lease that ended before any moment, and is otherwise what it was, as any other
      row is. */
  predicate Returned(id: int, row: Row, after: Row, ids: seq<int>, worker: string, claimedAt: Time) {
    if id in ids && row.status == Claimed && row.claim.who == worker && row.claim.at == Some(claimedAt) then
      after == row.(leaseEnd := Some(0))
    else
      after == row
  }

  /** Expire the lease of the named rows still held under this claim, and no other. */
  method HandBack(db: Outbox, ids: seq<int>, worker: string, claimedAt: Time) returns (given: nat)
    modifies db`rows
    ensures db.rows == HandedBackRows(old(db.rows), ids, Token(worker, Some(claimedAt)))
    ensures given == |HandBackIds(old(db.rows), ids, Token(worker, Some(claimedAt)))|
    ensures forall id <- old(db.rows) ::
              id in db.rows && Returned(id, old(db.rows)[id], db.rows[id], ids, worker, claimedAt)
  {
    var mine := HandBackIds(db.rows, ids, Token(worker, Some(claimedAt)));
    given := |mine|;
    db.rows := Updated(db.rows, mine, HandedBack);
  }

  function HandBackIds(rows: map<int, Row>, ids: seq<int>, claim: Token): set<int> {
    set id | id in rows && id in ids && HandBackable(rows[id], claim)
  }

  function HandedBackRows(rows: map<int, Row>, ids: seq<int>, claim: Token): map<int, Row> {
    Updated(rows, HandBackIds(rows, ids, claim), HandedBack)
  }

  /** What a hand-back is for: any worker's next claim of the lane may take each row
      back at once, whatever its lease was, and in its old place in the order. */
  lemma HandedBackIsClaimable(rows: map<int, Row>, ids: seq<int>, claim: Token, id: int, now: Time, ignoreBackoff: bool)
    requires id in rows && id in ids && HandBackable(rows[id], claim) && now > GIVEN_BACK
    ensures var after := HandedBackRows(rows, ids, claim);
            Claimable(after[id], now, ignoreBackoff) && after[id].availableAt == rows[id].availableAt
  {
  }
}
