/** `cancel_deliveries` and `requeue_dead`: withdrawing owed rows and reopening dead ones,
    a chunk of ids at a time. */
module Operators {
  import opened Rows
  import opened Store

  predicate ForKey(row: Row, key: Option<string>) {
    key.Some? ==> row.key == key.value
  }

  function Part(ids: seq<int>, start: nat, chunk: nat): seq<int>
    requires start <= |ids|
  {
    ids[start..Min(start + chunk, |ids|)]
  }

  function Members(ids: seq<int>): set<int> {
    set x | x in ids
  }

  lemma PartAdds(ids: seq<int>, start: nat, chunk: nat)
    requires start <= |ids|
    ensures Members(ids[..Min(start + chunk, |ids|)]) == Members(ids[..start]) + Members(Part(ids, start, chunk))
  {
    assert ids[..Min(start + chunk, |ids|)] == ids[..start] + Part(ids, start, chunk);
  }

  lemma PartApart(ids: seq<int>, start: nat, chunk: nat)
    requires start <= |ids| && Distinct(ids)
    ensures Members(ids[..start]) !! Members(Part(ids, start, chunk))
    ensures Distinct(Part(ids, start, chunk)) && Distinct(ids[..start])
  {
  }

  // ---- Cancelling --------------------------------------------------------------------

  /** The rows a cancel is asked about: of these events, for this receiver, and among
      these rows, where it is narrowed to them. */
  predicate Asked(row: Row, id: int, events: set<int>, key: Option<string>, only: Option<set<int>>) {
    row.event in events && ForKey(row, key) && (only.Some? ==> id in only.value)
  }

  function Scope(rows: map<int, Row>, events: set<int>, key: Option<string>, only: Option<set<int>>): set<int> {
    set id | id in rows && Asked(rows[id], id, events, key, only)
  }

  function Withdrawable(rows: map<int, Row>, scope: set<int>): set<int> {
    set id | id in rows && id in scope && Retryable(rows[id].status)
  }

  function InFlight(rows: map<int, Row>, scope: set<int>): set<int> {
    set id | id in rows && id in scope && rows[id].status == Claimed
  }

  /** Withdrawn at one of the call's readings of the clock. */
  ghost predicate WithdrawnAt(before: Row, after: Row, clock: nat -> Time) {
    exists k: nat :: after == Withdrawn(before, clock(k))
  }

  /** The unclaimed owed rows in scope are withdrawn, and nothing else moved. */
  ghost predicate Cancels(before: map<int, Row>, after: map<int, Row>, scope: set<int>, clock: nat -> Time) {
    && after.Keys == before.Keys
    && (forall id <- before | id in Withdrawable(before, scope) :: WithdrawnAt(before[id], after[id], clock))
    && (forall id <- before | id !in Withdrawable(before, scope) :: after[id] == before[id])
  }

  /** One batch: its events locked, its rows withdrawn, its claimed rows counted. */
  method CancelBatch(db: Outbox, scope: set<int>, clock: nat -> Time, k: nat) returns (cancelled: nat, inFlight: nat)
    modifies db`rows
    ensures Cancels(old(db.rows), db.rows, scope, clock)
    ensures cancelled == |Withdrawable(old(db.rows), scope)| && inFlight == |InFlight(old(db.rows), scope)|
  {
    var now := clock(k);
    var ids := Withdrawable(db.rows, scope);
    cancelled := |ids|;
    ghost var before := db.rows;
    db.rows := Updated(db.rows, ids, (row: Row) => Withdrawn(row, now));
    forall id <- before | id in ids ensures WithdrawnAt(before[id], db.rows[id], clock) {
      assert db.rows[id] == Withdrawn(before[id], clock(k));
    }
    assert forall id <- before :: db.rows[id].status == Claimed <==> before[id].status == Claimed;
    assert InFlight(db.rows, scope) == InFlight(before, scope);
    inFlight := |InFlight(db.rows, scope)|;
  }

  lemma CancelsOn(a: map<int, Row>, b: map<int, Row>, c: map<int, Row>, first: set<int>, second: set<int>,
                  clock: nat -> Time)
    requires Cancels(a, b, first, clock) && Cancels(b, c, second, clock) && first !! second
    ensures Cancels(a, c, first + second, clock)
    ensures |Withdrawable(a, first + second)| == |Withdrawable(a, first)| + |Withdrawable(b, second)|
    ensures |InFlight(a, first + second)| == |InFlight(a, first)| + |InFlight(b, second)|
  {
    forall id <- a | id in second ensures b[id] == a[id] {
      assert id !in Withdrawable(a, first);
    }
    assert Withdrawable(b, second) == Withdrawable(a, second);
    assert Withdrawable(a, first + second) == Withdrawable(a, first) + Withdrawable(a, second);
    assert InFlight(b, second) == InFlight(a, second);
    assert InFlight(a, first + second) == InFlight(a, first) + InFlight(a, second);
  }

  /** What goes in chunks: the events, or, where rows are named, the named rows of them. */
  function Batched(rows: map<int, Row>, events: set<int>, only: Option<set<int>>): set<int> {
    if only.None? then events else set id | id in rows && id in only.value && rows[id].event in events
  }

  lemma WholeScope(rows: map<int, Row>, events: set<int>, key: Option<string>, only: Option<set<int>>)
    ensures ScopeOf(rows, Batched(rows, events, only), key, only) == Scope(rows, events, key, only)
    ensures ScopeOf(rows, {}, key, only) == {}
  {
  }

  /** The batches so far: apart, and together the scope of the first `n` ids. */
  predicate Covers(scopes: seq<set<int>>, rows: map<int, Row>, ids: seq<int>, n: nat, key: Option<string>,
                   only: Option<set<int>>) {
    n <= |ids| && Disjoint(scopes) && Union(scopes, |scopes|) == ScopeOf(rows, Members(ids[..n]), key, only)
  }

  /** Each batch's rows. */
  method Batches(rows: map<int, Row>, events: set<int>, key: Option<string>, only: Option<set<int>>, chunk: nat)
    returns (scopes: seq<set<int>>)
    requires chunk >= 1
    ensures Disjoint(scopes) && Union(scopes, |scopes|) == Scope(rows, events, key, only)
  {
    var ids := InOrder(Batched(rows, events, only));
    scopes := [];
    var start := 0;
    NoneCovered(rows, ids, key, only);
    while start < |ids|
      invariant Covers(scopes, rows, ids, start, key, only)
      decreases |ids| - start
    {
      scopes := NextBatch(rows, ids, key, only, chunk, start, scopes);
      start := Min(start + chunk, |ids|);
    }
    AllCovered(scopes, rows, ids, events, key, only);
  }

  lemma NoneCovered(rows: map<int, Row>, ids: seq<int>, key: Option<string>, only: Option<set<int>>)
    ensures Covers([], rows, ids, 0, key, only)
  {
    WholeScope(rows, {}, key, only);
    assert Members(ids[..0]) == {};
  }

  lemma AllCovered(scopes: seq<set<int>>, rows: map<int, Row>, ids: seq<int>, events: set<int>, key: Option<string>,
                   only: Option<set<int>>)
    requires Covers(scopes, rows, ids, |ids|, key, only) && ids == Ascending(Batched(rows, events, only))
    ensures Union(scopes, |scopes|) == Scope(rows, events, key, only)
  {
    WholeScope(rows, events, key, only);
    AscendingMembers(Batched(rows, events, only));
    assert ids[..|ids|] == ids;
  }

  method NextBatch(rows: map<int, Row>, ids: seq<int>, key: Option<string>, only: Option<set<int>>, chunk: nat,
                   start: nat, scopes0: seq<set<int>>)
    returns (scopes: seq<set<int>>)
    requires start < |ids| && Distinct(ids) && Covers(scopes0, rows, ids, start, key, only)
    ensures Covers(scopes, rows, ids, Min(start + chunk, |ids|), key, only)
  {
    var part := Part(ids, start, chunk);
    PartAdds(ids, start, chunk);
    PartApart(ids, start, chunk);
    ScopesAdd(rows, Members(ids[..start]), Members(part), key, only);
    AddScope(scopes0, ScopeOf(rows, Members(part), key, only));
    scopes := scopes0 + [ScopeOf(rows, Members(part), key, only)];
  }

  lemma ScopesAdd(rows: map<int, Row>, a: set<int>, b: set<int>, key: Option<string>, only: Option<set<int>>)
    ensures ScopeOf(rows, a + b, key, only) == ScopeOf(rows, a, key, only) + ScopeOf(rows, b, key, only)
    ensures a !! b ==> ScopeOf(rows, a, key, only) !! ScopeOf(rows, b, key, only)
  {
  }

  /** The rows a batch may write: of these events, or these rows. */
  function ScopeOf(rows: map<int, Row>, part: set<int>, key: Option<string>, only: Option<set<int>>): set<int> {
    set id | id in rows && ForKey(rows[id], key) && if only.None? then rows[id].event in part else id in part
  }

  function Union(scopes: seq<set<int>>, n: nat): set<int>
    requires n <= |scopes|
  {
    if n == 0 then {} else Union(scopes, n - 1) + scopes[n - 1]
  }

  /** Each scope is apart from all the ones before it. */
  predicate Disjoint(scopes: seq<set<int>>) {
    forall n | 0 <= n < |scopes| :: Union(scopes, n) !! scopes[n]
  }

  lemma {:induction false} UnionPrefix(scopes: seq<set<int>>, more: seq<set<int>>, n: nat)
    requires n <= |scopes|
    ensures Union(scopes + more, n) == Union(scopes, n)
  {
    if n > 0 {
      UnionPrefix(scopes, more, n - 1);
    }
  }

  lemma AddScope(scopes: seq<set<int>>, scope: set<int>)
    requires Disjoint(scopes) && Union(scopes, |scopes|) !! scope
    ensures Disjoint(scopes + [scope]) && Union(scopes + [scope], |scopes| + 1) == Union(scopes, |scopes|) + scope
  {
    forall n | 0 <= n < |scopes + [scope]| ensures Union(scopes + [scope], n) !! (scopes + [scope])[n] {
      UnionPrefix(scopes, [scope], n);
    }
    UnionPrefix(scopes, [scope], |scopes|);
  }

  /** What of a cancel is done so far, and its counts. */
  ghost predicate Cancelling(before: map<int, Row>, rows: map<int, Row>, scope: set<int>, clock: nat -> Time,
                             cancelled: nat, inFlight: nat) {
    && Cancels(before, rows, scope, clock)
    && cancelled == |Withdrawable(before, scope)| && inFlight == |InFlight(before, scope)|
  }

  lemma NothingCancelled(rows: map<int, Row>, clock: nat -> Time)
    ensures Cancelling(rows, rows, {}, clock, 0, 0)
  {
    assert Withdrawable(rows, {}) == {} && InFlight(rows, {}) == {};
  }

  /** The next batch of a cancel. */
  method CancelNext(db: Outbox, scopes: seq<set<int>>, n: nat, clock: nat -> Time, cancelled0: nat, inFlight0: nat,
                    ghost before: map<int, Row>)
    returns (cancelled: nat, inFlight: nat)
    requires n < |scopes| && Disjoint(scopes)
    requires Cancelling(before, db.rows, Union(scopes, n), clock, cancelled0, inFlight0)
    modifies db`rows
    ensures Cancelling(before, db.rows, Union(scopes, n + 1), clock, cancelled, inFlight)
  {
    ghost var mid := db.rows;
    cancelled, inFlight := CancelBatch(db, scopes[n], clock, n);
    CancelsOn(before, mid, db.rows, Union(scopes, n), scopes[n], clock);
    cancelled, inFlight := cancelled0 + cancelled, inFlight0 + inFlight;
  }

  /** A cancel, read off the columns: a pending or failed row it was asked about is
      cancelled, at one of its readings of the clock, and is otherwise what it was; and no
      other row moved. */
  ghost predicate CancelledOrKept(id: int, row: Row, after: Row, asked: bool, clock: nat -> Time) {
    if asked && (row.status == Pending || row.status == Failed) then
      exists k: nat :: after == row.(status := Cancelled, completedAt := Some(clock(k)))
    else
      after == row
  }

  function WithStatus(rows: map<int, Row>, scope: set<int>, statuses: set<Status>): set<int> {
    set id | id in rows && id in scope && rows[id].status in statuses
  }

  lemma CancelReadsOff(before: map<int, Row>, after: map<int, Row>, events: set<int>, key: Option<string>,
                       only: Option<set<int>>, clock: nat -> Time, cancelled: nat, inFlight: nat)
    requires var scope := Scope(before, events, key, only);
             Cancelling(before, after, scope, clock, cancelled, inFlight)
    ensures forall id <- before :: id in after && CancelledOrKept(id, before[id], after[id],
              before[id].event in events && (key.Some? ==> before[id].key == key.value)
              && (only.Some? ==> id in only.value), clock)
    ensures var scope := Scope(before, events, key, only);
            && cancelled == |WithStatus(before, scope, {Pending, Failed})|
            && inFlight == |WithStatus(before, scope, {Claimed})|
  {
    var scope := Scope(before, events, key, only);
    assert WithStatus(before, scope, {Pending, Failed}) == Withdrawable(before, scope);
    assert WithStatus(before, scope, {Claimed}) == InFlight(before, scope);
    forall id <- before ensures id in after && CancelledOrKept(id, before[id], after[id], id in scope, clock) {
      if id in Withdrawable(before, scope) {
        assert WithdrawnAt(before[id], after[id], clock);
        var k: nat :| after[id] == Withdrawn(before[id], clock(k));
      }
    }
  }

  /** Withdraw the unclaimed owed rows asked about, whatever the chunking, count them,
      and count the claimed ones left to run. */
  method CancelDeliveries(db: Outbox, events: set<int>, key: Option<string>, only: Option<set<int>>, chunk: nat,
                          clock: nat -> Time)
    returns (cancelled: nat, inFlight: nat)
    requires chunk >= 1
    modifies db`rows
    ensures Cancelling(old(db.rows), db.rows, Scope(old(db.rows), events, key, only), clock, cancelled, inFlight)
    ensures forall id <- old(db.rows) :: id in db.rows && CancelledOrKept(id, old(db.rows)[id], db.rows[id],
              old(db.rows)[id].event in events && (key.Some? ==> old(db.rows)[id].key == key.value)
              && (only.Some? ==> id in only.value), clock)
    ensures var scope := Scope(old(db.rows), events, key, only);
            && cancelled == |WithStatus(old(db.rows), scope, {Pending, Failed})|
            && inFlight == |WithStatus(old(db.rows), scope, {Claimed})|
  {
    ghost var before := db.rows;
    cancelled, inFlight := 0, 0;
    var scopes := Batches(db.rows, events, key, only, chunk);
    var n := 0;
    NothingCancelled(before, clock);
    while n < |scopes|
      invariant n <= |scopes| && Cancelling(before, db.rows, Union(scopes, n), clock, cancelled, inFlight)
    {
      cancelled, inFlight := CancelNext(db, scopes, n, clock, cancelled, inFlight, before);
      n := n + 1;
    }
    CancelReadsOff(before, db.rows, events, key, only, clock, cancelled, inFlight);
  }

  /** What a cancel is for: nothing in its scope is left that a claim could take but rows
      a worker already held; and a second one finds nothing to withdraw. */
  lemma CancelledRowsNeverRun(before: map<int, Row>, after: map<int, Row>, scope: set<int>, clock: nat -> Time)
    requires Cancels(before, after, scope, clock)
    ensures Withdrawable(after, scope) == {} && InFlight(after, scope) == InFlight(before, scope)
    ensures forall id <- after, now: Time, ignoreBackoff: bool |
              id in scope && Claimable(after[id], now, ignoreBackoff) ::
              before[id].status == Claimed && after[id] == before[id]
  {
    forall id <- after | id in scope
      ensures !Retryable(after[id].status)
      ensures after[id].status == Claimed <==> before[id].status == Claimed
      ensures after[id].status == Claimed ==> after[id] == before[id]
    {
      if id in Withdrawable(before, scope) {
        assert WithdrawnAt(before[id], after[id], clock);
      }
    }
  }

  // ---- Requeueing ---------------------------------------------------------------------

  predicate DeadFor(row: Row, key: Option<string>) {
    row.status == Dead && ForKey(row, key)
  }

  function Eligible(rows: map<int, Row>, key: Option<string>, ids: Option<seq<int>>): set<int> {
    set id | id in rows && DeadFor(rows[id], key) && (ids.Some? ==> id in ids.value)
  }

  /** As many as the limit allows. */
  function Kept(ids: seq<int>, limit: Option<nat>): seq<int> {
    if limit.None? then ids else ids[..Min(limit.value, |ids|)]
  }

  /** The dead rows among the first chunk named, by key, then among the next, and so on:
      a row named again in a later chunk is listed again. */
  ghost function Listed(rows: map<int, Row>, key: Option<string>, wanted: seq<int>, chunk: nat): seq<int>
    requires chunk >= 1
    decreases |wanted|
  {
    if wanted == [] then
      []
    else
      Ascending(Eligible(rows, key, Some(Part(wanted, 0, chunk)))) + Listed(rows, key, After(wanted, chunk), chunk)
  }

  /** What is named after the first chunk. */
  function After(wanted: seq<int>, chunk: nat): seq<int> {
    wanted[Min(chunk, |wanted|)..]
  }

  lemma ListedFrom(rows: map<int, Row>, key: Option<string>, wanted: seq<int>, start: nat, chunk: nat)
    requires chunk >= 1 && start < |wanted|
    ensures Listed(rows, key, wanted[start..], chunk)
         == Ascending(Eligible(rows, key, Some(Part(wanted, start, chunk))))
            + Listed(rows, key, wanted[Min(start + chunk, |wanted|)..], chunk)
  {
    assert Part(wanted[start..], 0, chunk) == Part(wanted, start, chunk);
    assert After(wanted[start..], chunk) == wanted[Min(start + chunk, |wanted|)..];
  }

  lemma KeptOn(found: seq<int>, all: seq<int>, rest: seq<int>, limit: Option<nat>)
    requires limit.Some? ==> |found| <= limit.value
    ensures var batch := Kept(all, if limit.None? then None else Some(limit.value - |found|));
            && Kept(found + batch + rest, limit) == Kept(found + (all + rest), limit)
            && (limit.Some? ==> |found + batch| <= limit.value)
  {
    assert found + all + rest == found + (all + rest);
  }

  /** What is found, and what the rest would list, make up what the whole does, as far as
      the limit goes. */
  ghost predicate Finding(rows: map<int, Row>, key: Option<string>, wanted: seq<int>, chunk: nat, start: nat,
                          found: seq<int>, limit: Option<nat>)
    requires chunk >= 1
  {
    && start <= |wanted| && (limit.Some? ==> |found| <= limit.value)
    && Kept(found + Listed(rows, key, wanted[start..], chunk), limit) == Kept(Listed(rows, key, wanted, chunk), limit)
  }

  lemma NothingFound(rows: map<int, Row>, key: Option<string>, wanted: seq<int>, chunk: nat, limit: Option<nat>)
    requires chunk >= 1
    ensures Finding(rows, key, wanted, chunk, 0, [], limit)
  {
    assert wanted[0..] == wanted;
    assert [] + Listed(rows, key, wanted, chunk) == Listed(rows, key, wanted, chunk);
  }

  lemma AllFound(rows: map<int, Row>, key: Option<string>, wanted: seq<int>, chunk: nat, start: nat, found: seq<int>,
                 limit: Option<nat>)
    requires chunk >= 1 && Finding(rows, key, wanted, chunk, start, found, limit)
    requires start == |wanted| || (limit.Some? && |found| == limit.value)
    ensures found == Kept(Listed(rows, key, wanted, chunk), limit)
  {
    var rest := Listed(rows, key, wanted[start..], chunk);
    assert Kept(found + rest, limit) == found;
  }

  /** The dead rows of one chunk more. */
  method NextFound(rows: map<int, Row>, key: Option<string>, wanted: seq<int>, chunk: nat, start: nat,
                   limit: Option<nat>, found0: seq<int>)
    returns (found: seq<int>)
    requires chunk >= 1 && start < |wanted| && Finding(rows, key, wanted, chunk, start, found0, limit)
    ensures Finding(rows, key, wanted, chunk, Min(start + chunk, |wanted|), found, limit)
  {
    var all := InOrder(Eligible(rows, key, Some(Part(wanted, start, chunk))));
    var batch := Kept(all, if limit.None? then None else Some(limit.value - |found0|));
    ListedFrom(rows, key, wanted, start, chunk);
    KeptOn(found0, all, Listed(rows, key, wanted[Min(start + chunk, |wanted|)..], chunk), limit);
    found := found0 + batch;
  }

  /** Which of the rows named are dead, read a chunk at a time until there are enough:
      the first of those listed, as many as the limit allows. */
  method NamedDead(rows: map<int, Row>, key: Option<string>, wanted: seq<int>, chunk: nat, limit: Option<nat>)
    returns (found: seq<int>)
    requires chunk >= 1
    ensures found == Kept(Listed(rows, key, wanted, chunk), limit)
  {
    found := [];
    var start := 0;
    NothingFound(rows, key, wanted, chunk, limit);
    while start < |wanted| && (limit.None? || |found| < limit.value)
      invariant Finding(rows, key, wanted, chunk, start, found, limit)
      decreases |wanted| - start
    {
      found := NextFound(rows, key, wanted, chunk, start, limit, found);
      start := Min(start + chunk, |wanted|);
    }
    AllFound(rows, key, wanted, chunk, start, found, limit);
  }

  /** The dead rows to reopen, in the order found: by key, or as listed where rows are named. */
  ghost function Found(rows: map<int, Row>, key: Option<string>, ids: Option<seq<int>>, chunk: nat): seq<int>
    requires chunk >= 1
  {
    if ids.None? then Ascending(Eligible(rows, key, None)) else Listed(rows, key, ids.value, chunk)
  }

  lemma {:induction false} ListedMembers(rows: map<int, Row>, key: Option<string>, wanted: seq<int>, chunk: nat)
    requires chunk >= 1
    ensures Members(Listed(rows, key, wanted, chunk)) == Eligible(rows, key, Some(wanted))
    decreases |wanted|
  {
    if wanted != [] {
      var first, rest := Part(wanted, 0, chunk), After(wanted, chunk);
      ListedMembers(rows, key, rest, chunk);
      assert wanted == first + rest;
      EligibleAdds(rows, key, first, rest);
      MembersAdd(Ascending(Eligible(rows, key, Some(first))), Listed(rows, key, rest, chunk));
      AscendingMembers(Eligible(rows, key, Some(first)));
    }
  }

  lemma EligibleAdds(rows: map<int, Row>, key: Option<string>, a: seq<int>, b: seq<int>)
    ensures Eligible(rows, key, Some(a + b)) == Eligible(rows, key, Some(a)) + Eligible(rows, key, Some(b))
  {
  }

  lemma AscendingMembers(s: set<int>)
    ensures Members(Ascending(s)) == s
  {
  }

  lemma MembersAdd(a: seq<int>, b: seq<int>)
    ensures Members(a + b) == Members(a) + Members(b)
  {
  }

  /** No dead row is named in two chunks. */
  predicate NamedOnce(rows: map<int, Row>, key: Option<string>, wanted: seq<int>, chunk: nat)
    requires chunk >= 1
    decreases |wanted|
  {
    wanted == [] || (
      && (forall id <- Eligible(rows, key, Some(Part(wanted, 0, chunk))) :: id !in After(wanted, chunk))
      && NamedOnce(rows, key, After(wanted, chunk), chunk))
  }

  lemma {:induction false} ListedOnce(rows: map<int, Row>, key: Option<string>, wanted: seq<int>, chunk: nat)
    requires chunk >= 1
    ensures NamedOnce(rows, key, wanted, chunk) <==> Distinct(Listed(rows, key, wanted, chunk))
    decreases |wanted|
  {
    if wanted != [] {
      var first, rest := Eligible(rows, key, Some(Part(wanted, 0, chunk))), After(wanted, chunk);
      ListedOnce(rows, key, rest, chunk);
      ListedMembers(rows, key, rest, chunk);
      DistinctApart(Ascending(first), Listed(rows, key, rest, chunk));
      AscendingMembers(first);
      ApartFrom(rows, key, first, rest);
    }
  }

  lemma ApartFrom(rows: map<int, Row>, key: Option<string>, first: set<int>, rest: seq<int>)
    requires first <= Eligible(rows, key, None)
    ensures first !! Eligible(rows, key, Some(rest)) <==> forall id <- first :: id !in rest
  {
    var again := Eligible(rows, key, Some(rest));
    forall id | id in first ensures id in again <==> id in rest {
      assert id in Eligible(rows, key, None);
    }
    if forall id <- first :: id !in rest {
      assert first * again == {};
    } else {
      var id :| id in first && id in rest;
      assert id in first * again;
    }
  }

  lemma DistinctApart(a: seq<int>, b: seq<int>)
    requires Distinct(a)
    ensures Distinct(a + b) <==> Distinct(b) && Members(a) !! Members(b)
  {
    if Distinct(a + b) {
      forall i, j | 0 <= i < j < |b| ensures b[i] != b[j] {
        assert (a + b)[|a| + i] != (a + b)[|a| + j];
      }
      forall x | x in Members(a) ensures x !in Members(b) {
        var i :| 0 <= i < |a| && a[i] == x;
        forall j | 0 <= j < |b| ensures b[j] != x {
          assert (a + b)[i] != (a + b)[|a| + j];
        }
      }
    }
    if Distinct(b) && Members(a) !! Members(b) {
      forall i | 0 <= i < |a| ensures a[i] in Members(a) {
      }
      forall j | 0 <= j < |b| ensures b[j] in Members(b) {
      }
    }
  }

  lemma {:induction false} DistinctNamesListOnce(rows: map<int, Row>, key: Option<string>, wanted: seq<int>, chunk: nat)
    requires chunk >= 1 && Distinct(wanted)
    ensures NamedOnce(rows, key, wanted, chunk)
    decreases |wanted|
  {
    if wanted != [] {
      DistinctNamesListOnce(rows, key, After(wanted, chunk), chunk);
      forall id | id in Part(wanted, 0, chunk) ensures id !in After(wanted, chunk) {
        var i :| 0 <= i < |Part(wanted, 0, chunk)| && Part(wanted, 0, chunk)[i] == id;
        assert wanted[i] == id;
      }
    }
  }

  lemma FoundMembers(rows: map<int, Row>, key: Option<string>, ids: Option<seq<int>>, chunk: nat)
    requires chunk >= 1
    ensures Members(Found(rows, key, ids, chunk)) == Eligible(rows, key, ids)
    ensures Distinct(Found(rows, key, ids, chunk)) <==> ids.None? || NamedOnce(rows, key, ids.value, chunk)
  {
    if ids.None? {
      assert Members(Ascending(Eligible(rows, key, None))) == Eligible(rows, key, None);
    } else {
      ListedMembers(rows, key, ids.value, chunk);
      ListedOnce(rows, key, ids.value, chunk);
    }
  }

  lemma KeptMembers(all: seq<int>, limit: Option<nat>)
    ensures Members(Kept(all, limit)) <= Members(all)
    ensures Distinct(all) ==> Distinct(Kept(all, limit))
  {
  }

  /** A limit is used up, as far as there are dead rows, exactly when what it keeps of the
      rows found repeats none, or is every one of them anyway. */
  lemma LimitIsUsedUp(rows: map<int, Row>, key: Option<string>, ids: Option<seq<int>>, chunk: nat, limit: nat)
    requires chunk >= 1
    ensures var kept := Kept(Found(rows, key, ids, chunk), Some(limit));
            var eligible := Eligible(rows, key, ids);
            && Members(kept) <= eligible && |Members(kept)| <= limit
            && (|Members(kept)| == Min(limit, |eligible|) <==> Distinct(kept) || Members(kept) == eligible)
  {
    var all, eligible := Found(rows, key, ids, chunk), Eligible(rows, key, ids);
    var kept := Kept(all, Some(limit));
    FoundMembers(rows, key, ids, chunk);
    KeptMembers(all, Some(limit));
    FoundSizes(all, eligible);
    FoundSizes(kept, eligible);
  }

  lemma UsesUp(all: seq<int>, n: nat, limit: nat)
    requires n <= |all| && Distinct(all[..n]) && |Members(all)| == n
    ensures |Members(Kept(all, Some(limit)))| == Min(limit, n)
  {
    var kept := Kept(all, Some(limit));
    KeptMembers(all, Some(limit));
    FoundSizes(kept, Members(all));
    FoundSizes(all[..n], Members(all[..n]));
    if limit <= n {
      assert kept == all[..n][..limit];
    } else {
      assert all[..n] == kept[..n];
      SubsetSize(Members(all[..n]), Members(kept));
    }
  }

  /** Every limit is, exactly when the first rows found, as many as are eligible, are
      distinct: before any is found again, all have been. */
  lemma EveryLimitIsUsedUp(rows: map<int, Row>, key: Option<string>, ids: Option<seq<int>>, chunk: nat)
    requires chunk >= 1
    ensures var all, n := Found(rows, key, ids, chunk), |Eligible(rows, key, ids)|;
            && n <= |all|
            && ((forall limit: nat :: |Members(Kept(all, Some(limit)))| == Min(limit, n)) <==> Distinct(all[..n]))
  {
    var all, n := Found(rows, key, ids, chunk), |Eligible(rows, key, ids)|;
    FoundMembers(rows, key, ids, chunk);
    FoundSizes(all, Members(all));
    if Distinct(all[..n]) {
      forall limit: nat ensures |Members(Kept(all, Some(limit)))| == Min(limit, n) {
        UsesUp(all, n, limit);
      }
    } else {
      FoundSizes(all[..n], Members(all[..n]));
      assert Kept(all, Some(n)) == all[..n];
    }
  }

  lemma RepeatsAreListedAgain(rows: map<int, Row>, a: int, b: int)
    requires a in rows && b in rows && rows[a].status == rows[b].status == Dead
    ensures Listed(rows, None, [a] + ([a] + [b]), 1) == [a] + ([a] + [b])
  {
    OneAtATime(rows, b, []);
    assert [b] + [] == [b];
    OneAtATime(rows, a, [b]);
    OneAtATime(rows, a, [a] + [b]);
  }

  /** The limit lost to a row named twice: named one at a time, `a`, `a` and `b`, with a
      limit of two, of two dead rows one is reopened. */
  lemma RepeatsUseUpTheLimit(rows: map<int, Row>, a: int, b: int)
    requires a in rows && b in rows && rows[a].status == rows[b].status == Dead && a != b
    ensures var ids := [a] + ([a] + [b]);
            && Kept(Found(rows, None, Some(ids), 1), Some(2)) == [a, a] && Members([a, a]) == {a}
            && Eligible(rows, None, Some(ids)) == {a, b}
  {
    RepeatsAreListedAgain(rows, a, b);
    assert ([a] + ([a] + [b]))[..2] == [a, a];
    assert forall x :: x in [a] + ([a] + [b]) <==> x == a || x == b;
  }

  lemma OneAtATime(rows: map<int, Row>, id: int, rest: seq<int>)
    requires id in rows && rows[id].status == Dead
    ensures Listed(rows, None, [id] + rest, 1) == [id] + Listed(rows, None, rest, 1)
  {
    OneDead(rows, id);
    var wanted := [id] + rest;
    assert Part(wanted, 0, 1) == [id] && After(wanted, 1) == rest;
  }

  lemma OneDead(rows: map<int, Row>, id: int)
    requires id in rows && rows[id].status == Dead
    ensures Ascending(Eligible(rows, None, Some([id]))) == [id]
  {
    assert Eligible(rows, None, Some([id])) == {id};
  }

  function Requeued(rows: map<int, Row>, ids: set<int>, now: Time): map<int, Row> {
    Updated(rows, ids, (row: Row) => Reopened(row, now))
  }

  predicate AllDead(rows: map<int, Row>, ids: set<int>) {
    forall id <- ids :: id in rows && rows[id].status == Dead
  }

  /** A chunk's rows, those not reopened already, after the chunks before. */
  lemma RequeuesOn(before: map<int, Row>, done: set<int>, part: set<int>, now: Time)
    requires AllDead(before, done) && AllDead(before, part)
    ensures var rows := Requeued(before, done, now);
            var dead := set id | id in rows && id in part && rows[id].status == Dead;
            && Requeued(rows, dead, now) == Requeued(before, done + part, now)
            && |done + part| == |done| + |dead|
  {
    var rows := Requeued(before, done, now);
    var dead := set id | id in rows && id in part && rows[id].status == Dead;
    assert forall id <- before :: id in dead <==> id in part && id !in done;
    assert forall id <- part :: id in before;
    assert dead == part - done;
    assert done + part == done + dead;
  }

  /** Reopen the rows found, a chunk at a time, those still dead. */
  method Reopen(db: Outbox, found: seq<int>, chunk: nat, now: Time) returns (requeued: nat)
    requires chunk >= 1 && AllDead(db.rows, Members(found))
    modifies db`rows
    ensures db.rows == Requeued(old(db.rows), Members(found), now)
    ensures requeued == |Members(found)|
  {
    requeued := 0;
    var start := 0;
    assert found[..0] == [];
    assert Requeued(db.rows, {}, now) == db.rows;
    while start < |found|
      invariant start <= |found|
      invariant db.rows == Requeued(old(db.rows), Members(found[..start]), now)
      invariant requeued == |Members(found[..start])|
      decreases |found| - start
    {
      var part := Part(found, start, chunk);
      PartAdds(found, start, chunk);
      assert forall x <- part :: x in found;
      assert forall x <- found[..start] :: x in found;
      RequeuesOn(old(db.rows), Members(found[..start]), Members(part), now);
      var dead := set id | id in db.rows && id in Members(part) && db.rows[id].status == Dead;
      requeued := requeued + |dead|;
      db.rows := Updated(db.rows, dead, (row: Row) => Reopened(row, now));
      start := Min(start + chunk, |found|);
    }
    assert found[..start] == found;
  }

  /** Give dead rows their attempts back, for one receiver or all, among the rows named
      or all, `limit` at most; a negative limit is refused. Without a limit every such
      row is reopened; with one, those found first. As many as there are up to the limit
      are, exactly when those found first are distinct or every such row; so always
      unless a dead row is named in two chunks. */
  method RequeueDead(db: Outbox, key: Option<string>, ids: Option<seq<int>>, limit: Option<int>, chunk: nat, now: Time)
    returns (requeued: Option<nat>, ghost chosen: set<int>)
    requires chunk >= 1
    modifies db`rows
    ensures requeued.None? <==> limit.Some? && limit.value < 0
    ensures requeued.None? ==> chosen == {}
    ensures requeued.Some? ==> requeued.value == |chosen|
    ensures db.rows == Requeued(old(db.rows), chosen, now)
    ensures requeued.Some? && limit.None? ==> chosen == Eligible(old(db.rows), key, ids)
    ensures requeued.Some? && limit.Some? ==>
              var kept := Kept(Found(old(db.rows), key, ids, chunk), Some(limit.value));
              var eligible := Eligible(old(db.rows), key, ids);
              && chosen == Members(kept) && chosen <= eligible && |chosen| <= limit.value
              && (|chosen| == Min(limit.value, |eligible|) <==> Distinct(kept) || chosen == eligible)
              && (ids.None? || NamedOnce(old(db.rows), key, ids.value, chunk) ==> Distinct(kept))
              && (ids.Some? && Distinct(ids.value) ==> NamedOnce(old(db.rows), key, ids.value, chunk))
    ensures forall id <- old(db.rows) ::
              id in db.rows && RevivedOrKept(id, old(db.rows)[id], db.rows[id], chosen, key, ids, limit, now)
  {
    ghost var before := db.rows;
    chosen := {};
    if limit.Some? && limit.value < 0 {
      requeued := None;
      assert Requeued(db.rows, {}, now) == db.rows;
      RequeueReadsOff(before, {}, key, ids, limit, now);
      return;
    }
    var most: Option<nat> := if limit.None? then None else Some(limit.value);
    var found;
    if ids.None? {
      found := InOrder(Eligible(db.rows, key, None));
      found := Kept(found, most);
    } else {
      found := NamedDead(db.rows, key, ids.value, chunk, most);
    }
    chosen := Members(found);
    Chooses(db.rows, key, ids, chunk, most);
    var n := Reopen(db, found, chunk, now);
    requeued := Some(n);
    RequeueReadsOff(before, chosen, key, ids, limit, now);
  }

  lemma RequeueReadsOff(before: map<int, Row>, chosen: set<int>, key: Option<string>, ids: Option<seq<int>>,
                        limit: Option<int>, now: Time)
    requires chosen <= Eligible(before, key, ids) && (limit.None? ==> chosen == Eligible(before, key, ids))
    ensures forall id <- before ::
              RevivedOrKept(id, before[id], Requeued(before, chosen, now)[id], chosen, key, ids, limit, now)
  {
  }

  /** A requeue, read off the columns: a chosen row was dead, of the receiver and among the
      rows asked about, and is owed from now with its whole budget, as a row nobody has
      claimed; any other is what it was, and is no such row if there was no limit. */
  predicate RevivedOrKept(id: int, row: Row, after: Row, chosen: set<int>, key: Option<string>, ids: Option<seq<int>>,
                          limit: Option<int>, now: Time) {
    var asked := row.status == Dead && (key.Some? ==> row.key == key.value) && (ids.Some? ==> id in ids.value);
    if id in chosen then
      asked && after == row.(status := Pending, attempts := 0, availableAt := now, dueAt := Some(now), claim := NOBODY,
                             leaseEnd := None, completedAt := None)
    else
      after == row && (limit.None? ==> !asked)
  }

  lemma Chooses(rows: map<int, Row>, key: Option<string>, ids: Option<seq<int>>, chunk: nat, most: Option<nat>)
    requires chunk >= 1
    ensures var kept := Kept(Found(rows, key, ids, chunk), most);
            var eligible := Eligible(rows, key, ids);
            && Members(kept) <= eligible && (most.None? ==> Members(kept) == eligible)
            && (most.Some? ==> |Members(kept)| <= most.value)
            && (most.Some? ==> (|Members(kept)| == Min(most.value, |eligible|)
                                <==> Distinct(kept) || Members(kept) == eligible))
            && (ids.None? || NamedOnce(rows, key, ids.value, chunk) ==> Distinct(kept))
            && (ids.Some? && Distinct(ids.value) ==> NamedOnce(rows, key, ids.value, chunk))
  {
    FoundMembers(rows, key, ids, chunk);
    KeptMembers(Found(rows, key, ids, chunk), most);
    if most.Some? {
      LimitIsUsedUp(rows, key, ids, chunk, most.value);
    }
    if ids.Some? && Distinct(ids.value) {
      DistinctNamesListOnce(rows, key, ids.value, chunk);
    }
  }

  lemma FoundSizes(found: seq<int>, eligible: set<int>)
    requires Members(found) <= eligible
    ensures |Members(found)| <= |found| && |Members(found)| <= |eligible|
    ensures Distinct(found) <==> |Members(found)| == |found|
    ensures |Members(found)| == |eligible| ==> Members(found) == eligible
  {
    SubsetSize(Members(found), eligible);
    MembersSize(found);
    if Distinct(found) {
      DistinctSize(found);
    }
    assert eligible == Members(found) + (eligible - Members(found));
  }

  lemma {:induction false} MembersSize(ids: seq<int>)
    ensures |Members(ids)| <= |ids| && (|Members(ids)| == |ids| ==> Distinct(ids))
  {
    if ids != [] {
      var init, last := ids[..|ids| - 1], ids[|ids| - 1];
      MembersSize(init);
      assert ids == init + [last];
      assert Members(ids) == Members(init) + {last};
      assert last in init ==> Members(ids) == Members(init);
    }
  }
}
