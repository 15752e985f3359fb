/** What `fire` writes, and the attempt it makes at once for eager receivers. */
module Fire {
  import opened Rows
  import opened Retention
  import opened Registry
  import opened Store
  import opened Claims
  import opened Replay
  import opened World

  /** One delivery to write: a durable receiver, one of its targets, and its due time if
      it is scheduled. */
  datatype Delivery = Delivery(key: string, target: string, maxAttempts: nat, due: Option<Time>)

  function FiredRow(event: int, recordedAt: Time, d: Delivery): Row {
    Row(event, d.key, d.target, recordedAt, Pending, 0, d.maxAttempts,
        if d.due.Some? then d.due.value else recordedAt, d.due, NOBODY, None, None, None)
  }

  /** A durable receiver's deliveries of an event: one for each target it names. */
  function DeliveriesOf(r: Receiver, targets: seq<string>, due: Option<Time>): (ds: seq<Delivery>)
    ensures |ds| == |targets|
    ensures forall i | 0 <= i < |targets| :: ds[i] == Delivery(r.key, targets[i], r.maxAttempts, due)
  {
    if targets == [] then []
    else DeliveriesOf(r, targets[..|targets| - 1], due)
         + [Delivery(r.key, targets[|targets| - 1], r.maxAttempts, due)]
  }

  /** No receiver twice for one target, a budget, and no due time before the event. */
  predicate Owable(ds: seq<Delivery>, recordedAt: Time) {
    && (forall i | 0 <= i < |ds| :: ds[i].maxAttempts >= 1 && (ds[i].due.Some? ==> ds[i].due.value >= recordedAt))
    && (forall i, j | 0 <= i < j < |ds| :: ds[i].key != ds[j].key || ds[i].target != ds[j].target)
  }

  /** One durable receiver of the event, the targets it names, and its due time. */
  datatype Part = Part(receiver: Receiver, targets: seq<string>, due: Option<Time>)

  /** Every receiver's deliveries, in turn. */
  function Planned(parts: seq<Part>): seq<Delivery> {
    if parts == [] then []
    else
      var last := parts[|parts| - 1];
      Planned(parts[..|parts| - 1]) + DeliveriesOf(last.receiver, last.targets, last.due)
  }

  predicate PartOk(p: Part, recordedAt: Time) {
    Distinct(p.targets) && p.receiver.maxAttempts >= 1 && (p.due.Some? ==> p.due.value >= recordedAt)
  }

  /** Receivers have their own keys, `ResolveTargets` drops duplicates and `ResolveDue`
      answers no time before the event: so what a fire plans may be written. */
  lemma {:induction false} PlansAreOwable(parts: seq<Part>, recordedAt: Time)
    requires forall i | 0 <= i < |parts| :: PartOk(parts[i], recordedAt)
    requires forall i, j | 0 <= i < j < |parts| :: parts[i].receiver.key != parts[j].receiver.key
    ensures Owable(Planned(parts), recordedAt)
    ensures forall d <- Planned(parts) :: exists i :: 0 <= i < |parts| && d.key == parts[i].receiver.key
  {
    if parts != [] {
      var init, last := parts[..|parts| - 1], parts[|parts| - 1];
      PlansAreOwable(init, recordedAt);
      assert PartOk(last, recordedAt);
      var before, more := Planned(init), DeliveriesOf(last.receiver, last.targets, last.due);
      forall i | 0 <= i < |before| ensures before[i].key != last.receiver.key {
        assert before[i] in before;
      }
      forall d <- before + more ensures exists i :: 0 <= i < |parts| && d.key == parts[i].receiver.key {
        if d in before {
          var i :| 0 <= i < |init| && d.key == init[i].receiver.key;
          assert parts[i] == init[i];
        }
      }
    }
  }

  /** And what it plans is one delivery for each target of each receiver, with that
      receiver's budget and due time, and no other. */
  lemma {:induction false} PlansCoverTheParts(parts: seq<Part>, d: Delivery)
    ensures d in Planned(parts) <==>
            exists i, j :: 0 <= i < |parts| && 0 <= j < |parts[i].targets| && Plans(parts[i], j, d)
  {
    if parts != [] {
      var init, last := parts[..|parts| - 1], parts[|parts| - 1];
      PlansCoverTheParts(init, d);
      var more := DeliveriesOf(last.receiver, last.targets, last.due);
      if d in more {
        var j :| 0 <= j < |more| && more[j] == d;
        assert Plans(parts[|parts| - 1], j, d);
      } else if d in Planned(init) {
        var i, j :| 0 <= i < |init| && 0 <= j < |init[i].targets| && Plans(init[i], j, d);
        assert Plans(parts[i], j, d);
      }
      forall i, j | 0 <= i < |parts| && 0 <= j < |parts[i].targets| && Plans(parts[i], j, d)
        ensures d in Planned(init) || d in more
      {
        if i < |init| {
          assert Plans(init[i], j, d);
        } else {
          assert more[j] == d;
        }
      }
    }
  }

  predicate Plans(p: Part, j: nat, d: Delivery)
    requires j < |p.targets|
  {
    d.key == p.receiver.key && d.target == p.targets[j] && d.maxAttempts == p.receiver.maxAttempts && d.due == p.due
  }

  /** The rows written, under primary keys from `first` on. */
  function FiredRows(event: int, recordedAt: Time, ds: seq<Delivery>, first: int): map<int, Row> {
    if ds == [] then map[]
    else
      FiredRows(event, recordedAt, ds[..|ds| - 1], first)[first + |ds| - 1 := FiredRow(event, recordedAt, ds[|ds| - 1])]
  }

  predicate RowAt(rows: map<int, Row>, event: int, recordedAt: Time, ds: seq<Delivery>, first: int, id: int) {
    first <= id < first + |ds| && id in rows && rows[id] == FiredRow(event, recordedAt, ds[id - first])
  }

  lemma RowStaysAt(before: map<int, Row>, rows: map<int, Row>, event: int, recordedAt: Time, ds: seq<Delivery>,
                   first: int, id: int)
    requires ds != [] && RowAt(before, event, recordedAt, ds[..|ds| - 1], first, id)
    requires id in rows && rows[id] == before[id]
    ensures RowAt(rows, event, recordedAt, ds, first, id)
  {
    assert ds[..|ds| - 1][id - first] == ds[id - first];
  }

  lemma OneMoreFired(event: int, recordedAt: Time, ds: seq<Delivery>, first: int)
    requires ds != []
    requires var init := ds[..|ds| - 1];
             var before := FiredRows(event, recordedAt, init, first);
             |before.Keys| == |init| && forall id <- before :: RowAt(before, event, recordedAt, init, first, id)
    ensures var rows := FiredRows(event, recordedAt, ds, first);
            && |rows.Keys| == |ds| && (forall id <- rows :: RowAt(rows, event, recordedAt, ds, first, id))
            && rows.Keys == FiredRows(event, recordedAt, ds[..|ds| - 1], first).Keys + {first + |ds| - 1}
  {
    var before, rows := FiredRows(event, recordedAt, ds[..|ds| - 1], first), FiredRows(event, recordedAt, ds, first);
    var last := first + |ds| - 1;
    assert forall id <- before :: RowAt(before, event, recordedAt, ds[..|ds| - 1], first, id);
    assert last !in before;
    OneKeyMore(before, rows, last);
    forall id <- rows ensures RowAt(rows, event, recordedAt, ds, first, id) {
      if id != last {
        RowStaysAt(before, rows, event, recordedAt, ds, first, id);
      }
    }
  }

  lemma OneKeyMore(before: map<int, Row>, rows: map<int, Row>, last: int)
    requires last !in before && last in rows && rows == before[last := rows[last]]
    ensures rows.Keys == before.Keys + {last} && |rows.Keys| == |before.Keys| + 1
  {
  }

  lemma {:induction false} FiredRowsAre(event: int, recordedAt: Time, ds: seq<Delivery>, first: int)
    ensures var rows := FiredRows(event, recordedAt, ds, first);
            && |rows.Keys| == |ds|
            && (forall id <- rows :: RowAt(rows, event, recordedAt, ds, first, id))
            && (forall id | first <= id < first + |ds| :: id in rows)
  {
    if ds != [] {
      FiredRowsAre(event, recordedAt, ds[..|ds| - 1], first);
      OneMoreFired(event, recordedAt, ds, first);
    }
  }

  lemma OneDelivery(ds: seq<Delivery>, recordedAt: Time, i: nat, j: nat)
    requires Owable(ds, recordedAt) && i < |ds| && j < |ds|
    requires ds[i].key == ds[j].key && ds[i].target == ds[j].target
    ensures i == j
  {
  }

  /** Every row fired is owed from its due time, or at once, whole budget and nobody's
      claim; and no two are for one receiver and target. */
  lemma FiredRowsAreFresh(event: int, recordedAt: Time, ds: seq<Delivery>, first: int)
    requires Owable(ds, recordedAt)
    ensures var rows := FiredRows(event, recordedAt, ds, first);
            && |rows.Keys| == |ds| && OneEach(rows) && (forall id <- rows :: id >= first)
            && forall id <- rows ::
                 Rows.Fresh(rows[id]) && rows[id].event == event && rows[id].recordedAt == recordedAt
                 && (forall now :: Claimable(rows[id], now, false) <==> OwedSince(rows[id]) <= now)
  {
    var rows := FiredRows(event, recordedAt, ds, first);
    FiredRowsAre(event, recordedAt, ds, first);
    forall a <- rows, b <- rows | SameSlot(rows[a], rows[b]) ensures a == b {
      assert RowAt(rows, event, recordedAt, ds, first, a) && RowAt(rows, event, recordedAt, ds, first, b);
      OneDelivery(ds, recordedAt, a - first, b - first);
    }
    forall id <- rows ensures Rows.Fresh(rows[id]) && rows[id].event == event && rows[id].recordedAt == recordedAt {
      assert RowAt(rows, event, recordedAt, ds, first, id);
      assert ds[id - first].maxAttempts >= 1;
    }
  }

  /** The row is this delivery's: its receiver, target, budget and due time, of this event,
      pending and nobody's. */
  predicate Writes(row: Row, event: int, recordedAt: Time, d: Delivery) {
    && row.event == event && row.recordedAt == recordedAt
    && row.key == d.key && row.target == d.target && row.maxAttempts == d.maxAttempts && row.dueAt == d.due
    && row.availableAt == (if d.due.Some? then d.due.value else recordedAt)
    && row.status == Pending && row.attempts == 0 && row.claim == NOBODY && row.leaseEnd.None?
    && row.completedAt.None? && row.succeededAt.None?
  }

  /** It waits for its due time, whether or not a claim honours the backoff, and no
      longer; without one, for its event's recording. */
  ghost predicate WaitsForItsTime(row: Row, recordedAt: Time, d: Delivery) {
    forall now: Time, ignoreBackoff: bool ::
      Claimable(row, now, ignoreBackoff) <==>
        if d.due.Some? then d.due.value <= now else ignoreBackoff || recordedAt <= now
  }

  /** Exactly one new row is this delivery's, and it waits for its time. */
  ghost predicate WrittenOnce(before: map<int, Row>, after: map<int, Row>, event: int, recordedAt: Time, d: Delivery) {
    exists id <- after ::
      && id !in before && Writes(after[id], event, recordedAt, d) && WaitsForItsTime(after[id], recordedAt, d)
      && forall other <- after | InSlot(after[other], (event, d.key), d.target) :: other == id
  }

  lemma FiredRowWaits(event: int, recordedAt: Time, d: Delivery)
    ensures Writes(FiredRow(event, recordedAt, d), event, recordedAt, d)
    ensures WaitsForItsTime(FiredRow(event, recordedAt, d), recordedAt, d)
  {
  }

  lemma OneWritten(before: map<int, Row>, after: map<int, Row>, event: int, recordedAt: Time, d: Delivery, id: int)
    requires OneEach(after) && id in after && id !in before
    requires Writes(after[id], event, recordedAt, d) && WaitsForItsTime(after[id], recordedAt, d)
    ensures WrittenOnce(before, after, event, recordedAt, d)
  {
    forall other <- after | InSlot(after[other], (event, d.key), d.target) ensures other == id {
      assert SameSlot(after[other], after[id]);
    }
  }

  lemma RowsAreWritten(before: map<int, Row>, event: int, recordedAt: Time, ds: seq<Delivery>, first: int, i: nat)
    requires i < |ds| && OneEach(before + FiredRows(event, recordedAt, ds, first))
    requires before.Keys !! FiredRows(event, recordedAt, ds, first).Keys
    ensures WrittenOnce(before, before + FiredRows(event, recordedAt, ds, first), event, recordedAt, ds[i])
  {
    var rows, id := FiredRows(event, recordedAt, ds, first), first + i;
    FiredRowsAre(event, recordedAt, ds, first);
    assert RowAt(rows, event, recordedAt, ds, first, id);
    FiredRowWaits(event, recordedAt, ds[i]);
    assert id !in before by {
      assert id in rows.Keys;
    }
    OneWritten(before, before + rows, event, recordedAt, ds[i], id);
  }

  lemma SizesAdd(before: map<int, Row>, more: map<int, Row>)
    requires before.Keys !! more.Keys
    ensures |(before + more).Keys| == |before.Keys| + |more.Keys|
  {
    DisjointSizes(before.Keys, more.Keys, (before + more).Keys);
  }

  /** Record an event and write its deliveries: for each of them one row, and no other. */
  method WriteEvent(db: Outbox, event: int, record: Event, ds: seq<Delivery>) returns (first: int)
    requires event !in db.events && forall id <- db.rows :: db.rows[id].event in db.events
    requires Owable(ds, record.recordedAt) && OneEach(db.rows)
    modifies db`rows, db`events
    ensures db.events == old(db.events)[event := record]
    ensures db.rows == old(db.rows) + FiredRows(event, record.recordedAt, ds, first)
    ensures OneEach(db.rows) && old(db.rows).Keys !! FiredRows(event, record.recordedAt, ds, first).Keys
    ensures forall i | 0 <= i < |ds| :: WrittenOnce(old(db.rows), db.rows, event, record.recordedAt, ds[i])
    ensures |db.rows.Keys| == |old(db.rows).Keys| + |ds| && forall id <- old(db.rows) ::
              id in db.rows && db.rows[id] == old(db.rows)[id]
  {
    ghost var before := db.rows;
    first := FirstFree(db.rows);
    FiredRowsAreFresh(event, record.recordedAt, ds, first);
    Apart(db.rows, FiredRows(event, record.recordedAt, ds, first), first);
    UnionIsOneEach(db.rows, FiredRows(event, record.recordedAt, ds, first), event);
    db.events := db.events[event := record];
    InsertRows(db, event, record.recordedAt, ds, first);
    SizesAdd(before, FiredRows(event, record.recordedAt, ds, first));
    forall i | 0 <= i < |ds| ensures WrittenOnce(before, db.rows, event, record.recordedAt, ds[i]) {
      RowsAreWritten(before, event, record.recordedAt, ds, first, i);
    }
  }

  method InsertRows(db: Outbox, event: int, recordedAt: Time, ds: seq<Delivery>, first: int)
    modifies db`rows
    ensures db.rows == old(db.rows) + FiredRows(event, recordedAt, ds, first)
  {
    var n := 0;
    while n < |ds|
      invariant n <= |ds| && db.rows == old(db.rows) + FiredRows(event, recordedAt, ds[..n], first)
    {
      assert ds[..n + 1][..n] == ds[..n];
      db.rows := db.rows[first + n := FiredRow(event, recordedAt, ds[n])];
      n := n + 1;
    }
    assert ds[..n] == ds;
  }

  lemma Apart(rows: map<int, Row>, more: map<int, Row>, first: int)
    requires forall id <- rows :: id < first
    requires forall id <- more :: id >= first
    ensures rows.Keys !! more.Keys
  {
    assert forall id <- rows.Keys :: id in rows && id < first;
    assert forall id <- more.Keys :: id in more && id >= first;
  }

  lemma UnionIsOneEach(rows: map<int, Row>, more: map<int, Row>, event: int)
    requires OneEach(rows) && OneEach(more) && rows.Keys !! more.Keys
    requires forall id <- rows :: rows[id].event != event
    requires forall id <- more :: more[id].event == event
    ensures OneEach(rows + more)
  {
    var all := rows + more;
    forall a <- all, b <- all | SameSlot(all[a], all[b]) ensures a == b {
      if a in more && b in more {
        assert SameSlot(more[a], more[b]);
      } else if a !in more && b !in more {
        assert SameSlot(rows[a], rows[b]);
      }
    }
  }

  /** So a fire is a step the protocol allows, whatever else is going on and however long
      after its event's moment it commits. */
  lemma FiringIsPossible(w: World, now: Time, event: int, record: Event, ds: seq<Delivery>, first: int)
    requires w.clock <= now && event !in w.events && record.recordedAt <= now && Owable(ds, record.recordedAt)
    requires (forall id <- w.cells :: id < first) && (forall id <- w.pruned :: id < first)
    ensures Possible(w, now, Step.Fire(event, record, FiredRows(event, record.recordedAt, ds, first)))
  {
    FiredRowsAreFresh(event, record.recordedAt, ds, first);
  }

  // ---- The eager attempt ---------------------------------------------------------------

  function EagerIds(rows: map<int, Row>, event: int, keys: set<string>): set<int> {
    set id | id in rows && rows[id].event == event && rows[id].key in keys
  }

  /** The firing process claims this event's eager rows at once, whatever their lanes:
      exactly those whose time has come and whom no relay has claimed meanwhile. */
  method ClaimEagerly(db: Outbox, rs: Receivers, s: Settings, event: int, keys: set<string>, now: Time)
    returns (ids: seq<int>)
    modifies db`rows
    ensures Distinct(ids)
    ensures forall id :: id in ids <==>
                           id in EagerIds(old(db.rows), event, keys) && Claimable(old(db.rows)[id], now, false)
    ensures forall id <- old(db.rows) :: var row := old(db.rows)[id];
              id in ids <==> row.event == event && row.key in keys && Waits(row, now, false)
    ensures db.rows == ClaimedRows(old(db.rows), ids, "eager", now, ClaimLease(rs, None, s.lease, true))
  {
    var mine := EagerIds(db.rows, event, keys);
    var scope := Scope(None, Some(mine), {}, false);
    ghost var candidates := Candidates(db.rows, rs, now, scope);
    ghost var before := db.rows;
    ids := ClaimBatch(db, rs, "eager", now, ClaimLease(rs, None, s.lease, true), |mine|, scope);
    SubsetSize(candidates, mine);
    AllForemost(before, candidates, |mine|, ids);
    assert forall id :: id in candidates <==> id in mine && Claimable(before[id], now, false);
  }

  /** A limit that covers every candidate leaves none out. */
  lemma AllForemost(rows: map<int, Row>, candidates: set<int>, limit: nat, ids: seq<int>)
    requires Foremost(rows, candidates, limit, ids) && limit >= |candidates|
    ensures forall id :: id in ids <==> id in candidates
  {
    var taken := set id | id in ids;
    assert taken <= candidates;
    DistinctSize(ids);
    assert candidates == taken + (candidates - taken);
    assert |candidates - taken| == 0;
  }
}
