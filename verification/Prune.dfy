/** The prune: what it selects, in which batches, and what is left. No other writer is
    at work here; `World` interleaves its lock, re-check and delete with the others. */
module Prune {
  import opened Rows
  import opened Retention
  import opened Store
  import opened Budget

  const EVENTS_PER_BATCH: nat := 500

  /** One arm, at the call's moment and ordinary window. */
  datatype Query = Query(arm: Arm, moment: Time, ordinary: int)

  predicate IsDue(events: map<int, Event>, rows: map<int, Row>, q: Query, event: int) {
    event in events && Due(q.arm, events[event], rows, event, q.moment, q.ordinary)
  }

  function DueEvents(events: map<int, Event>, rows: map<int, Row>, q: Query): set<int> {
    set e | e in events && IsDue(events, rows, q, e)
  }

  // ---- The newest successes -----------------------------------------------------

  /** Each receiver's newest success among the rows. */
  predicate NewestAmong(newest: map<string, Time>, rows: map<int, Row>) {
    && (forall key <- newest :: SucceededIn(rows, key, newest[key]))
    && (forall id <- rows | rows[id].succeededAt.Some? ::
          rows[id].key in newest && rows[id].succeededAt.value <= newest[rows[id].key])
  }

  method GroupNewest(rows: map<int, Row>) returns (newest: map<string, Time>)
    ensures NewestAmong(newest, rows)
  {
    newest := map[];
    var todo := rows.Keys;
    while todo != {}
      invariant todo <= rows.Keys
      invariant forall key <- newest :: SucceededIn(rows, key, newest[key])
      invariant forall id <- rows | id !in todo && rows[id].succeededAt.Some? ::
                  rows[id].key in newest && rows[id].succeededAt.value <= newest[rows[id].key]
    {
      EmptyOrNot(todo);
      var id :| id in todo;
      var row := rows[id];
      if row.succeededAt.Some? && (row.key in newest ==> newest[row.key] < row.succeededAt.value) {
        newest := newest[row.key := row.succeededAt.value];
      }
      todo := todo - {id};
    }
  }

  /** An insert that ignores an entry already there. */
  method InsertMissing(db: Outbox, newest: map<string, Time>)
    modifies db`side
    ensures forall key <- old(db.side) :: key in db.side && db.side[key] == old(db.side)[key]
    ensures forall key <- newest :: key in db.side
    ensures forall key <- db.side | key !in old(db.side) :: key in newest && db.side[key] == newest[key]
  {
    var keys := newest.Keys;
    while keys != {}
      invariant keys <= newest.Keys
      invariant forall key <- old(db.side) :: key in db.side && db.side[key] == old(db.side)[key]
      invariant forall key <- newest | key !in keys :: key in db.side
      invariant forall key <- db.side | key !in old(db.side) :: key in newest && db.side[key] == newest[key]
    {
      SomeKey(keys);
      var key :| key in keys;
      if key !in db.side {
        db.side := db.side[key := newest[key]];
      }
      keys := keys - {key};
    }
  }

  /** An update that applies only where it is later. */
  method AdvanceOlder(db: Outbox, newest: map<string, Time>)
    requires newest.Keys <= db.side.Keys
    modifies db`side
    ensures db.side.Keys == old(db.side).Keys
    ensures forall key <- db.side ::
              db.side[key] == if key in newest && old(db.side)[key] < newest[key] then newest[key]
                              else old(db.side)[key]
  {
    var keys := newest.Keys;
    while keys != {}
      invariant keys <= newest.Keys && db.side.Keys == old(db.side).Keys
      invariant forall key <- db.side ::
                  db.side[key] == if key in newest && key !in keys && old(db.side)[key] < newest[key]
                                  then newest[key] else old(db.side)[key]
    {
      SomeKey(keys);
      var key :| key in keys;
      if db.side[key] < newest[key] {
        db.side := db.side[key := newest[key]];
      }
      keys := keys - {key};
    }
  }

  /** Keep each receiver's newest success among rows about to go. */
  method RecordLastSuccesses(db: Outbox, doomed: map<int, Row>)
    modifies db`side
    ensures Folds(old(db.side), doomed, db.side)
  {
    var newest := GroupNewest(doomed);
    InsertMissing(db, newest);
    AdvanceOlder(db, newest);
  }

  // ---- Selecting ------------------------------------------------------------------

  predicate Older(events: map<int, Event>, a: int, b: int) {
    a in events && b in events && events[a].recordedAt <= events[b].recordedAt
  }

  lemma {:induction false} OldestExists(events: map<int, Event>, s: set<int>)
    requires s != {} && s <= events.Keys
    ensures exists a <- s :: forall b <- s :: Older(events, a, b)
  {
    EmptyOrNot(s);
    var a :| a in s;
    if s == {a} {
    } else {
      OldestExists(events, s - {a});
      var b :| b in s - {a} && forall c <- s - {a} :: Older(events, b, c);
      var oldest := if Older(events, a, b) then a else b;
      assert forall c <- s :: c == a || c in s - {a};
      assert forall c <- s :: Older(events, oldest, c);
    }
  }

  /** The oldest so many of some events. */
  method Oldest(events: map<int, Event>, due: set<int>, take: nat) returns (chosen: set<int>)
    requires due <= events.Keys
    ensures chosen <= due && |chosen| == Min(take, |due|)
    ensures forall x <- chosen, e <- due | e !in chosen :: Older(events, x, e)
  {
    var left := due;
    chosen := {};
    while left != {} && |chosen| < take
      invariant left <= due && chosen <= due && left !! chosen && left + chosen == due
      invariant |left| + |chosen| == |due| && |chosen| <= take
      invariant forall x <- chosen, e <- left :: Older(events, x, e)
      decreases left
    {
      OldestExists(events, left);
      var x :| x in left && forall b <- left :: Older(events, x, b);
      left, chosen := left - {x}, chosen + {x};
    }
  }

  /** Up to `take` due events, the oldest, in id order. */
  method Candidates(db: Outbox, q: Query, take: nat) returns (ids: seq<int>)
    ensures var due := DueEvents(db.events, db.rows, q);
            && Increasing(ids) && |ids| == Min(take, |due|)
            && (forall x <- ids :: x in due)
            && (forall x <- ids, e <- due | e !in ids ::
                  x in db.events && e in db.events && db.events[x].recordedAt <= db.events[e].recordedAt)
  {
    var due := DueEvents(db.events, db.rows, q);
    var chosen := Oldest(db.events, due, take);
    ids := InOrder(chosen);
    forall x <- ids, e <- due | e !in ids
      ensures x in db.events && e in db.events && db.events[x].recordedAt <= db.events[e].recordedAt
    {
      assert x in chosen && e !in chosen;
      assert Older(db.events, x, e);
    }
  }

  // ---- Counting rows -----------------------------------------------------------------

  function Repeat(x: int, n: nat): (r: seq<int>)
    ensures |r| == n && forall i | 0 <= i < n :: r[i] == x
  {
    if n == 0 then [] else Repeat(x, n - 1) + [x]
  }

  /** The event of every delivery row of these events, in event order. */
  function OwnersOf(rows: map<int, Row>, ids: seq<int>): seq<int> {
    if ids == [] then []
    else OwnersOf(rows, ids[..|ids| - 1]) + Repeat(ids[|ids| - 1], |RowsOfEvents(rows, {ids[|ids| - 1]})|)
  }

  lemma {:induction false} OwnersInOrder(rows: map<int, Row>, ids: seq<int>)
    requires Increasing(ids)
    ensures Sorted(OwnersOf(rows, ids))
    ensures forall i | 0 <= i < |OwnersOf(rows, ids)| :: OwnersOf(rows, ids)[i] in ids
  {
    if ids != [] {
      var rest, last := ids[..|ids| - 1], ids[|ids| - 1];
      OwnersInOrder(rows, rest);
      assert forall x <- rest :: x < last;
      assert forall i | 0 <= i < |OwnersOf(rows, rest)| :: OwnersOf(rows, rest)[i] < last;
    }
  }

  function Events(ids: seq<int>): set<int> {
    set x | x in ids
  }

  /** An event's place in the list is its number of rows. */
  lemma {:induction false} OwnersCount(rows: map<int, Row>, ids: seq<int>, x: int)
    requires Increasing(ids)
    ensures Count(OwnersOf(rows, ids), x) == if x in ids then |RowsOfEvents(rows, {x})| else 0
  {
    if ids != [] {
      var rest, last := ids[..|ids| - 1], ids[|ids| - 1];
      OwnersCount(rows, rest, x);
      var tail := Repeat(last, |RowsOfEvents(rows, {last})|);
      CountSplits(OwnersOf(rows, rest), tail, x);
      assert ids == rest + [last];
      assert last !in rest;
      if x == last {
        CountAll(tail, x);
      } else {
        CountNone(tail, x);
      }
    }
  }

  lemma RowsAdd(rows: map<int, Row>, events: set<int>, x: int)
    requires x !in events
    ensures |RowsOfEvents(rows, events + {x})| == |RowsOfEvents(rows, events)| + |RowsOfEvents(rows, {x})|
  {
    var before, its := RowsOfEvents(rows, events), RowsOfEvents(rows, {x});
    assert RowsOfEvents(rows, events + {x}) == before + its;
    assert before !! its;
  }

  lemma PrefixAdds(ids: seq<int>, n: nat)
    requires Increasing(ids) && n < |ids|
    ensures Events(ids[..n + 1]) == Events(ids[..n]) + {ids[n]} && ids[n] !in Events(ids[..n])
  {
    assert ids[..n + 1] == ids[..n] + [ids[n]];
    assert forall x :: x in ids[..n + 1] <==> x in ids[..n] || x == ids[n];
  }

  lemma PrefixSize(ids: seq<int>, n: nat)
    requires Increasing(ids) && n <= |ids|
    ensures |Events(ids[..n])| == n
  {
    DistinctSize(ids[..n]);
  }

  /** What the walk weighs is what the delete removes: events and deliveries. */
  lemma {:induction false} WeightIsRows(rows: map<int, Row>, ids: seq<int>, n: nat)
    requires Increasing(ids) && n <= |ids|
    ensures Weight(ids, OwnersOf(rows, ids), n) == n + |RowsOfEvents(rows, Events(ids[..n]))|
  {
    if n == 0 {
      assert RowsOfEvents(rows, Events(ids[..0])) == {};
    } else {
      WeightIsRows(rows, ids, n - 1);
      OwnersCount(rows, ids, ids[n - 1]);
      PrefixAdds(ids, n - 1);
      RowsAdd(rows, Events(ids[..n - 1]), ids[n - 1]);
    }
  }

  // ---- What a prune leaves ---------------------------------------------------------------

  /** The tables as a prune finds and leaves them. */
  datatype Tables = Tables(events: map<int, Event>, rows: map<int, Row>, side: map<string, Time>)

  /** Every delivery row has its event. */
  predicate Linked(t: Tables) {
    forall id <- t.rows :: t.rows[id].event in t.events
  }

  /** Some rows of doomed events are gone, and some doomed events with all of theirs;
      nothing else moved. */
  predicate Shrinks(t: Tables, u: Tables, doomed: set<int>) {
    && u.events.Keys <= t.events.Keys && (forall e <- u.events :: u.events[e] == t.events[e])
    && (forall e <- t.events | e !in u.events :: e in doomed)
    && u.rows.Keys <= t.rows.Keys && (forall id <- u.rows :: u.rows[id] == t.rows[id])
    && (forall id <- t.rows | id !in u.rows :: t.rows[id].event in doomed)
  }

  /** No receiver's newest success looks any different. */
  ghost predicate Invisible(t: Tables, u: Tables) {
    forall key, last :: Newest(t.rows, t.side, key, last) ==> Newest(u.rows, u.side, key, last)
  }

  function TablesOf(db: Outbox): Tables
    reads db
  {
    Tables(db.events, db.rows, db.side)
  }

  /** Deleting deliveries of a due event leaves it due, under every arm. */
  lemma DueSurvives(t: Tables, u: Tables, doomed: set<int>, q: Query, event: int)
    requires Shrinks(t, u, doomed) && IsDue(t.events, t.rows, q, event)
    ensures event in u.events ==> event in DueEvents(u.events, u.rows, q)
  {
    assert event in u.events ==> IsDue(u.events, u.rows, q, event);
  }

  /** An event that lost no row is due if it was. */
  lemma DueBefore(t: Tables, u: Tables, doomed: set<int>, q: Query, event: int)
    requires Shrinks(t, u, doomed) && IsDue(u.events, u.rows, q, event)
    ensures event !in doomed ==> event in DueEvents(t.events, t.rows, q)
  {
    if event !in doomed {
      assert forall id <- t.rows | t.rows[id].event == event :: id in u.rows;
      assert IsDue(t.events, t.rows, q, event);
    }
  }

  lemma ShrinksOn(t: Tables, u: Tables, v: Tables, first: set<int>, then_: set<int>)
    requires Shrinks(t, u, first) && Shrinks(u, v, then_) && then_ <= first
    ensures Shrinks(t, v, first)
  {
  }

  lemma WithoutCounts(rows: map<int, Row>, gone: set<int>)
    requires gone <= rows.Keys
    ensures |Without(rows, gone)| == |rows| - |gone|
  {
    assert Without(rows, gone).Keys == rows.Keys - gone;
  }

  // ---- Deleting ----------------------------------------------------------------------------

  /** Delete these events, those still due, with their deliveries. */
  method DeleteBatch(db: Outbox, q: Query, batch: seq<int>) returns (deleted: nat)
    requires Increasing(batch) && forall x <- batch :: x in db.events
    modifies db
    ensures var gone := set e | e in batch && IsDue(old(db.events), old(db.rows), q, e);
            && db.events == old(db.events) - gone
            && db.rows == Without(old(db.rows), RowsOfEvents(old(db.rows), gone))
            && Folds(old(db.side), Only(old(db.rows), RowsOfEvents(old(db.rows), gone)), db.side)
            && deleted == |gone|
  {
    var stillDue := set e | e in batch && IsDue(db.events, db.rows, q, e);
    var doomed := RowsOfEvents(db.rows, stillDue);
    RecordLastSuccesses(db, Only(db.rows, doomed));
    db.rows := Without(db.rows, doomed);
    db.events := db.events - stillDue;
    deleted := |stillDue|;
  }

  predicate Below(low: set<int>, high: set<int>) {
    forall a <- low, b <- high :: a < b
  }

  /** Delete delivery rows, recording their successes first. */
  method DeleteRows(db: Outbox, gone: set<int>)
    modifies db`rows, db`side
    ensures db.rows == Without(old(db.rows), gone)
    ensures Folds(old(db.side), Only(old(db.rows), gone), db.side)
  {
    RecordLastSuccesses(db, Only(db.rows, gone));
    db.rows := Without(db.rows, gone);
  }

  /** Delete the first `size` of one due event's deliveries, by primary key, leaving it.
      Primary keys are positive, so an event with fewer loses none. */
  method DeleteChunk(db: Outbox, q: Query, event: int, size: nat) returns (deleted: nat, ghost gone: set<int>)
    requires size >= 1 && forall id <- db.rows :: id > 0
    modifies db`rows, db`side
    ensures db.rows == Without(old(db.rows), gone) && Folds(old(db.side), Only(old(db.rows), gone), db.side)
    ensures var its := RowsOfEvents(old(db.rows), {event});
            && gone <= its && Below(gone, its - gone)
            && |gone| == deleted == (if IsDue(db.events, old(db.rows), q, event) && |its| >= size then size else 0)
  {
    deleted, gone := 0, {};
    if !IsDue(db.events, db.rows, q, event) {
      return;
    }
    var its := RowsOfEvents(db.rows, {event});
    var ordered := InOrder(its);
    var boundary := if |ordered| >= size then ordered[size - 1] else 0;
    var chunk := set id | id in its && id <= boundary;
    ChunkSize(its, ordered, size, boundary);
    gone := chunk;
    deleted := |chunk|;
    DeleteRows(db, chunk);
  }

  /** The rows up to the `size`-th are that many. */
  lemma ChunkSize(its: set<int>, ordered: seq<int>, size: nat, boundary: int)
    requires Increasing(ordered) && (forall x :: x in ordered <==> x in its) && |ordered| == |its| && size >= 1
    requires forall x <- its :: x > 0
    requires boundary == if |ordered| >= size then ordered[size - 1] else 0
    ensures var chunk := set id | id in its && id <= boundary;
            |chunk| == (if |its| >= size then size else 0) && Below(chunk, its - chunk)
  {
    var chunk := set id | id in its && id <= boundary;
    if |its| >= size {
      assert chunk == Events(ordered[..size]) by {
        forall id <- chunk ensures id in ordered[..size] {
          assert id in ordered;
          var k :| 0 <= k < |ordered| && ordered[k] == id;
          assert ordered[..size][k] == id;
        }
      }
      PrefixSize(ordered, size);
    } else {
      assert chunk == {};
    }
  }

  // ---- One arm ---------------------------------------------------------------------------

  predicate Sane(t: Tables) {
    Linked(t) && forall id <- t.rows :: id > 0
  }

  function Size(t: Tables): nat {
    |t.rows| + |t.events|
  }

  /** What one batch or chunk does. */
  ghost predicate Pruned(t: Tables, u: Tables, q: Query, size: nat, deleted: nat) {
    && Sane(u) && Shrinks(t, u, DueEvents(t.events, t.rows, q)) && Invisible(t, u)
    && |t.events| == |u.events| + deleted
    && Size(t) - size <= Size(u) < Size(t)
  }

  lemma FoldedIsInvisible(t: Tables, u: Tables, gone: set<int>)
    requires u.rows == Without(t.rows, gone) && Folds(t.side, Only(t.rows, gone), u.side)
    ensures Invisible(t, u)
  {
    forall key, last | Newest(t.rows, t.side, key, last) ensures Newest(u.rows, u.side, key, last) {
      DeletingIsInvisible(t.rows, gone, t.side, u.side, key, last);
    }
  }

  /** Deleting whole due events, and all their rows, shrinks the tables. */
  lemma EventsShrink(t: Tables, u: Tables, gone: set<int>, doomed: set<int>)
    requires Sane(t) && gone <= doomed && gone <= t.events.Keys
    requires u.events == t.events - gone && u.rows == Without(t.rows, RowsOfEvents(t.rows, gone))
    ensures Sane(u) && Shrinks(t, u, doomed)
    ensures |t.events| == |u.events| + |gone| && |t.rows| == |u.rows| + |RowsOfEvents(t.rows, gone)|
  {
    WithoutCounts(t.rows, RowsOfEvents(t.rows, gone));
    assert u.events.Keys == t.events.Keys - gone;
  }

  lemma BatchPrunes(t: Tables, u: Tables, q: Query, size: nat, batch: seq<int>)
    requires Sane(t) && Increasing(batch) && batch != [] && Events(batch) <= DueEvents(t.events, t.rows, q)
    requires Weight(batch, OwnersOf(t.rows, batch), |batch|) <= size
    requires u.events == t.events - Events(batch) && u.rows == Without(t.rows, RowsOfEvents(t.rows, Events(batch)))
    requires Folds(t.side, Only(t.rows, RowsOfEvents(t.rows, Events(batch))), u.side)
    ensures Pruned(t, u, q, size, |batch|)
  {
    FoldedIsInvisible(t, u, RowsOfEvents(t.rows, Events(batch)));
    WeightIsRows(t.rows, batch, |batch|);
    PrefixSize(batch, |batch|);
    assert batch[..|batch|] == batch;
    EventsShrink(t, u, Events(batch), DueEvents(t.events, t.rows, q));
  }

  lemma ChunkPrunes(t: Tables, u: Tables, q: Query, size: nat, event: int, gone: set<int>)
    requires Sane(t) && IsDue(t.events, t.rows, q, event) && size >= 1
    requires gone <= RowsOfEvents(t.rows, {event}) && |gone| == size
    requires u.events == t.events && u.rows == Without(t.rows, gone) && Folds(t.side, Only(t.rows, gone), u.side)
    ensures Pruned(t, u, q, size, 0)
  {
    FoldedIsInvisible(t, u, gone);
    WithoutCounts(t.rows, gone);
  }

  /** The rest of the list only adds rows of later events. */
  lemma {:induction false} PrefixWeight(rows: map<int, Row>, ids: seq<int>, n: nat, m: nat)
    requires Increasing(ids) && m <= n <= |ids|
    ensures Weight(ids[..n], OwnersOf(rows, ids[..n]), m) == Weight(ids, OwnersOf(rows, ids), m)
  {
    if m > 0 {
      PrefixWeight(rows, ids, n, m - 1);
      OwnersCount(rows, ids, ids[m - 1]);
      OwnersCount(rows, ids[..n], ids[m - 1]);
      assert ids[..n][m - 1] == ids[m - 1];
    }
  }

  /** The delivery counts of the candidates, from a read cut off at the budget. */
  method ReadOwners(db: Outbox, ids: seq<int>, size: nat) returns (read: seq<int>)
    ensures read == CutOff(OwnersOf(db.rows, ids), size)
  {
    read := CutOff(OwnersOf(db.rows, ids), size);
  }

  /** Candidates read with their delivery counts, as one turn of the loop has them. */
  ghost predicate Selected(t: Tables, q: Query, ids: seq<int>, owners: seq<int>) {
    && Increasing(ids) && ids != [] && Events(ids) <= DueEvents(t.events, t.rows, q)
    && owners == OwnersOf(t.rows, ids) && Sorted(owners) && OwnersIn(owners, ids)
  }

  method PruneChunk(db: Outbox, q: Query, size: nat, ids: seq<int>, read: seq<int>, ghost owners: seq<int>)
    returns (rows: nat)
    requires size >= 1 && Sane(TablesOf(db)) && Selected(TablesOf(db), q, ids, owners)
    requires read == CutOff(owners, size) && NeedsChunk(ids, read, size)
    modifies db
    ensures rows == size && Pruned(old(TablesOf(db)), TablesOf(db), q, size, 0)
  {
    ghost var before := TablesOf(db);
    assert ids[0] in Events(ids);
    FilledByOne(ids, owners, size);
    OwnersCount(db.rows, ids, ids[0]);
    ghost var gone;
    rows, gone := DeleteChunk(db, q, ids[0], size);
    ChunkPrunes(before, TablesOf(db), q, size, ids[0], gone);
  }

  method PruneBatch(db: Outbox, q: Query, size: nat, ids: seq<int>, read: seq<int>, ghost owners: seq<int>)
    returns (deleted: nat)
    requires size >= 1 && Sane(TablesOf(db)) && Selected(TablesOf(db), q, ids, owners)
    requires read == CutOff(owners, size) && !NeedsChunk(ids, read, size)
    modifies db
    ensures Pruned(old(TablesOf(db)), TablesOf(db), q, size, deleted) && deleted <= |ids|
  {
    ghost var before := TablesOf(db);
    var batch := Fitting(ids, read, size, owners);
    PrefixWeight(before.rows, ids, |batch|, |batch|);
    assert batch == ids[..|batch|];
    PrefixOfDue(before, q, ids, batch);
    deleted := DeleteDue(db, q, batch);
    BatchPrunes(before, TablesOf(db), q, size, batch);
  }

  /** With nobody else at work the re-check finds the whole batch still due. */
  method DeleteDue(db: Outbox, q: Query, batch: seq<int>) returns (deleted: nat)
    requires Increasing(batch) && Events(batch) <= DueEvents(db.events, db.rows, q)
    modifies db
    ensures deleted == |batch| && db.events == old(db.events) - Events(batch)
    ensures db.rows == Without(old(db.rows), RowsOfEvents(old(db.rows), Events(batch)))
    ensures Folds(old(db.side), Only(old(db.rows), RowsOfEvents(old(db.rows), Events(batch))), db.side)
  {
    PrefixOfDue(TablesOf(db), q, batch, batch);
    PrefixSize(batch, |batch|);
    assert batch[..|batch|] == batch;
    deleted := DeleteBatch(db, q, batch);
  }

  lemma PrefixOfDue(t: Tables, q: Query, ids: seq<int>, batch: seq<int>)
    requires Increasing(ids) && batch <= ids && Events(ids) <= DueEvents(t.events, t.rows, q)
    ensures Increasing(batch) && Events(batch) <= DueEvents(t.events, t.rows, q)
    ensures forall x <- batch :: x in t.events
    ensures (set e | e in batch && IsDue(t.events, t.rows, q, e)) == Events(batch)
  {
    assert forall x <- batch :: x in ids;
    assert forall x <- batch :: x in Events(ids);
  }

  /** One turn of the loop: select, then delete a chunk of the first event or a batch.
      At most `size` rows go, of due events, and at least one; or nothing is due. */
  method PruneOnce(db: Outbox, q: Query, size: nat, take: nat) returns (deleted: nat, any: bool)
    requires size >= 1 && take >= 1 && Sane(TablesOf(db))
    modifies db
    ensures any ==> Pruned(old(TablesOf(db)), TablesOf(db), q, size, deleted) && deleted <= take
    ensures !any ==> deleted == 0 && TablesOf(db) == old(TablesOf(db)) && DueEvents(db.events, db.rows, q) == {}
  {
    var ids := Candidates(db, q, take);
    deleted, any := 0, ids != [];
    if !any {
      return;
    }
    var read := ReadOwners(db, ids, size);
    ghost var owners := OwnersOf(db.rows, ids);
    OwnersInOrder(db.rows, ids);
    OwnersAre(owners, ids);
    if NeedsChunk(ids, read, size) {
      var rows := PruneChunk(db, q, size, ids, read, owners);
      any := rows > 0;
    } else {
      deleted := PruneBatch(db, q, size, ids, read, owners);
    }
  }

  /** An arm so far: it has only deleted, of what it found due and in batches of at most
      `size` rows, the events it counts, and no receiver looks any quieter. */
  ghost predicate Pruning(t: Tables, u: Tables, doomed: set<int>, deleted: nat) {
    Sane(u) && Shrinks(t, u, doomed) && Invisible(t, u) && |t.events| == |u.events| + deleted
  }

  lemma StillDoomed(t: Tables, u: Tables, q: Query, doomed: set<int>)
    requires Shrinks(t, u, doomed) && DueEvents(t.events, t.rows, q) <= doomed
    ensures DueEvents(u.events, u.rows, q) <= doomed
  {
    forall e <- DueEvents(u.events, u.rows, q) ensures e in doomed {
      DueBefore(t, u, doomed, q, e);
    }
  }

  lemma PruningOn(t: Tables, u: Tables, v: Tables, doomed: set<int>, q: Query, size: nat, before: nat, deleted: nat)
    requires Pruning(t, u, doomed, before) && Pruned(u, v, q, size, deleted)
    requires DueEvents(t.events, t.rows, q) <= doomed
    ensures Pruning(t, v, doomed, before + deleted)
  {
    StillDoomed(t, u, q, doomed);
    ShrinksOn(t, u, v, doomed, DueEvents(u.events, u.rows, q));
  }

  /** What is left of an arm that ran out of due events: none of those it started with. */
  lemma NoneLeft(t: Tables, u: Tables, doomed: set<int>, q: Query)
    requires Shrinks(t, u, doomed) && DueEvents(u.events, u.rows, q) == {}
    ensures DueEvents(t.events, t.rows, q) !! u.events.Keys
  {
    forall e <- DueEvents(t.events, t.rows, q) ensures e !in u.events {
      DueSurvives(t, u, doomed, q, e);
    }
  }

  predicate Within(deleted: nat, limit: Option<int>) {
    limit.Some? ==> deleted == 0 || deleted <= limit.value
  }

  /** Delete what one arm selects until nothing is left, `limit` events have gone or
      `stop` says so; `asked` counts the readings of `stop`. */
  method PruneArm(db: Outbox, q: Query, size: nat, limit: Option<int>, stop: nat -> bool, asked: nat)
    returns (deleted: nat, asked': nat, exhausted: bool)
    requires size >= 1 && Sane(TablesOf(db))
    modifies db
    ensures Pruning(old(TablesOf(db)), TablesOf(db), DueEvents(old(db.events), old(db.rows), q), deleted)
    ensures Within(deleted, limit) && asked <= asked'
    ensures exhausted ==> DueEvents(old(db.events), old(db.rows), q) !! db.events.Keys
    ensures exhausted || (limit.Some? && deleted >= limit.value) || (asked' > asked && stop(asked' - 1))
  {
    ghost var start := TablesOf(db);
    ghost var doomed := DueEvents(db.events, db.rows, q);
    deleted, asked', exhausted := 0, asked, false;
    while limit.None? || deleted < limit.value
      invariant Pruning(start, TablesOf(db), doomed, deleted) && Within(deleted, limit) && asked <= asked'
      decreases Size(TablesOf(db))
    {
      asked' := asked' + 1;
      if stop(asked' - 1) {
        return;
      }
      var take := Min(size, EVENTS_PER_BATCH);
      if limit.Some? {
        take := Min(take, limit.value - deleted);
      }
      ghost var before := TablesOf(db);
      var gone, any;
      gone, any := PruneOnce(db, q, size, take);
      if !any {
        exhausted := true;
        NoneLeft(start, TablesOf(db), doomed, q);
        return;
      }
      PruningOn(start, before, TablesOf(db), doomed, q, size, deleted, gone);
      deleted := deleted + gone;
    }
  }

  // ---- The whole prune -------------------------------------------------------------------

  function QueryOf(arm: Arm, moment: Time, ordinary: int): Query {
    Query(arm, moment, ordinary)
  }

  /** Due under any of the four arms. */
  predicate DueAtAll(t: Tables, moment: Time, ordinary: int, event: int) {
    exists arm: Arm :: IsDue(t.events, t.rows, QueryOf(arm, moment, ordinary), event)
  }

  function DueUnion(t: Tables, moment: Time, ordinary: int): set<int> {
    set e | e in t.events && DueAtAll(t, moment, ordinary, e)
  }

  lemma ArmIsDue(t: Tables, arm: Arm, moment: Time, ordinary: int)
    ensures DueEvents(t.events, t.rows, QueryOf(arm, moment, ordinary)) <= DueUnion(t, moment, ordinary)
  {
    forall e <- DueEvents(t.events, t.rows, QueryOf(arm, moment, ordinary)) ensures DueAtAll(t, moment, ordinary, e) {
    }
  }

  /** A later arm deletes only what the prune found due: an event another arm's chunk
      reached was due already. */
  lemma ArmOn(t: Tables, u: Tables, v: Tables, moment: Time, ordinary: int, arm: Arm, before: nat, deleted: nat)
    requires Pruning(t, u, DueUnion(t, moment, ordinary), before)
    requires Pruning(u, v, DueEvents(u.events, u.rows, QueryOf(arm, moment, ordinary)), deleted)
    ensures Pruning(t, v, DueUnion(t, moment, ordinary), before + deleted)
  {
    ArmIsDue(t, arm, moment, ordinary);
    StillDoomed(t, u, QueryOf(arm, moment, ordinary), DueUnion(t, moment, ordinary));
    ShrinksOn(t, u, v, DueUnion(t, moment, ordinary), DueEvents(u.events, u.rows, QueryOf(arm, moment, ordinary)));
  }

  /** What an arm found due at the prune's start is gone once that arm has run out. */
  lemma ArmClears(t: Tables, u: Tables, v: Tables, doomed: set<int>, q: Query)
    requires Shrinks(t, u, doomed) && v.events.Keys <= u.events.Keys
    requires DueEvents(u.events, u.rows, q) !! v.events.Keys
    ensures DueEvents(t.events, t.rows, q) !! v.events.Keys
  {
    forall e <- DueEvents(t.events, t.rows, q) ensures e !in v.events {
      DueSurvives(t, u, doomed, q, e);
    }
  }

  ghost predicate Cleared(t: Tables, u: Tables, moment: Time, ordinary: int, arms: int) {
    forall i | 0 <= i < arms && i < |ARMS| ::
      DueEvents(t.events, t.rows, QueryOf(ARMS[i], moment, ordinary)) !! u.events.Keys
  }

  lemma AllCleared(t: Tables, u: Tables, moment: Time, ordinary: int)
    requires Cleared(t, u, moment, ordinary, |ARMS|)
    ensures DueUnion(t, moment, ordinary) !! u.events.Keys
  {
    forall e <- DueUnion(t, moment, ordinary) ensures e !in u.events {
      var arm: Arm :| IsDue(t.events, t.rows, QueryOf(arm, moment, ordinary), e);
      var i := match arm case Consumed => 0 case SettledAtOnce => 1 case OwnWindow => 2 case OrdinaryWindow => 3;
      assert ARMS[i] == arm;
      assert e in DueEvents(t.events, t.rows, QueryOf(ARMS[i], moment, ordinary));
    }
  }

  /** An event that outlived a prune of everything due keeps every row. */
  lemma SurvivorsAreWhole(t: Tables, u: Tables, doomed: set<int>)
    requires Sane(t) && Sane(u) && Shrinks(t, u, doomed) && doomed !! u.events.Keys
    ensures u.events.Keys == t.events.Keys - doomed
    ensures u.rows == Without(t.rows, RowsOfEvents(t.rows, doomed))
  {
    assert forall e <- t.events :: e in u.events <==> e !in doomed;
    var left := Without(t.rows, RowsOfEvents(t.rows, doomed));
    forall id <- t.rows ensures id in u.rows <==> id in left {
      if id in u.rows {
        assert u.rows[id].event in u.events;
      }
    }
    assert forall id <- u.rows :: id in t.rows && u.rows[id] == left[id];
    assert forall id <- left :: id in u.rows;
    assert u.rows == left;
  }

  /** As many as a limit allows of so many. */
  function Allowed(limit: Option<int>, n: nat): nat {
    if limit.None? then n else if limit.value < 0 then 0 else Min(limit.value, n)
  }

  /** How many events went: all that were due, or the limit. */
  lemma HowMany(t: Tables, u: Tables, moment: Time, ordinary: int, limit: Option<int>, total: nat)
    requires Pruning(t, u, DueUnion(t, moment, ordinary), total) && Within(total, limit)
    requires Cleared(t, u, moment, ordinary, |ARMS|) || (limit.Some? && total >= limit.value)
    ensures total == Allowed(limit, |DueUnion(t, moment, ordinary)|)
  {
    var due := DueUnion(t, moment, ordinary);
    var gone := t.events.Keys - u.events.Keys;
    assert gone <= due;
    SubsetSize(gone, due);
    if Cleared(t, u, moment, ordinary, |ARMS|) {
      AllCleared(t, u, moment, ordinary);
      assert gone == due;
    }
  }

  ghost predicate Unstopped(stop: nat -> bool) {
    forall k :: !stop(k)
  }

  /** Where the prune stands after so many arms: unless it was stopped, each has left
      nothing of what was due under it, or the limit is reached. */
  ghost predicate Sweeping(t: Tables, u: Tables, moment: Time, ordinary: int, limit: Option<int>, arms: int, total: nat,
                           unstopped: bool) {
    && Pruning(t, u, DueUnion(t, moment, ordinary), total) && Within(total, limit)
    && (unstopped ==> Cleared(t, u, moment, ordinary, arms) || (limit.Some? && total >= limit.value))
  }

  /** The next arm, under what is left of the limit. */
  method NextArm(db: Outbox, moment: Time, ordinary: int, size: nat, limit: Option<int>, stop: nat -> bool, i: nat,
                 total: nat, asked: nat, ghost start: Tables)
    returns (total': nat, asked': nat)
    requires size >= 1 && i < |ARMS|
    requires Sweeping(start, TablesOf(db), moment, ordinary, limit, i, total, Unstopped(stop))
    modifies db
    ensures Sweeping(start, TablesOf(db), moment, ordinary, limit, i + 1, total', Unstopped(stop))
  {
    ghost var before := TablesOf(db);
    var gone, exhausted;
    gone, asked', exhausted := PruneArm(db, QueryOf(ARMS[i], moment, ordinary), size,
                                        if limit.None? then None else Some(limit.value - total), stop, asked);
    ArmOn(start, before, TablesOf(db), moment, ordinary, ARMS[i], total, gone);
    if exhausted {
      ArmClears(start, before, TablesOf(db), DueUnion(start, moment, ordinary), QueryOf(ARMS[i], moment, ordinary));
    }
    total' := total + gone;
  }

  /** What the last arm leaves. */
  lemma Swept(t: Tables, u: Tables, moment: Time, ordinary: int, limit: Option<int>, total: nat, unstopped: bool)
    requires Sane(t) && Sweeping(t, u, moment, ordinary, limit, |ARMS|, total, unstopped)
    ensures unstopped ==> total == Allowed(limit, |DueUnion(t, moment, ordinary)|)
    ensures unstopped && limit.None? ==>
              var due := DueUnion(t, moment, ordinary);
              u.events.Keys == t.events.Keys - due && u.rows == Without(t.rows, RowsOfEvents(t.rows, due))
  {
    if unstopped {
      HowMany(t, u, moment, ordinary, limit, total);
      if limit.None? {
        AllCleared(t, u, moment, ordinary);
        SurvivorsAreWhole(t, u, DueUnion(t, moment, ordinary));
      }
    }
  }

  // ---- What goes and what stays, read off the rows -----------------------------------------

  /** The event is inside its retention: its own window, or for want of one the ordinary. */
  predicate Inside(record: Event, moment: Time, ordinary: int) {
    if record.window.Some? then record.recordedAt + record.window.value >= moment
    else record.recordedAt >= moment - ordinary
  }

  /** Some delivery of the event has one of these statuses. */
  predicate HasRow(rows: map<int, Row>, event: int, statuses: set<Status>) {
    exists id <- rows :: rows[id].event == event && rows[id].status in statuses
  }

  /** What no prune may touch: an event with work owed; and one inside its retention,
      unless what it was recorded to wait for has come - nothing, if it is ordinary, and
      no receiver left without a success, if it waits for that. */
  predicate Spared(t: Tables, moment: Time, ordinary: int, event: int) {
    && event in t.events
    && (|| HasRow(t.rows, event, {Pending, Failed, Claimed})
        || (Inside(t.events[event], moment, ordinary)
            && (|| t.events[event].deleteWhen == Ordinary
                || (t.events[event].deleteWhen == OnSucceeded && HasRow(t.rows, event, {Dead, Orphaned})))))
  }

  /** It is all still there. */
  predicate Survives(t: Tables, u: Tables, event: int) {
    && event in t.events && event in u.events && u.events[event] == t.events[event]
    && forall id <- t.rows | t.rows[id].event == event :: id in u.rows && u.rows[id] == t.rows[id]
  }

  /** None of it is. */
  predicate IsGone(u: Tables, event: int) {
    event !in u.events && forall id <- u.rows :: u.rows[id].event != event
  }

  lemma SparedIsNotDue(t: Tables, moment: Time, ordinary: int, event: int)
    requires event in t.events
    ensures Spared(t, moment, ordinary, event) <==> event !in DueUnion(t, moment, ordinary)
  {
    StatusesSettle(t.rows, event);
    var record := t.events[event];
    forall arm: Arm ensures IsDue(t.events, t.rows, QueryOf(arm, moment, ordinary), event) <==>
                            Due(arm, record, t.rows, event, moment, ordinary) {
    }
    if !Spared(t, moment, ordinary, event) {
      var arm := if !Inside(record, moment, ordinary) then
                   if record.window.Some? then OwnWindow else OrdinaryWindow
                 else if record.deleteWhen == OnSucceeded then Consumed else SettledAtOnce;
      assert IsDue(t.events, t.rows, QueryOf(arm, moment, ordinary), event);
    }
  }

  lemma StatusesSettle(rows: map<int, Row>, event: int)
    ensures Settled(rows, event) <==> !HasRow(rows, event, {Pending, Failed, Claimed})
    ensures AllConsumed(rows, event) <==>
              !HasRow(rows, event, {Pending, Failed, Claimed}) && !HasRow(rows, event, {Dead, Orphaned})
  {
  }

  lemma SparedSurvive(t: Tables, u: Tables, moment: Time, ordinary: int, deleted: nat, event: int)
    requires Pruning(t, u, DueUnion(t, moment, ordinary), deleted) && Spared(t, moment, ordinary, event)
    ensures Survives(t, u, event)
  {
    SparedIsNotDue(t, moment, ordinary, event);
  }

  lemma ReadOffTheRows(t: Tables, u: Tables, moment: Time, ordinary: int, limit: Option<int>, total: nat,
                       unstopped: bool)
    requires Sane(t) && Sweeping(t, u, moment, ordinary, limit, |ARMS|, total, unstopped)
    ensures forall event <- t.events | Spared(t, moment, ordinary, event) :: Survives(t, u, event)
    ensures unstopped && limit.None? ==>
              forall event <- t.events | !Spared(t, moment, ordinary, event) :: IsGone(u, event)
  {
    forall event <- t.events | Spared(t, moment, ordinary, event) ensures Survives(t, u, event) {
      SparedSurvive(t, u, moment, ordinary, total, event);
    }
    if unstopped && limit.None? {
      Swept(t, u, moment, ordinary, limit, total, unstopped);
      forall event <- t.events | !Spared(t, moment, ordinary, event) ensures IsGone(u, event) {
        SparedIsNotDue(t, moment, ordinary, event);
      }
    }
  }

  /** Delete the events that are due, by any arm, and return how many went: none for a
      size below one, which is refused. Never an event, or a row, that was not due when
      the prune began; with no limit and nothing to stop it, every one that was, with
      all its rows; with a limit, as many of those as it allows, or at most so many when
      stopped; and no receiver looks any quieter. */
  method PruneEvents(db: Outbox, moment: Time, ordinary: int, size: int, limit: Option<int>, stop: nat -> bool)
    returns (deleted: Option<nat>)
    requires Sane(TablesOf(db))
    modifies db
    ensures deleted.None? <==> size < 1
    ensures deleted.None? ==> TablesOf(db) == old(TablesOf(db))
    ensures deleted.Some? ==>
              Pruning(old(TablesOf(db)), TablesOf(db), DueUnion(old(TablesOf(db)), moment, ordinary), deleted.value)
              && Within(deleted.value, limit)
    ensures deleted.Some? && Unstopped(stop) ==>
              deleted.value == Allowed(limit, |DueUnion(old(TablesOf(db)), moment, ordinary)|)
    ensures deleted.Some? && limit.None? && Unstopped(stop) ==>
              var due := DueUnion(old(TablesOf(db)), moment, ordinary);
              && db.events.Keys == old(db.events).Keys - due
              && db.rows == Without(old(db.rows), RowsOfEvents(old(db.rows), due))
    ensures forall event <- old(db.events) | Spared(old(TablesOf(db)), moment, ordinary, event) ::
              Survives(old(TablesOf(db)), TablesOf(db), event)
    ensures deleted.Some? && limit.None? && Unstopped(stop) ==>
              forall event <- old(db.events) | !Spared(old(TablesOf(db)), moment, ordinary, event) ::
                IsGone(TablesOf(db), event)
  {
    if size < 1 {
      return None;
    }
    ghost var start := TablesOf(db);
    var total: nat, asked: nat := 0, 0;
    for i := 0 to |ARMS|
      invariant Sweeping(start, TablesOf(db), moment, ordinary, limit, i, total, Unstopped(stop))
    {
      total, asked := NextArm(db, moment, ordinary, size, limit, stop, i, total, asked, start);
    }
    Swept(start, TablesOf(db), moment, ordinary, limit, total, Unstopped(stop));
    ReadOffTheRows(start, TablesOf(db), moment, ordinary, limit, total, Unstopped(stop));
    return Some(total);
  }
}
