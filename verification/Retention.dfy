/** When an event may be deleted, and what a delete keeps of the successes in it. */
module Retention {
  import opened Rows

  datatype DeleteWhen = Ordinary | OnSucceeded | OnSettled

  datatype Event = Event(recordedAt: Time, window: Option<nat>, deleteWhen: DeleteWhen)

  /** The four queries of a prune: one per policy and one per kind of window. */
  datatype Arm = Consumed | SettledAtOnce | OwnWindow | OrdinaryWindow

  const ARMS: seq<Arm> := [Consumed, SettledAtOnce, OwnWindow, OrdinaryWindow]

  /** No delivery of the event is pending, failed or claimed. */
  predicate Settled(rows: map<int, Row>, event: int) {
    forall id <- rows | rows[id].event == event :: Terminal(rows[id].status)
  }

  predicate AllConsumed(rows: map<int, Row>, event: int) {
    forall id <- rows | rows[id].event == event :: rows[id].status == Succeeded || rows[id].status == Cancelled
  }

  /** What an arm selects, read off the event row and its deliveries. */
  predicate Due(arm: Arm, record: Event, rows: map<int, Row>, event: int, moment: Time, ordinary: int) {
    match arm
    case Consumed => record.deleteWhen == OnSucceeded && AllConsumed(rows, event)
    case SettledAtOnce => record.deleteWhen == OnSettled && Settled(rows, event)
    case OwnWindow =>
      record.window.Some? && record.recordedAt + record.window.value < moment && Settled(rows, event)
    case OrdinaryWindow =>
      record.window.None? && record.recordedAt < moment - ordinary && Settled(rows, event)
  }

  lemma DueIsSettled(arm: Arm, record: Event, rows: map<int, Row>, event: int, moment: Time, ordinary: int)
    requires Due(arm, record, rows, event, moment, ordinary)
    ensures Settled(rows, event)
  {
  }

  // ---- The newest success of each receiver ------------------------------------

  /** A receiver's successes among some rows. */
  predicate SucceededIn(rows: map<int, Row>, key: string, at: Time) {
    exists id <- rows :: rows[id].key == key && rows[id].succeededAt == Some(at)
  }

  /** `last` is what `quiet_receivers` answers: the later of the live rows' newest
      success and the side table's entry, or nothing. */
  predicate Newest(rows: map<int, Row>, side: map<string, Time>, key: string, last: Option<Time>) {
    && (last.Some? ==> SucceededIn(rows, key, last.value) || (key in side && side[key] == last.value))
    && (forall id <- rows | rows[id].key == key && rows[id].succeededAt.Some? ::
          last.Some? && rows[id].succeededAt.value <= last.value)
    && (key in side ==> last.Some? && side[key] <= last.value)
  }

  /** `after` is the side table once the successes of `rows` are recorded in it:
      a key's entry is the latest of its own and theirs, and never moves back. */
  predicate Folds(side: map<string, Time>, rows: map<int, Row>, after: map<string, Time>) {
    && (forall key <- side :: key in after && side[key] <= after[key])
    && (forall id <- rows | rows[id].succeededAt.Some? ::
          rows[id].key in after && rows[id].succeededAt.value <= after[rows[id].key])
    && (forall key <- after :: (key in side && after[key] == side[key]) || SucceededIn(rows, key, after[key]))
  }

  function Without(rows: map<int, Row>, gone: set<int>): map<int, Row> {
    map id | id in rows && id !in gone :: rows[id]
  }

  function Only(rows: map<int, Row>, kept: set<int>): map<int, Row> {
    map id | id in rows && id in kept :: rows[id]
  }

  function RowsOfEvents(rows: map<int, Row>, events: set<int>): set<int> {
    set id | id in rows && rows[id].event in events
  }

  /** Deleting rows whose successes were folded in first changes no receiver's answer. */
  lemma DeletingIsInvisible(rows: map<int, Row>, gone: set<int>, side: map<string, Time>,
                            after: map<string, Time>, key: string, last: Option<Time>)
    requires Folds(side, Only(rows, gone), after)
    requires Newest(rows, side, key, last)
    ensures Newest(Without(rows, gone), after, key, last)
  {
    var doomed, kept := Only(rows, gone), Without(rows, gone);
    if key in after && !(key in side && after[key] == side[key]) {
      var id :| id in doomed && doomed[id].key == key && doomed[id].succeededAt == Some(after[key]);
      assert id in rows;
    }
    if last.Some? && !(key in side && side[key] == last.value) {
      var id :| id in rows && rows[id].key == key && rows[id].succeededAt == last;
      if id in gone {
        assert id in doomed;
        assert key in after && last.value <= after[key];
      } else {
        assert id in kept;
      }
    }
  }

  /** There is one answer. */
  lemma NewestIsUnique(rows: map<int, Row>, side: map<string, Time>, key: string, a: Option<Time>, b: Option<Time>)
    requires Newest(rows, side, key, a) && Newest(rows, side, key, b)
    ensures a == b
  {
  }

  // ---- The ghost log of successes -----------------------------------------------

  predicate Shows(row: Row, key: string, at: Time) {
    row.key == key && row.succeededAt.Some? && at <= row.succeededAt.value
  }

  /** A logged success is covered by a live row or the side table. */
  predicate Covered(rows: map<int, Row>, side: map<string, Time>, key: string, at: Time) {
    || (exists id <- rows :: Shows(rows[id], key, at))
    || (key in side && at <= side[key])
  }

  /** Every success ever recorded is covered, and nothing unrecorded is shown. */
  ghost predicate Accounted(rows: map<int, Row>, side: map<string, Time>, log: set<(string, Time)>) {
    && (forall key, at {:trigger Covered(rows, side, key, at)} :: (key, at) in log ==> Covered(rows, side, key, at))
    && (forall id <- rows | rows[id].succeededAt.Some? :: (rows[id].key, rows[id].succeededAt.value) in log)
    && (forall key <- side :: (key, side[key]) in log)
  }

  /** A write that moves a row's success forward, or leaves it, uncovers nothing. */
  lemma CoveredAfterWrite(rows: map<int, Row>, side: map<string, Time>, id: int, row: Row, key: string, at: Time)
    requires Covered(rows, side, key, at) && id in rows
    requires Shows(rows[id], key, at) ==> Shows(row, key, at)
    ensures Covered(rows[id := row], side, key, at)
  {
    if !(key in side && at <= side[key]) {
      var i :| i in rows && Shows(rows[i], key, at);
      assert Shows(rows[id := row][i], key, at);
    }
  }

  lemma AccountedAfterWrite(rows: map<int, Row>, side: map<string, Time>, log: set<(string, Time)>, id: int,
                            row: Row, log': set<(string, Time)>)
    requires Accounted(rows, side, log) && id in rows && row.key == rows[id].key
    requires || (row.succeededAt == rows[id].succeededAt && log' == log)
             || (row.succeededAt.Some? && log' == log + {(row.key, row.succeededAt.value)}
                 && (rows[id].succeededAt.Some? ==> rows[id].succeededAt.value <= row.succeededAt.value))
    ensures Accounted(rows[id := row], side, log')
  {
    var after := rows[id := row];
    forall key, at | (key, at) in log' ensures Covered(after, side, key, at) {
      if (key, at) in log {
        assert Covered(rows, side, key, at);
        CoveredAfterWrite(rows, side, id, row, key, at);
      } else {
        assert Shows(after[id], key, at);
      }
    }
  }

  lemma AccountedAfterInsert(rows: map<int, Row>, side: map<string, Time>, log: set<(string, Time)>,
                             more: map<int, Row>)
    requires Accounted(rows, side, log) && rows.Keys !! more.Keys
    requires forall id <- more :: more[id].succeededAt.None?
    ensures Accounted(rows + more, side, log)
  {
    var after := rows + more;
    forall key, at | (key, at) in log ensures Covered(after, side, key, at) {
      assert Covered(rows, side, key, at);
      if !(key in side && at <= side[key]) {
        var i :| i in rows && Shows(rows[i], key, at);
        assert Shows(after[i], key, at);
      }
    }
  }

  lemma AccountedAfterDelete(rows: map<int, Row>, side: map<string, Time>, log: set<(string, Time)>, gone: set<int>,
                             after: map<string, Time>)
    requires Accounted(rows, side, log) && Folds(side, Only(rows, gone), after)
    ensures Accounted(Without(rows, gone), after, log)
  {
    var doomed, kept := Only(rows, gone), Without(rows, gone);
    forall key, at | (key, at) in log ensures Covered(kept, after, key, at) {
      assert Covered(rows, side, key, at);
      if !(key in side && at <= side[key]) {
        var i :| i in rows && Shows(rows[i], key, at);
        if i in gone {
          assert doomed[i].succeededAt.Some?;
        } else {
          assert Shows(kept[i], key, at);
        }
      }
    }
    forall key <- after ensures (key, after[key]) in log {
      if !(key in side && after[key] == side[key]) {
        var i :| i in doomed && doomed[i].key == key && doomed[i].succeededAt == Some(after[key]);
        assert i in rows;
      }
    }
  }

  /** The answer is the newest success ever recorded for the receiver. */
  lemma AccountedIsNewestEver(rows: map<int, Row>, side: map<string, Time>, log: set<(string, Time)>, key: string,
                              last: Option<Time>)
    requires Accounted(rows, side, log) && Newest(rows, side, key, last)
    ensures last.Some? ==> (key, last.value) in log
    ensures forall s <- log | s.0 == key :: last.Some? && s.1 <= last.value
  {
    forall s <- log | s.0 == key ensures last.Some? && s.1 <= last.value {
      assert Covered(rows, side, s.0, s.1);
    }
  }
}
