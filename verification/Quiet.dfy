/** `quiet_receivers`: which durable receivers have not succeeded since a cutoff, read
    from the live rows and the prune's side table. */
module Quiet {
  import opened Rows
  import opened Registry
  import opened Retention
  import opened Store
  import opened Prune

  datatype QuietReceiver = QuietReceiver(key: string, last: Option<Time>)

  /** The receiver's newest success ever, if it has one, is before the cutoff. */
  ghost predicate IsQuiet(t: Tables, key: string, last: Option<Time>, cutoff: Time) {
    Newest(t.rows, t.side, key, last) && (last.Some? ==> last.value < cutoff)
  }

  predicate Latest(rows: map<int, Row>, among: set<int>, key: string, last: Option<Time>) {
    && (last.Some? ==> exists id <- among :: id in rows && rows[id].key == key && rows[id].succeededAt == last)
    && (forall id <- among | id in rows && rows[id].key == key && rows[id].succeededAt.Some? ::
          last.Some? && rows[id].succeededAt.value <= last.value)
  }

  method NewestLive(rows: map<int, Row>, key: string) returns (last: Option<Time>)
    ensures Latest(rows, rows.Keys, key, last)
  {
    last := None;
    var left, seen := rows.Keys, {};
    while left != {}
      invariant left + seen == rows.Keys && Latest(rows, seen, key, last)
      decreases left
    {
      EmptyOrNot(left);
      var id :| id in left;
      var row := rows[id];
      if row.key == key && row.succeededAt.Some? && (last.None? || last.value < row.succeededAt.value) {
        last := row.succeededAt;
      }
      left, seen := left - {id}, seen + {id};
    }
    assert seen == rows.Keys;
  }

  /** The later of the live rows' newest success and the side table's. */
  method LastSuccess(db: Outbox, key: string) returns (last: Option<Time>)
    ensures Newest(db.rows, db.side, key, last)
  {
    var live := NewestLive(db.rows, key);
    last := live;
    if key in db.side && (live.None? || live.value < db.side[key]) {
      last := Some(db.side[key]);
    }
  }

  ghost predicate Recent(t: Tables, key: string, cutoff: Time) {
    exists last :: Newest(t.rows, t.side, key, last) && last.Some? && last.value >= cutoff
  }

  predicate Named(quiet: seq<QuietReceiver>, key: string) {
    exists j | 0 <= j < |quiet| :: quiet[j].key == key
  }

  /** A report of these receivers: it names only quiet ones, each with its newest success,
      and every one that has not succeeded since the cutoff; none twice. */
  ghost predicate Reports(t: Tables, durable: seq<string>, quiet: seq<QuietReceiver>, cutoff: Time) {
    && (forall i | 0 <= i < |quiet| ::
          quiet[i].key in durable && IsQuiet(t, quiet[i].key, quiet[i].last, cutoff))
    && (forall i | 0 <= i < |durable| :: Named(quiet, durable[i]) || Recent(t, durable[i], cutoff))
    && (Distinct(durable) ==> forall i, j | 0 <= i < j < |quiet| :: quiet[i].key != quiet[j].key)
  }

  /** The report with one receiver more, if it is quiet. */
  function Grown(quiet: seq<QuietReceiver>, key: string, last: Option<Time>, cutoff: Time): seq<QuietReceiver> {
    if last.None? || last.value < cutoff then quiet + [QuietReceiver(key, last)] else quiet
  }

  lemma ReportGrows(t: Tables, durable: seq<string>, quiet: seq<QuietReceiver>, cutoff: Time, key: string,
                    last: Option<Time>)
    requires Reports(t, durable, quiet, cutoff) && Newest(t.rows, t.side, key, last)
    ensures Reports(t, durable + [key], Grown(quiet, key, last, cutoff), cutoff)
  {
    var more := Grown(quiet, key, last, cutoff);
    forall i | 0 <= i < |durable + [key]|
      ensures Named(more, (durable + [key])[i]) || Recent(t, (durable + [key])[i], cutoff)
    {
      if i < |durable| && Named(quiet, durable[i]) {
        var j :| 0 <= j < |quiet| && quiet[j].key == durable[i];
        assert more[j] == quiet[j];
      } else if i == |durable| && more != quiet {
        assert more[|quiet|].key == key;
      }
    }
    KeysStayApart(durable, quiet, QuietReceiver(key, last));
  }

  lemma NextReport(t: Tables, durable: seq<string>, k: nat, quiet: seq<QuietReceiver>, cutoff: Time, last: Option<Time>)
    requires k < |durable| && Reports(t, durable[..k], quiet, cutoff) && Newest(t.rows, t.side, durable[k], last)
    ensures Reports(t, durable[..k + 1], Grown(quiet, durable[k], last, cutoff), cutoff)
  {
    ReportGrows(t, durable[..k], quiet, cutoff, durable[k], last);
    assert durable[..k + 1] == durable[..k] + [durable[k]];
  }

  lemma KeysStayApart(durable: seq<string>, quiet: seq<QuietReceiver>, q: QuietReceiver)
    requires forall i | 0 <= i < |quiet| :: quiet[i].key in durable
    requires Distinct(durable) ==> forall i, j | 0 <= i < j < |quiet| :: quiet[i].key != quiet[j].key
    ensures Distinct(durable + [q.key]) ==>
              && (forall i, j | 0 <= i < j < |quiet| :: quiet[i].key != quiet[j].key)
              && forall i, j | 0 <= i < j < |quiet + [q]| :: (quiet + [q])[i].key != (quiet + [q])[j].key
  {
    if Distinct(durable + [q.key]) {
      var all := durable + [q.key];
      assert forall i | 0 <= i < |durable| :: all[i] == durable[i] != all[|durable|];
    }
  }

  /** One receiver more of the report. */
  method NextQuiet(db: Outbox, durable: seq<string>, k: nat, cutoff: Time, quiet0: seq<QuietReceiver>)
    returns (quiet: seq<QuietReceiver>)
    requires k < |durable| && Reports(TablesOf(db), durable[..k], quiet0, cutoff)
    ensures Reports(TablesOf(db), durable[..k + 1], quiet, cutoff)
  {
    var last := LastSuccess(db, durable[k]);
    NextReport(TablesOf(db), durable, k, quiet0, cutoff, last);
    quiet := Grown(quiet0, durable[k], last, cutoff);
  }

  lemma NothingReported(t: Tables, cutoff: Time)
    ensures Reports(t, [], [], cutoff)
  {
  }

  /** Some live row, or the side table's entry, has the receiver succeeding then. */
  predicate SucceededAt(t: Tables, key: string, at: Time) {
    || (exists id <- t.rows :: t.rows[id].key == key && t.rows[id].succeededAt == Some(at))
    || (key in t.side && t.side[key] == at)
  }

  /** A report, read off the tables: a receiver is named exactly when it has succeeded at no
      moment from the cutoff on, and beside it is the latest at which it has, if any. */
  ghost predicate ReadsOff(t: Tables, durable: seq<string>, quiet: seq<QuietReceiver>, cutoff: Time) {
    && (forall key <- durable :: Named(quiet, key) <==> forall at | SucceededAt(t, key, at) :: at < cutoff)
    && (forall i | 0 <= i < |quiet| ::
          && quiet[i].key in durable
          && (quiet[i].last.Some? ==> SucceededAt(t, quiet[i].key, quiet[i].last.value))
          && forall at | SucceededAt(t, quiet[i].key, at) :: quiet[i].last.Some? && at <= quiet[i].last.value)
  }

  lemma NewestIsLatest(t: Tables, key: string, last: Option<Time>)
    requires Newest(t.rows, t.side, key, last)
    ensures last.Some? ==> SucceededAt(t, key, last.value)
    ensures forall at | SucceededAt(t, key, at) :: last.Some? && at <= last.value
  {
  }

  lemma ReportReadsOff(t: Tables, durable: seq<string>, quiet: seq<QuietReceiver>, cutoff: Time)
    requires Reports(t, durable, quiet, cutoff)
    ensures ReadsOff(t, durable, quiet, cutoff)
  {
    forall i | 0 <= i < |quiet|
      ensures quiet[i].key in durable && (quiet[i].last.Some? ==> SucceededAt(t, quiet[i].key, quiet[i].last.value))
      ensures forall at | SucceededAt(t, quiet[i].key, at) :: quiet[i].last.Some? && at <= quiet[i].last.value < cutoff
    {
      NewestIsLatest(t, quiet[i].key, quiet[i].last);
    }
    forall key <- durable ensures Named(quiet, key) <==> forall at | SucceededAt(t, key, at) :: at < cutoff {
      var i :| 0 <= i < |durable| && durable[i] == key;
      if !Named(quiet, key) {
        assert Recent(t, durable[i], cutoff);
        var last :| Newest(t.rows, t.side, key, last) && last.Some? && last.value >= cutoff;
        NewestIsLatest(t, key, last);
      }
    }
  }

  /** The durable receivers with no success since the cutoff, each with its newest. */
  method QuietReceivers(db: Outbox, durable: seq<string>, cutoff: Time) returns (quiet: seq<QuietReceiver>)
    ensures Reports(TablesOf(db), durable, quiet, cutoff)
    ensures ReadsOff(TablesOf(db), durable, quiet, cutoff)
  {
    quiet := [];
    NothingReported(TablesOf(db), cutoff);
    assert durable[..0] == [];
    for k := 0 to |durable|
      invariant Reports(TablesOf(db), durable[..k], quiet, cutoff)
    {
      quiet := NextQuiet(db, durable, k, cutoff, quiet);
    }
    assert durable[..|durable|] == durable;
    ReportReadsOff(TablesOf(db), durable, quiet, cutoff);
  }

  /** A prune makes no receiver quiet, and none less so: whatever `quiet_receivers` said
      of it before a batch, a chunk or a whole prune, it says after. */
  lemma PruningKeepsQuiet(t: Tables, u: Tables, key: string, last: Option<Time>, cutoff: Time)
    requires Invisible(t, u) && Newest(t.rows, t.side, key, last)
    ensures forall answer :: IsQuiet(t, key, answer, cutoff) <==> IsQuiet(u, key, answer, cutoff)
  {
    assert Newest(u.rows, u.side, key, last);
    forall answer ensures IsQuiet(t, key, answer, cutoff) <==> IsQuiet(u, key, answer, cutoff) {
      if Newest(t.rows, t.side, key, answer) {
        NewestIsUnique(t.rows, t.side, key, answer, last);
      }
      if Newest(u.rows, u.side, key, answer) {
        NewestIsUnique(u.rows, u.side, key, answer, last);
      }
    }
  }
}
