/** `outbox_health`: totals, their split by receiver, and the receivers rolled up into
    lanes, on one snapshot of the rows. */
module Health {
  import opened Rows
  import opened Registry
  import opened Store

  datatype Backlog = Backlog(owed: int, scheduled: int, claimed: int, dead: int, oldest: Option<Time>)

  const NOTHING := Backlog(0, 0, 0, 0, None)

  function Earlier(a: Option<Time>, b: Option<Time>): Option<Time> {
    if a.None? then b else if b.None? then a else Some(Min(a.value, b.value))
  }

  function Plus(a: Backlog, b: Backlog): Backlog {
    Backlog(a.owed + b.owed, a.scheduled + b.scheduled, a.claimed + b.claimed, a.dead + b.dead,
            Earlier(a.oldest, b.oldest))
  }

  // ---- What a backlog counts -----------------------------------------------------------

  predicate IsBehind(row: Row, moment: Time) {
    !Terminal(row.status) && !NotYetDue(row, moment)
  }

  predicate IsScheduled(row: Row, moment: Time) {
    !Terminal(row.status) && NotYetDue(row, moment)
  }

  /** One row's own backlog. */
  function OfRow(rows: map<int, Row>, id: int, moment: Time): Backlog {
    if id !in rows then NOTHING
    else Backlog(if IsBehind(rows[id], moment) then 1 else 0, if IsScheduled(rows[id], moment) then 1 else 0,
                 if rows[id].status == Claimed then 1 else 0, if rows[id].status == Dead then 1 else 0,
                 if IsBehind(rows[id], moment) then Some(OwedSince(rows[id])) else None)
  }

  /** What each row adds. */
  type Share = int -> Backlog

  function Shares(rows: map<int, Row>, moment: Time): Share {
    (id: int) => OfRow(rows, id, moment)
  }

  lemma ShareIs(rows: map<int, Row>, moment: Time, id: int)
    ensures Shares(rows, moment)(id) == OfRow(rows, id, moment)
  {
  }

  /** A scan of the table, adding up the rows it is for. */
  function Scan(share: Share, table: seq<int>, ids: set<int>): Backlog {
    if table == [] then NOTHING
    else
      var rest, last := Scan(share, table[..|table| - 1], ids), table[|table| - 1];
      if last in ids then Plus(rest, share(last)) else rest
  }

  /** The backlog of these rows. */
  function Of(rows: map<int, Row>, table: seq<int>, ids: set<int>, moment: Time): Backlog {
    Scan(Shares(rows, moment), table, ids)
  }

  lemma Reorder(a: Backlog, b: Backlog, c: Backlog)
    ensures Plus(Plus(a, b), c) == Plus(Plus(a, c), b) == Plus(a, Plus(b, c)) && Plus(a, NOTHING) == a
  {
  }

  /** Scans for rows apart add up. */
  lemma {:induction false} ScansAdd(share: Share, table: seq<int>, a: set<int>, b: set<int>)
    requires a !! b
    ensures Scan(share, table, a + b) == Plus(Scan(share, table, a), Scan(share, table, b))
  {
    if table != [] {
      var init, last := table[..|table| - 1], table[|table| - 1];
      ScansAdd(share, init, a, b);
      Reorder(Scan(share, init, a), Scan(share, init, b), share(last));
    }
  }

  /** Rows that add nothing may be scanned too. */
  lemma {:induction false} OthersAddNothing(share: Share, table: seq<int>, ids: set<int>, all: set<int>)
    requires ids <= all && forall id <- all | id !in ids :: share(id) == NOTHING
    ensures Scan(share, table, all) == Scan(share, table, ids)
  {
    if table != [] {
      var init := table[..|table| - 1];
      OthersAddNothing(share, init, ids, all);
      Reorder(Scan(share, init, ids), NOTHING, NOTHING);
    }
  }

  lemma {:induction false} NobodysBacklog(share: Share, table: seq<int>)
    ensures Scan(share, table, {}) == NOTHING
  {
    if table != [] {
      NobodysBacklog(share, table[..|table| - 1]);
    }
  }

  /** The rows scanned of which something holds. */
  ghost function Holding(table: seq<int>, ids: set<int>, holds: int -> bool): set<int> {
    set id | id in table && id in ids && holds(id)
  }

  lemma OneMore(table: seq<int>, ids: set<int>, holds: int -> bool)
    requires Distinct(table) && table != []
    ensures Distinct(table[..|table| - 1])
    ensures |Holding(table, ids, holds)|
         == |Holding(table[..|table| - 1], ids, holds)|
            + if table[|table| - 1] in ids && holds(table[|table| - 1]) then 1 else 0
  {
    var init, last := table[..|table| - 1], table[|table| - 1];
    assert table == init + [last];
    assert last !in init;
    if last in ids && holds(last) {
      assert Holding(table, ids, holds) == Holding(init, ids, holds) + {last};
    } else {
      assert Holding(table, ids, holds) == Holding(init, ids, holds);
    }
  }

  /** A count of a scan is the number of its rows that add one to it. */
  lemma {:induction false} ScanCounts(share: Share, table: seq<int>, ids: set<int>, count: Backlog -> int,
                                      holds: int -> bool)
    requires Distinct(table) && count(NOTHING) == 0
    requires forall a, b :: count(Plus(a, b)) == count(a) + count(b)
    requires forall id :: count(share(id)) == if holds(id) then 1 else 0
    ensures count(Scan(share, table, ids)) == |Holding(table, ids, holds)|
  {
    if table == [] {
      assert Holding(table, ids, holds) == {};
    } else {
      OneMore(table, ids, holds);
      ScanCounts(share, table[..|table| - 1], ids, count, holds);
    }
  }

  /** The earliest of a scan is that of one of its rows, and none of theirs is earlier. */
  lemma {:induction false} ScanEarliest(share: Share, table: seq<int>, ids: set<int>)
    ensures var oldest := Scan(share, table, ids).oldest;
            && (oldest.Some? ==> exists id <- ids :: id in table && share(id).oldest == oldest)
            && (forall id <- ids | id in table && share(id).oldest.Some? ::
                  oldest.Some? && oldest.value <= share(id).oldest.value)
  {
    if table != [] {
      var init, last := table[..|table| - 1], table[|table| - 1];
      assert table == init + [last];
      ScanEarliest(share, init, ids);
    }
  }

  lemma CountIs(rows: map<int, Row>, table: seq<int>, ids: set<int>, moment: Time, count: Backlog -> int,
                holds: int -> bool)
    requires Distinct(table) && (forall id :: id in table <==> id in rows) && ids <= rows.Keys
    requires count(NOTHING) == 0 && forall a, b :: count(Plus(a, b)) == count(a) + count(b)
    requires forall id :: count(OfRow(rows, id, moment)) == if holds(id) then 1 else 0
    ensures count(Of(rows, table, ids, moment)) == |set id | id in ids && holds(id)|
  {
    forall id ensures count(Shares(rows, moment)(id)) == if holds(id) then 1 else 0 {
      ShareIs(rows, moment, id);
    }
    ScanCounts(Shares(rows, moment), table, ids, count, holds);
    assert Holding(table, ids, holds) == set id | id in ids && holds(id);
  }

  /** What a backlog counts: the rows that are owed and due, the scheduled ... */
  lemma CountsOwed(rows: map<int, Row>, table: seq<int>, ids: set<int>, moment: Time)
    requires Distinct(table) && (forall id :: id in table <==> id in rows) && ids <= rows.Keys
    ensures Of(rows, table, ids, moment).owed == |set id | id in ids && IsBehind(rows[id], moment)|
    ensures Of(rows, table, ids, moment).scheduled == |set id | id in ids && IsScheduled(rows[id], moment)|
  {
    var behind := (id: int) => id in rows && IsBehind(rows[id], moment);
    CountIs(rows, table, ids, moment, (b: Backlog) => b.owed, behind);
    assert (set id | id in ids && behind(id)) == set id | id in ids && IsBehind(rows[id], moment);
    var waiting := (id: int) => id in rows && IsScheduled(rows[id], moment);
    CountIs(rows, table, ids, moment, (b: Backlog) => b.scheduled, waiting);
    assert (set id | id in ids && waiting(id)) == set id | id in ids && IsScheduled(rows[id], moment);
  }

  /** ... the claimed and the dead ... */
  lemma CountsByStatus(rows: map<int, Row>, table: seq<int>, ids: set<int>, moment: Time)
    requires Distinct(table) && (forall id :: id in table <==> id in rows) && ids <= rows.Keys
    ensures Of(rows, table, ids, moment).claimed == |set id | id in ids && rows[id].status == Claimed|
    ensures Of(rows, table, ids, moment).dead == |set id | id in ids && rows[id].status == Dead|
  {
    CountsClaimed(rows, table, ids, moment);
    CountsDead(rows, table, ids, moment);
  }

  lemma CountsClaimed(rows: map<int, Row>, table: seq<int>, ids: set<int>, moment: Time)
    requires Distinct(table) && (forall id :: id in table <==> id in rows) && ids <= rows.Keys
    ensures Of(rows, table, ids, moment).claimed == |set id | id in ids && rows[id].status == Claimed|
  {
    var held := (id: int) => id in rows && rows[id].status == Claimed;
    CountIs(rows, table, ids, moment, (b: Backlog) => b.claimed, held);
    assert (set id | id in ids && held(id)) == set id | id in ids && rows[id].status == Claimed;
  }

  lemma CountsDead(rows: map<int, Row>, table: seq<int>, ids: set<int>, moment: Time)
    requires Distinct(table) && (forall id :: id in table <==> id in rows) && ids <= rows.Keys
    ensures Of(rows, table, ids, moment).dead == |set id | id in ids && rows[id].status == Dead|
  {
    var dead := (id: int) => id in rows && rows[id].status == Dead;
    CountIs(rows, table, ids, moment, (b: Backlog) => b.dead, dead);
    assert (set id | id in ids && dead(id)) == set id | id in ids && rows[id].status == Dead;
  }

  /** ... and the earliest moment one of the due ones became owed. */
  lemma KeepsTheEarliest(rows: map<int, Row>, table: seq<int>, ids: set<int>, moment: Time)
    requires Distinct(table) && (forall id :: id in table <==> id in rows) && ids <= rows.Keys
    ensures var oldest := Of(rows, table, ids, moment).oldest;
            && (oldest.Some? ==> exists id <- ids :: IsBehind(rows[id], moment) && OwedSince(rows[id]) == oldest.value)
            && (forall id <- ids | IsBehind(rows[id], moment) :: oldest.Some? && oldest.value <= OwedSince(rows[id]))
  {
    forall id ensures Shares(rows, moment)(id) == OfRow(rows, id, moment) {
      ShareIs(rows, moment, id);
    }
    ScanEarliest(Shares(rows, moment), table, ids);
  }

  /** One aggregate query over some rows. */
  method Count(rows: map<int, Row>, table: seq<int>, ids: set<int>, moment: Time) returns (b: Backlog)
    ensures b == Of(rows, table, ids, moment)
  {
    b := NOTHING;
    var n := 0;
    while n < |table|
      invariant n <= |table| && b == Of(rows, table[..n], ids, moment)
    {
      assert table[..n + 1][..n] == table[..n];
      ShareIs(rows, moment, table[n]);
      if table[n] in ids {
        b := Plus(b, OfRow(rows, table[n], moment));
      }
      n := n + 1;
    }
    assert table[..n] == table;
  }

  // ---- The rollup --------------------------------------------------------------------

  /** The rows the split reads: owed or dead. */
  predicate Counted(row: Row) {
    !Terminal(row.status) || row.status == Dead
  }

  function KeyIds(rows: map<int, Row>, key: string): set<int> {
    set id | id in rows && Counted(rows[id]) && rows[id].key == key
  }

  function LaneIds(rows: map<int, Row>, rs: Receivers, lane: string, keys: set<string>): set<int> {
    set id | id in rows && Counted(rows[id]) && rows[id].key in keys && LaneForKey(rs, rows[id].key) == lane
  }

  function BehindKeys(rows: map<int, Row>): set<string> {
    set id | id in rows && Counted(rows[id]) :: rows[id].key
  }

  function AllIds(rows: map<int, Row>): set<int> {
    set id | id in rows && Counted(rows[id])
  }

  /** One lane's receivers added up: counts summed, the earliest age kept. */
  method LaneBacklog(receivers: seq<Backlog>) returns (b: Backlog)
    ensures b == Sum(receivers)
  {
    b := NOTHING;
    var n := 0;
    while n < |receivers|
      invariant n <= |receivers| && b == Sum(receivers[..n])
    {
      assert receivers[..n + 1][..n] == receivers[..n];
      b := Plus(b, receivers[n]);
      n := n + 1;
    }
    assert receivers[..n] == receivers;
  }

  function Sum(bs: seq<Backlog>): Backlog {
    if bs == [] then NOTHING else Plus(Sum(bs[..|bs| - 1]), bs[|bs| - 1])
  }

  lemma SumGrows(bs: seq<Backlog>, b: Backlog)
    ensures Sum(bs + [b]) == Plus(Sum(bs), b)
  {
    assert (bs + [b])[..|bs|] == bs;
  }

  /** Every lane's list, once these receivers are filed. */
  ghost predicate Filed(rows: map<int, Row>, table: seq<int>, rs: Receivers, moment: Time, members: map<string,
                        seq<Backlog>>,
                        keys: set<string>) {
    && members.Keys == Lanes(rs)
    && forall lane <- members :: LaneBacks(rows, table, rs, moment, lane, keys, members[lane])
  }

  ghost predicate LaneBacks(rows: map<int, Row>, table: seq<int>, rs: Receivers, moment: Time, lane: string,
                            keys: set<string>, bs: seq<Backlog>) {
    Sum(bs) == Of(rows, table, LaneIds(rows, rs, lane, keys), moment)
  }

  lemma LaneStays(rows: map<int, Row>, table: seq<int>, rs: Receivers, moment: Time, lane: string, keys: set<string>,
                  bs: seq<Backlog>,
                  key: string)
    requires LaneBacks(rows, table, rs, moment, lane, keys, bs) && lane != LaneForKey(rs, key)
    ensures LaneBacks(rows, table, rs, moment, lane, keys + {key}, bs)
  {
    LaneAdds(rows, rs, lane, keys, key);
  }

  lemma LaneGrows(rows: map<int, Row>, table: seq<int>, rs: Receivers, moment: Time, lane: string, keys: set<string>,
                  bs: seq<Backlog>,
                  key: string, b: Backlog)
    requires LaneBacks(rows, table, rs, moment, lane, keys, bs) && lane == LaneForKey(rs, key) && key !in keys
    requires b == Of(rows, table, KeyIds(rows, key), moment)
    ensures LaneBacks(rows, table, rs, moment, lane, keys + {key}, bs + [b])
  {
    LaneAdds(rows, rs, lane, keys, key);
    SumGrows(bs, b);
    assert LaneIds(rows, rs, lane, keys) !! KeyIds(rows, key);
    ScansAdd(Shares(rows, moment), table, LaneIds(rows, rs, lane, keys), KeyIds(rows, key));
  }

  lemma FileOne(rows: map<int, Row>, table: seq<int>, rs: Receivers, moment: Time, members: map<string, seq<Backlog>>,
                keys: set<string>,
                key: string, b: Backlog)
    requires Filed(rows, table, rs, moment, members, keys) && Keyed(rs) && key !in keys
    requires b == Of(rows, table, KeyIds(rows, key), moment)
    ensures LaneForKey(rs, key) in members
    ensures var lane := LaneForKey(rs, key);
            Filed(rows, table, rs, moment, members[lane := members[lane] + [b]], keys + {key})
  {
    var home := LaneForKey(rs, key);
    LanesPartition(rs, key, home);
    var after := members[home := members[home] + [b]];
    forall lane <- after ensures LaneBacks(rows, table, rs, moment, lane, keys + {key}, after[lane]) {
      if lane == home {
        LaneGrows(rows, table, rs, moment, lane, keys, members[lane], key, b);
      } else {
        assert LaneBacks(rows, table, rs, moment, lane, keys, members[lane]);
        LaneStays(rows, table, rs, moment, lane, keys, members[lane], key);
      }
    }
    assert after.Keys == members.Keys;
  }

  lemma LaneAdds(rows: map<int, Row>, rs: Receivers, lane: string, keys: set<string>, key: string)
    ensures LaneIds(rows, rs, lane, keys + {key})
         == if lane == LaneForKey(rs, key) then LaneIds(rows, rs, lane, keys) + KeyIds(rows, key)
            else LaneIds(rows, rs, lane, keys)
  {
  }

  lemma NothingFiled(rows: map<int, Row>, table: seq<int>, rs: Receivers, moment: Time)
    ensures Filed(rows, table, rs, moment, map lane | lane in Lanes(rs) :: [], {})
  {
    forall lane <- Lanes(rs) ensures LaneBacks(rows, table, rs, moment, lane, {}, []) {
      assert LaneIds(rows, rs, lane, {}) == {};
      NobodysBacklog(Shares(rows, moment), table);
    }
  }

  // ---- What a backlog says, read off the columns ----------------------------------------

  function OwedNow(rows: map<int, Row>, all: set<int>, moment: Time): set<int> {
    set id | id in rows && id in all && rows[id].status in {Pending, Failed, Claimed}
             && (rows[id].dueAt.None? || rows[id].dueAt.value <= moment)
  }

  function OwedLater(rows: map<int, Row>, all: set<int>, moment: Time): set<int> {
    set id | id in rows && id in all && rows[id].status in {Pending, Failed, Claimed}
             && rows[id].dueAt.Some? && rows[id].dueAt.value > moment
  }

  function WithStatus(rows: map<int, Row>, all: set<int>, status: Status): set<int> {
    set id | id in rows && id in all && rows[id].status == status
  }

  /** These rows' backlog: how many are owed and due, owed and scheduled, claimed and dead,
      and the earliest moment a due one became owed: its due time, or its event's. */
  predicate Backs(b: Backlog, rows: map<int, Row>, all: set<int>, moment: Time) {
    && b.owed == |OwedNow(rows, all, moment)| && b.scheduled == |OwedLater(rows, all, moment)|
    && b.claimed == |WithStatus(rows, all, Claimed)| && b.dead == |WithStatus(rows, all, Dead)|
    && (b.oldest.Some? <==> OwedNow(rows, all, moment) != {})
    && (b.oldest.Some? ==> exists id <- OwedNow(rows, all, moment) :: BecameOwed(rows[id]) == b.oldest.value)
    && (forall id <- OwedNow(rows, all, moment) :: b.oldest.Some? && b.oldest.value <= BecameOwed(rows[id]))
  }

  function BecameOwed(row: Row): Time {
    if row.dueAt.Some? then row.dueAt.value else row.recordedAt
  }

  /** Rows neither owed nor dead back nothing. */
  lemma BacksThem(rows: map<int, Row>, table: seq<int>, ids: set<int>, all: set<int>, moment: Time)
    requires Distinct(table) && (forall id :: id in table <==> id in rows) && ids <= all && ids <= rows.Keys
    requires forall id <- rows | id in all && id !in ids :: !Counted(rows[id])
    ensures Backs(Of(rows, table, ids, moment), rows, all, moment)
  {
    CountsOwed(rows, table, ids, moment);
    CountsByStatus(rows, table, ids, moment);
    KeepsTheEarliest(rows, table, ids, moment);
    SameRows(rows, ids, all, moment);
    var oldest := Of(rows, table, ids, moment).oldest;
    if oldest.Some? {
      var id :| id in ids && IsBehind(rows[id], moment) && OwedSince(rows[id]) == oldest.value;
      assert id in OwedNow(rows, all, moment) && BecameOwed(rows[id]) == oldest.value;
    } else {
      assert forall id <- OwedNow(rows, all, moment) :: false;
    }
  }

  lemma SameRows(rows: map<int, Row>, ids: set<int>, all: set<int>, moment: Time)
    requires ids <= all && ids <= rows.Keys
    requires forall id <- rows | id in all && id !in ids :: !Counted(rows[id])
    ensures OwedNow(rows, all, moment) == set id | id in ids && IsBehind(rows[id], moment)
    ensures OwedLater(rows, all, moment) == set id | id in ids && IsScheduled(rows[id], moment)
    ensures WithStatus(rows, all, Claimed) == set id | id in ids && rows[id].status == Claimed
    ensures WithStatus(rows, all, Dead) == set id | id in ids && rows[id].status == Dead
  {
    var behind, later := OwedNow(rows, all, moment), OwedLater(rows, all, moment);
    var held, dead := WithStatus(rows, all, Claimed), WithStatus(rows, all, Dead);
    forall id ensures id in behind <==> id in ids && IsBehind(rows[id], moment) {
    }
    forall id ensures id in later <==> id in ids && IsScheduled(rows[id], moment) {
    }
    forall id ensures id in held <==> id in ids && rows[id].status == Claimed {
    }
    forall id ensures id in dead <==> id in ids && rows[id].status == Dead {
    }
  }

  function WithKey(rows: map<int, Row>, key: string): set<int> {
    set id | id in rows && rows[id].key == key
  }

  /** The rows a lane drains: its receivers', and the default lane's those of no receiver. */
  function OfLane(rows: map<int, Row>, rs: Receivers, lane: string): set<int> {
    set id | id in rows && lane == if rows[id].key in rs then rs[rows[id].key].lane else DEFAULT_LANE
  }

  /** The whole of a report: a receiver is in it exactly when it has a row owed or dead. */
  ghost predicate Reports(totals: Backlog, receivers: map<string, Backlog>, lanes: map<string, Backlog>,
                          rows: map<int, Row>, rs: Receivers, moment: Time) {
    && Backs(totals, rows, rows.Keys, moment)
    && (forall key :: key in receivers <==>
                        exists id <- rows :: rows[id].key == key && rows[id].status in {Pending, Failed, Claimed, Dead})
    && (forall key <- receivers :: Backs(receivers[key], rows, WithKey(rows, key), moment))
    && (forall lane <- lanes :: Backs(lanes[lane], rows, OfLane(rows, rs, lane), moment))
    && DEFAULT_LANE in lanes && forall k <- rs :: rs[k].lane in lanes
  }

  lemma LaneBacksIts(table: seq<int>, rows: map<int, Row>, rs: Receivers, moment: Time, lane: string)
    requires Distinct(table) && forall id :: id in table <==> id in rows
    ensures Backs(Of(rows, table, LaneIds(rows, rs, lane, BehindKeys(rows)), moment), rows, OfLane(rows, rs, lane),
                  moment)
  {
    forall id <- rows | id in OfLane(rows, rs, lane) && Counted(rows[id])
      ensures id in LaneIds(rows, rs, lane, BehindKeys(rows))
    {
      assert rows[id].key in BehindKeys(rows);
    }
    BacksThem(rows, table, LaneIds(rows, rs, lane, BehindKeys(rows)), OfLane(rows, rs, lane), moment);
  }

  lemma ReceiverBacksIts(table: seq<int>, rows: map<int, Row>, moment: Time, key: string)
    requires Distinct(table) && forall id :: id in table <==> id in rows
    ensures Backs(Of(rows, table, KeyIds(rows, key), moment), rows, WithKey(rows, key), moment)
  {
    BacksThem(rows, table, KeyIds(rows, key), WithKey(rows, key), moment);
  }

  lemma ReportsThem(totals: Backlog, receivers: map<string, Backlog>, lanes: map<string, Backlog>, table: seq<int>,
                    rows: map<int, Row>, rs: Receivers, moment: Time)
    requires Distinct(table) && forall id :: id in table <==> id in rows
    requires totals == Of(rows, table, rows.Keys, moment) && receivers.Keys == BehindKeys(rows)
    requires forall key <- receivers :: receivers[key] == Of(rows, table, KeyIds(rows, key), moment)
    requires lanes.Keys == Lanes(rs)
    requires forall lane <- lanes :: lanes[lane] == Of(rows, table, LaneIds(rows, rs, lane, BehindKeys(rows)), moment)
    ensures Reports(totals, receivers, lanes, rows, rs, moment)
  {
    BacksThem(rows, table, rows.Keys, rows.Keys, moment);
    forall key ensures key in receivers <==>
                       exists id <- rows :: rows[id].key == key && rows[id].status in {Pending, Failed, Claimed, Dead} {
      ReportedKey(rows, key);
    }
    forall key <- receivers ensures Backs(receivers[key], rows, WithKey(rows, key), moment) {
      ReceiverBacksIts(table, rows, moment, key);
    }
    forall lane <- lanes ensures Backs(lanes[lane], rows, OfLane(rows, rs, lane), moment) {
      LaneBacksIts(table, rows, rs, moment, lane);
    }
    assert forall k <- rs :: rs[k].lane in Lanes(rs);
  }

  lemma ReportedKey(rows: map<int, Row>, key: string)
    ensures key in BehindKeys(rows) <==>
            exists id <- rows :: rows[id].key == key && rows[id].status in {Pending, Failed, Claimed, Dead}
  {
    assert forall id <- rows :: Counted(rows[id]) <==> rows[id].status in {Pending, Failed, Claimed, Dead};
  }

  /** Totals, the split by receiver, and the split by lane: each is the backlog of
      exactly the rows it names. */
  method OutboxHealth(rows: map<int, Row>, rs: Receivers, moment: Time)
    returns (totals: Backlog, receivers: map<string, Backlog>, lanes: map<string, Backlog>, table: seq<int>)
    requires Keyed(rs)
    ensures Distinct(table) && forall id :: id in table <==> id in rows
    ensures totals == Of(rows, table, rows.Keys, moment)
    ensures receivers.Keys == BehindKeys(rows)
    ensures forall key <- receivers :: receivers[key] == Of(rows, table, KeyIds(rows, key), moment)
    ensures lanes.Keys == Lanes(rs)
    ensures forall lane <- lanes :: lanes[lane] == Of(rows, table, LaneIds(rows, rs, lane, BehindKeys(rows)), moment)
    ensures Reports(totals, receivers, lanes, rows, rs, moment)
  {
    table := InOrder(rows.Keys);
    totals := Count(rows, table, rows.Keys, moment);
    var members;
    receivers, members := FileAll(rows, table, rs, moment);
    lanes := RollUp(members);
    forall lane <- lanes ensures lanes[lane] == Of(rows, table, LaneIds(rows, rs, lane, BehindKeys(rows)), moment) {
      assert LaneBacks(rows, table, rs, moment, lane, BehindKeys(rows), members[lane]);
    }
    ReportsThem(totals, receivers, lanes, table, rows, rs, moment);
  }

  /** The split by receiver, each receiver's backlog filed under its lane. */
  method FileAll(rows: map<int, Row>, table: seq<int>, rs: Receivers, moment: Time)
    returns (receivers: map<string, Backlog>, members: map<string, seq<Backlog>>)
    requires Keyed(rs)
    ensures receivers.Keys == BehindKeys(rows)
    ensures forall key <- receivers :: receivers[key] == Of(rows, table, KeyIds(rows, key), moment)
    ensures Filed(rows, table, rs, moment, members, BehindKeys(rows))
  {
    members := map lane | lane in Lanes(rs) :: [];
    NothingFiled(rows, table, rs, moment);
    receivers, members := FileEach(rows, table, rs, moment, BehindKeys(rows), members);
    forall key <- receivers ensures receivers[key] == Of(rows, table, KeyIds(rows, key), moment) {
      assert ReceiverBacks(rows, table, moment, key, receivers[key]);
    }
  }

  /** These keys' backlogs, each filed. */
  ghost predicate Filing(rows: map<int, Row>, table: seq<int>, rs: Receivers, moment: Time, receivers: map<string,
                         Backlog>,
                         members: map<string, seq<Backlog>>, done: set<string>) {
    && receivers.Keys == done && Filed(rows, table, rs, moment, members, done)
    && forall key <- receivers :: ReceiverBacks(rows, table, moment, key, receivers[key])
  }

  lemma FilingOn(rows: map<int, Row>, table: seq<int>, rs: Receivers, moment: Time, receivers: map<string, Backlog>,
                 members: map<string, seq<Backlog>>, done: set<string>, key: string, b: Backlog,
                 members': map<string, seq<Backlog>>)
    requires Filing(rows, table, rs, moment, receivers, members, done)
    requires ReceiverBacks(rows, table, moment, key, b) && Filed(rows, table, rs, moment, members', done + {key})
    ensures Filing(rows, table, rs, moment, receivers[key := b], members', done + {key})
  {
  }

  method FileEach(rows: map<int, Row>, table: seq<int>, rs: Receivers, moment: Time, keys: set<string>,
                  members0: map<string, seq<Backlog>>)
    returns (receivers: map<string, Backlog>, members: map<string, seq<Backlog>>)
    requires Keyed(rs) && Filed(rows, table, rs, moment, members0, {})
    ensures Filing(rows, table, rs, moment, receivers, members, keys)
  {
    receivers, members := map[], members0;
    var left, done := keys, {};
    while left != {}
      invariant left + done == keys && left !! done
      invariant Filing(rows, table, rs, moment, receivers, members, done)
      decreases left
    {
      SomeKey(left);
      var key :| key in left;
      ghost var before := members;
      var b;
      b, members := FileKey(rows, table, rs, moment, members, key, done);
      FilingOn(rows, table, rs, moment, receivers, before, done, key, b, members);
      receivers := receivers[key := b];
      left, done := left - {key}, done + {key};
    }
    assert done == keys;
  }

  ghost predicate ReceiverBacks(rows: map<int, Row>, table: seq<int>, moment: Time, key: string, b: Backlog) {
    b == Of(rows, table, KeyIds(rows, key), moment)
  }

  method FileKey(rows: map<int, Row>, table: seq<int>, rs: Receivers, moment: Time, members0: map<string,
                 seq<Backlog>>, key: string,
                 ghost keys: set<string>)
    returns (b: Backlog, members: map<string, seq<Backlog>>)
    requires Keyed(rs) && key !in keys && Filed(rows, table, rs, moment, members0, keys)
    ensures ReceiverBacks(rows, table, moment, key, b) && Filed(rows, table, rs, moment, members, keys + {key})
  {
    var ids := KeyIds(rows, key);
    b := Count(rows, table, ids, moment);
    FileOne(rows, table, rs, moment, members0, keys, key, b);
    members := members0[LaneForKey(rs, key) := members0[LaneForKey(rs, key)] + [b]];
  }

  method RollUp(members: map<string, seq<Backlog>>) returns (lanes: map<string, Backlog>)
    ensures lanes.Keys == members.Keys && forall lane <- lanes :: lanes[lane] == Sum(members[lane])
  {
    lanes := map[];
    var left := members.Keys;
    while left != {}
      invariant left <= members.Keys && lanes.Keys == members.Keys - left
      invariant forall lane <- lanes :: lanes[lane] == Sum(members[lane])
      decreases left
    {
      SomeKey(left);
      var lane :| lane in left;
      var b := LaneBacklog(members[lane]);
      lanes := lanes[lane := b];
      left := left - {lane};
    }
  }

  // ---- They all add up ------------------------------------------------------------------

  function SumOver(order: seq<string>, split: map<string, Backlog>): Backlog
    requires forall i | 0 <= i < |order| :: order[i] in split
  {
    if order == [] then NOTHING else Plus(SumOver(order[..|order| - 1], split), split[order[|order| - 1]])
  }

  function UnionOver(order: seq<string>, part: string -> set<int>): set<int> {
    if order == [] then {} else UnionOver(order[..|order| - 1], part) + part(order[|order| - 1])
  }

  lemma {:induction false} InUnion(order: seq<string>, part: string -> set<int>, id: int)
    ensures id in UnionOver(order, part) <==> exists i :: 0 <= i < |order| && id in part(order[i])
  {
    if order != [] {
      InUnion(order[..|order| - 1], part, id);
    }
  }

  /** Parts apart from each other: the sum of their backlogs is the union's. */
  lemma {:induction false} PartsAddUp(rows: map<int, Row>, table: seq<int>, moment: Time, order: seq<string>,
                                      split: map<string, Backlog>,
                                      part: string -> set<int>)
    requires Distinct(order) && forall i | 0 <= i < |order| :: order[i] in split
    requires forall name <- split :: split[name] == Of(rows, table, part(name), moment)
    requires forall a, b, id | id in part(a) && id in part(b) :: a == b
    ensures SumOver(order, split) == Of(rows, table, UnionOver(order, part), moment)
  {
    if order == [] {
      NobodysBacklog(Shares(rows, moment), table);
    } else {
      var init, last := order[..|order| - 1], order[|order| - 1];
      PartsAddUp(rows, table, moment, init, split, part);
      forall id | id in UnionOver(init, part) && id in part(last) ensures false {
        InUnion(init, part, id);
      }
      ScansAdd(Shares(rows, moment), table, UnionOver(init, part), part(last));
    }
  }

  /** The receivers' backlogs, and the lanes', sum to the totals; the earliest age of
      any receiver, and of any lane, is the outbox's. */
  lemma SplitsSumToTotals(rows: map<int, Row>, table: seq<int>, moment: Time, totals: Backlog, order: seq<string>,
                          split: map<string, Backlog>, part: string -> set<int>)
    requires totals == Of(rows, table, rows.Keys, moment)
    requires Distinct(order) && forall i | 0 <= i < |order| :: order[i] in split
    requires forall name <- split :: split[name] == Of(rows, table, part(name), moment)
    requires forall a, b, id | id in part(a) && id in part(b) :: a == b
    requires forall id :: id in AllIds(rows) <==> exists i :: 0 <= i < |order| && id in part(order[i])
    ensures SumOver(order, split) == totals
  {
    PartsAddUp(rows, table, moment, order, split, part);
    forall id ensures id in UnionOver(order, part) <==> id in AllIds(rows) {
      InUnion(order, part, id);
    }
    assert UnionOver(order, part) == AllIds(rows);
    CountedRowsAreAll(rows, table, moment);
  }

  /** Rows neither owed nor dead are in no backlog. */
  lemma CountedRowsAreAll(rows: map<int, Row>, table: seq<int>, moment: Time)
    ensures Of(rows, table, AllIds(rows), moment) == Of(rows, table, rows.Keys, moment)
  {
    forall id <- rows.Keys | id !in AllIds(rows) ensures Shares(rows, moment)(id) == NOTHING {
      ShareIs(rows, moment, id);
      assert Counted(rows[id]) <==> id in AllIds(rows);
    }
    OthersAddNothing(Shares(rows, moment), table, AllIds(rows), rows.Keys);
  }

  lemma ReceiversSumToTotals(rows: map<int, Row>, table: seq<int>, moment: Time, totals: Backlog,
                             receivers: map<string, Backlog>,
                             order: seq<string>)
    requires totals == Of(rows, table, rows.Keys, moment) && receivers.Keys == BehindKeys(rows)
    requires forall key <- receivers :: receivers[key] == Of(rows, table, KeyIds(rows, key), moment)
    requires Distinct(order) && forall key :: key in order <==> key in receivers
    ensures SumOver(order, receivers) == totals
  {
    var part := (key: string) => KeyIds(rows, key);
    forall id ensures id in AllIds(rows) <==> exists i :: 0 <= i < |order| && id in part(order[i]) {
      if id in AllIds(rows) {
        assert rows[id].key in BehindKeys(rows);
        var i :| 0 <= i < |order| && order[i] == rows[id].key;
        assert id in part(order[i]);
      }
    }
    SplitsSumToTotals(rows, table, moment, totals, order, receivers, part);
  }

  lemma LanesSumToTotals(rows: map<int, Row>, table: seq<int>, rs: Receivers, moment: Time, totals: Backlog,
                         lanes: map<string, Backlog>,
                         order: seq<string>)
    requires Keyed(rs) && totals == Of(rows, table, rows.Keys, moment) && lanes.Keys == Lanes(rs)
    requires forall lane <- lanes :: lanes[lane] == Of(rows, table, LaneIds(rows, rs, lane, BehindKeys(rows)), moment)
    requires Distinct(order) && forall lane :: lane in order <==> lane in lanes
    ensures SumOver(order, lanes) == totals
  {
    var part := (lane: string) => LaneIds(rows, rs, lane, BehindKeys(rows));
    forall id ensures id in AllIds(rows) <==> exists i :: 0 <= i < |order| && id in part(order[i]) {
      if id in AllIds(rows) {
        LanesPartition(rs, rows[id].key, DEFAULT_LANE);
        assert LaneForKey(rs, rows[id].key) in lanes;
        var i :| 0 <= i < |order| && order[i] == LaneForKey(rs, rows[id].key);
        assert rows[id].key in BehindKeys(rows);
        assert id in part(order[i]);
      }
    }
    SplitsSumToTotals(rows, table, moment, totals, order, lanes, part);
  }

  /** And each lane's backlog is of exactly the rows its claim would find there: those a
      claim of the lane accepts by their key. */
  lemma LaneCountsWhatItClaims(rows: map<int, Row>, rs: Receivers, lane: string, id: int)
    requires Keyed(rs) && lane in Lanes(rs)
    ensures id in LaneIds(rows, rs, lane, BehindKeys(rows)) <==>
            id in rows && Counted(rows[id]) && InLane(rs, Some(lane), rows[id].key)
  {
    if id in rows {
      LanesPartition(rs, rows[id].key, lane);
      if Counted(rows[id]) {
        assert rows[id].key in BehindKeys(rows);
      }
    }
  }
}
