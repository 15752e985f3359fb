/** `deliver_pending` under a limit: how the lanes share it, whatever is claimable at
    each claim and whatever the receivers do, on any clock. */
module Shares {
  import opened Rows
  import opened Registry
  import opened Serving
  import opened Store
  import opened Claims
  import opened Deliver

  /** What the call meets at its `k`-th claim: how many rows are claimable then, and
      after how many deliveries of the batch one defers its lane, if one does. */
  datatype Met = Met(backlog: nat -> nat, defersAt: nat -> Option<nat>)

  /** One lane's turn: its share of what remained, and what became of it. */
  datatype Turn = Turn(lane: string, left: nat, before: nat, size: nat, backlog: nat, attempted: nat, deferred: bool)

  /** What remains over the lanes left, rounded up. */
  function ShareOf(remaining: nat, left: nat): nat
    requires left > 0
  {
    if remaining == 0 then 0 else if remaining <= left then 1 else 1 + ShareOf(remaining - left, left)
  }

  function Claimed(t: Turn): nat {
    Min(t.size, t.backlog)
  }

  /** A turn as the `k`-th claim goes: the batch is delivered up to the deferral. */
  predicate Went(t: Turn, met: Met, k: nat) {
    && t.backlog == met.backlog(k)
    && (t.deferred <==> met.defersAt(k).Some? && 1 <= met.defersAt(k).value <= Claimed(t))
    && t.attempted == if t.deferred then met.defersAt(k).value else Claimed(t)
  }

  function Spent(trace: seq<Turn>): nat {
    if trace == [] then 0 else Spent(trace[..|trace| - 1]) + trace[|trace| - 1].attempted
  }

  /** A lane is done with once it defers, or is found drained: short of its share. */
  predicate Closes(t: Turn) {
    t.deferred || Claimed(t) < t.size
  }

  function ClosedBy(trace: seq<Turn>): set<string> {
    if trace == [] then {}
    else ClosedBy(trace[..|trace| - 1]) + if Closes(trace[|trace| - 1]) then {trace[|trace| - 1].lane} else {}
  }

  /** What is left of the limit. */
  function Left(trace: seq<Turn>, limit: nat): int {
    if trace == [] then limit else trace[|trace| - 1].before - trace[|trace| - 1].attempted
  }

  /** Each turn goes as it was met, to a lane not closed, with some of the limit left. */
  predicate Served(trace: seq<Turn>, met: Met, lanes: seq<string>, limit: nat) {
    trace != [] ==>
      var b, t := trace[..|trace| - 1], trace[|trace| - 1];
      && Served(b, met, lanes, limit)
      && 0 < t.before == Left(b, limit) && t.size <= t.before
      && 1 <= t.left <= |lanes| && t.lane in lanes && t.lane !in ClosedBy(b) && Went(t, met, |b|)
  }

  /** Each turn's share is an equal one, rounded up, among the lanes left in the rotation. */
  predicate Shared(trace: seq<Turn>) {
    trace != [] ==>
      var t := trace[|trace| - 1];
      Shared(trace[..|trace| - 1]) && t.left > 0 && t.size == ShareOf(t.before, t.left)
  }

  /** Every attempt is spent from the limit, and never more than there is. */
  lemma {:induction false} LimitIsSpent(trace: seq<Turn>, met: Met, lanes: seq<string>, limit: nat)
    requires Served(trace, met, lanes, limit)
    ensures Left(trace, limit) == limit - Spent(trace) >= 0
  {
    if trace != [] {
      LimitIsSpent(trace[..|trace| - 1], met, lanes, limit);
    }
  }

  lemma TraceGrows(trace: seq<Turn>, t: Turn)
    ensures trace + [t] != []
    ensures (trace + [t])[..|trace + [t]| - 1] == trace && (trace + [t])[|trace + [t]| - 1] == t
  {
  }

  function Times(floor: nat, n: nat): nat {
    if n == 0 then 0 else Times(floor, n - 1) + floor
  }

  lemma {:induction false} TimesMultiplies(floor: nat, n: nat)
    ensures Times(floor, n) == floor * n
  {
    if n > 0 {
      TimesMultiplies(floor, n - 1);
      assert floor * n == floor * (n - 1) + floor;
    }
  }

  /** What remains can give each of `n` lanes the floor. */
  predicate Affords(remaining: nat, floor: nat, n: nat) {
    remaining >= Times(floor, n)
  }

  lemma MulMono(a: nat, b: nat, n: nat)
    requires a <= b
    ensures a * n <= b * n
  {
    assert b * n == a * n + (b - a) * n;
  }

  /** The share is the ceiling of the quotient. */
  lemma {:induction false} ShareIsCeiling(a: nat, b: nat)
    requires b > 0
    ensures ShareOf(a, b) * b >= a
    ensures a > 0 ==> ShareOf(a, b) >= 1 && (ShareOf(a, b) - 1) * b < a
  {
    if a > b {
      ShareIsCeiling(a - b, b);
      var q := ShareOf(a - b, b);
      assert (q + 1) * b == q * b + b && q * b == (q - 1) * b + b;
    }
  }

  lemma OneShareMore(size: nat, floor: nat, left: nat)
    requires size < floor
    ensures size * left + left <= floor * left
  {
    MulMono(size + 1, floor, left);
  }

  /** An equal share is at least the floor, and leaves the others theirs. */
  lemma ShareLeaves(remaining: nat, left: nat, floor: nat)
    requires left >= 1 && Affords(remaining, floor, left) && remaining > 0
    ensures floor <= ShareOf(remaining, left) && 1 <= ShareOf(remaining, left) <= remaining
    ensures Affords(remaining - ShareOf(remaining, left), floor, left - 1)
  {
    var size := ShareOf(remaining, left);
    ShareIsCeiling(remaining, left);
    TimesMultiplies(floor, left);
    TimesMultiplies(floor, left - 1);
    assert (size - 1) * left == (size - 1) * (left - 1) + (size - 1);
    MulMono(0, size - 1, left - 1);
    if size > floor {
      MulMono(floor, size - 1, left - 1);
    } else if size < floor {
      OneShareMore(size, floor, left);
      assert false;
    }
  }

  lemma {:induction false} NothingToShare(floor: nat, left: nat)
    requires Affords(0, floor, left) && left > 0
    ensures floor == 0
  {
  }

  lemma NoFloor(remaining: nat, n: nat)
    ensures Affords(remaining, 0, n)
  {
    TimesMultiplies(0, n);
  }

  /** The whole part of the limit over the number of lanes. */
  function FloorOf(limit: nat, n: nat): (r: nat)
    requires n > 0
    ensures r * n <= limit < r * n + n
  {
    DivRounds(limit, n);
    limit / n
  }

  lemma FloorFits(limit: nat, n: nat)
    requires n > 0
    ensures Affords(limit, FloorOf(limit, n), n)
  {
    TimesMultiplies(FloorOf(limit, n), n);
  }

  /** The lane's turn was worth the floor: unless it deferred, every claimable row was
      attempted, or at least that many. */
  predicate Fair(t: Turn, lane: string, floor: nat) {
    t.lane == lane && (t.deferred || t.attempted >= Min(t.backlog, floor))
  }

  /** The first turns of a rotation were each worth the floor. */
  predicate FairTurns(turns: seq<Turn>, rotation: seq<string>, floor: nat) {
    turns != [] ==>
      && |turns| <= |rotation|
      && FairTurns(turns[..|turns| - 1], rotation, floor)
      && Fair(turns[|turns| - 1], rotation[|turns| - 1], floor)
  }

  lemma {:induction false} FairAt(turns: seq<Turn>, rotation: seq<string>, floor: nat, i: nat)
    requires FairTurns(turns, rotation, floor) && i < |turns|
    ensures i < |rotation| && Fair(turns[i], rotation[i], floor)
  {
    if i < |turns| - 1 {
      FairAt(turns[..|turns| - 1], rotation, floor, i);
    }
  }

  /** One claim of a lane, and its deliveries up to a deferral. */
  method Take(met: Met, lane: string, left: nat, before: nat, size: nat, k: nat) returns (t: Turn)
    requires size >= 1
    ensures t.lane == lane && t.left == left && t.before == before && t.size == size && Went(t, met, k)
  {
    var backlog := met.backlog(k);
    var ids := Min(size, backlog);
    var attempted, deferred := 0, false;
    while attempted < ids && !deferred
      invariant attempted <= ids
      invariant deferred ==> met.defersAt(k) == Some(attempted) && attempted >= 1
      invariant !deferred ==> met.defersAt(k).None? || met.defersAt(k).value == 0 || met.defersAt(k).value > attempted
    {
      attempted := attempted + 1;
      deferred := met.defersAt(k) == Some(attempted);
    }
    t := Turn(lane, left, before, size, backlog, attempted, deferred);
  }

  /** What the call tracks, by its trace. */
  predicate Tracks(remaining: nat, closed: set<string>, trace: seq<Turn>, met: Met, lanes: seq<string>, limit: nat) {
    Served(trace, met, lanes, limit) && Shared(trace) && remaining == Left(trace, limit) && closed == ClosedBy(trace)
  }

  /** Mid-rotation, after these turns of it: nobody to come is closed, what remains
      affords each of them the floor, and each turn was worth it. */
  predicate Rotating(remaining: nat, closed: set<string>, turns: seq<Turn>, rotation: seq<string>, floor: nat) {
    && |turns| <= |rotation|
    && (forall i | |turns| <= i < |rotation| :: rotation[i] !in closed)
    && Affords(remaining, floor, |rotation| - |turns|) && FairTurns(turns, rotation, floor)
  }

  /** Nothing was claimed, and so every lane so far is closed. */
  predicate Idle(closed: set<string>, turns: seq<Turn>, rotation: seq<string>) {
    |turns| <= |rotation| && forall i | 0 <= i < |turns| :: rotation[i] in closed
  }

  lemma IdleGrows(closed: set<string>, more: set<string>, turns: seq<Turn>, rotation: seq<string>, t: Turn)
    requires Idle(closed, turns, rotation) && |turns| < |rotation| && closed <= more && rotation[|turns|] in more
    ensures Idle(more, turns + [t], rotation)
  {
  }

  /** One lane's turn: its share, claimed and delivered. */
  method TakeTurn(met: Met, lanes: seq<string>, lane: string, left: nat, limit: nat, remaining0: nat,
                  closed0: set<string>, trace0: seq<Turn>)
    returns (t: Turn, remaining: nat, closed: set<string>, trace: seq<Turn>)
    requires 1 <= left <= |lanes| && lane in lanes && lane !in closed0
    requires Tracks(remaining0, closed0, trace0, met, lanes, limit) && remaining0 > 0
    ensures Tracks(remaining, closed, trace, met, lanes, limit) && trace == trace0 + [t]
    ensures t.lane == lane && t.size == ShareOf(remaining0, left) && Went(t, met, |trace0|)
    ensures remaining == remaining0 - t.attempted
    ensures closed == if Closes(t) then closed0 + {lane} else closed0
  {
    NoFloor(remaining0, left);
    ShareLeaves(remaining0, left, 0);
    var size := ShareOf(remaining0, left);
    t := Take(met, lane, left, remaining0, size, |trace0|);
    remaining := remaining0 - t.attempted;
    closed := if Closes(t) then closed0 + {lane} else closed0;
    TraceGrows(trace0, t);
    trace := trace0 + [t];
  }

  /** What a turn leaves the rotation with. */
  lemma TurnRotates(remaining: nat, closed: set<string>, turns: seq<Turn>, rotation: seq<string>, floor: nat, t: Turn,
                    met: Met, k: nat)
    requires Rotating(remaining, closed, turns, rotation, floor) && |turns| < |rotation| && Distinct(rotation)
    requires remaining > 0 && t.lane == rotation[|turns|] && Went(t, met, k)
    requires t.size == ShareOf(remaining, |rotation| - |turns|)
    ensures t.attempted <= remaining
    ensures Rotating(remaining - t.attempted, if Closes(t) then closed + {t.lane} else closed, turns + [t], rotation,
                     floor)
    ensures t.attempted == 0 ==> Claimed(t) == 0 && Closes(t)
  {
    ShareLeaves(remaining, |rotation| - |turns|, floor);
    TraceGrows(turns, t);
  }

  /** Where a rotation stands, by its turns so far and where it began. */
  predicate Midway(claimed: bool, at: Standing, turns: seq<Turn>, from: Standing, met: Met, lanes: seq<string>,
                   rotation: seq<string>, limit: nat, floor: nat) {
    && Tracks(at.remaining, at.closed, at.trace, met, lanes, limit)
    && at.trace == from.trace + turns && from.closed <= at.closed
    && Rotating(at.remaining, at.closed, turns, rotation, floor)
    && if claimed then at.remaining < from.remaining
       else at.remaining == from.remaining && Idle(at.closed, turns, rotation)
  }

  datatype Standing = Standing(remaining: nat, closed: set<string>, trace: seq<Turn>)

  /** The next turn of a rotation. */
  method NextTurn(met: Met, lanes: seq<string>, rotation: seq<string>, limit: nat, claimed0: bool, at0: Standing,
                  turn: nat, ghost turns: seq<Turn>, ghost from: Standing, ghost floor: nat)
    returns (claimed: bool, at: Standing, ghost t: Turn)
    requires Distinct(rotation) && |rotation| <= |lanes| && forall i | 0 <= i < |rotation| :: rotation[i] in lanes
    requires Midway(claimed0, at0, turns, from, met, lanes, rotation, limit, floor)
    requires at0.remaining > 0 && turn == |turns| < |rotation|
    ensures Midway(claimed, at, turns + [t], from, met, lanes, rotation, limit, floor)
  {
    var took, remaining, closed, trace := TakeTurn(met, lanes, rotation[turn], |rotation| - turn, limit,
                                                   at0.remaining, at0.closed, at0.trace);
    t := took;
    at := Standing(remaining, closed, trace);
    claimed := claimed0 || Claimed(took) > 0;
    TurnRotates(at0.remaining, at0.closed, turns, rotation, floor, t, met, |at0.trace|);
    if t.attempted == 0 && !claimed0 {
      IdleGrows(at0.closed, closed, turns, rotation, t);
    }
    Regroup(from.trace, turns, t);
  }

  lemma Regroup(a: seq<Turn>, b: seq<Turn>, t: Turn)
    ensures a + (b + [t]) == (a + b) + [t]
  {
  }

  /** One rotation over the open lanes. Whatever `floor` the limit can afford each of
      them, each gets. */
  method Rotate(met: Met, lanes: seq<string>, rotation: seq<string>, limit: nat, from: Standing, ghost floor: nat)
    returns (claimed: bool, at: Standing, ghost turns: seq<Turn>)
    requires Distinct(rotation) && |rotation| <= |lanes| && forall i | 0 <= i < |rotation| :: rotation[i] in lanes
    requires Tracks(from.remaining, from.closed, from.trace, met, lanes, limit)
    requires Rotating(from.remaining, from.closed, [], rotation, floor)
    ensures Midway(claimed, at, turns, from, met, lanes, rotation, limit, floor)
    ensures |turns| < |rotation| ==> at.remaining == 0 == floor
  {
    claimed, at, turns := false, from, [];
    var turn := 0;
    while turn < |rotation|
      invariant turn == |turns| <= |rotation|
      invariant Midway(claimed, at, turns, from, met, lanes, rotation, limit, floor)
    {
      if at.remaining == 0 {
        NothingToShare(floor, |rotation| - turn);
        return;
      }
      ghost var t;
      claimed, at, t := NextTurn(met, lanes, rotation, limit, claimed, at, turn, turns, from, floor);
      turns := turns + [t];
      turn := turn + 1;
    }
  }

  lemma OpenRotates(remaining: nat, closed: set<string>, lanes: seq<string>, floor: nat, first: bool)
    requires Distinct(lanes) && (if first then closed == {} && Affords(remaining, floor, |lanes|) else floor == 0)
    ensures var rotation := OpenLanes(lanes, closed);
            && (forall i | 0 <= i < |rotation| :: rotation[i] in lanes)
            && Rotating(remaining, closed, [], rotation, floor)
  {
    var rotation := OpenLanes(lanes, closed);
    forall i | 0 <= i < |rotation| ensures rotation[i] in lanes && rotation[i] !in closed {
      assert rotation[i] in rotation;
    }
    NoFloor(remaining, |rotation|);
  }

  /** A whole rotation of the lanes open before it closed every one of them. */
  lemma IdleIsClosed(closed: set<string>, turns: seq<Turn>, lanes: seq<string>, was: set<string>)
    requires was <= closed && Idle(closed, turns, OpenLanes(lanes, was)) && |turns| == |OpenLanes(lanes, was)|
    ensures AllClosed(lanes, closed)
  {
    var rotation := OpenLanes(lanes, was);
    forall i | 0 <= i < |lanes| ensures lanes[i] in closed {
      assert lanes[i] in lanes;
      if lanes[i] !in was {
        var j :| 0 <= j < |rotation| && rotation[j] == lanes[i];
      }
    }
  }

  /** One rotation of whichever lanes are open. */
  method RotateOpen(met: Met, lanes: seq<string>, limit: nat, from: Standing, ghost floor: nat)
    returns (claimed: bool, at: Standing, ghost turns: seq<Turn>)
    requires Distinct(lanes) && Tracks(from.remaining, from.closed, from.trace, met, lanes, limit)
    requires floor == 0 || (from.closed == {} && Affords(from.remaining, floor, |lanes|))
    ensures Tracks(at.remaining, at.closed, at.trace, met, lanes, limit) && at.trace == from.trace + turns
    ensures if claimed then at.remaining < from.remaining
            else at.remaining == from.remaining && (at.remaining == 0 || AllClosed(lanes, at.closed))
    ensures from.closed == {} ==> FairTurns(turns, lanes, floor) && (floor > 0 ==> |turns| == |lanes|)
  {
    var rotation := OpenLanes(lanes, from.closed);
    OpenRotates(from.remaining, from.closed, lanes, floor, floor > 0);
    claimed, at, turns := Rotate(met, lanes, rotation, limit, from, floor);
    if !claimed && at.remaining > 0 {
      IdleIsClosed(at.closed, turns, lanes, from.closed);
    }
  }

  predicate AllClosed(lanes: seq<string>, closed: set<string>) {
    forall i | 0 <= i < |lanes| :: lanes[i] in closed
  }

  /** Rotate until a rotation claims nothing or the limit is spent. */
  method Drive(met: Met, lanes: seq<string>, limit: nat, ghost floor: nat)
    returns (at: Standing, ghost first: seq<Turn>)
    requires Distinct(lanes) && Affords(limit, floor, |lanes|)
    ensures Tracks(at.remaining, at.closed, at.trace, met, lanes, limit)
    ensures at.remaining == 0 || AllClosed(lanes, at.closed)
    ensures first <= at.trace && FairTurns(first, lanes, floor) && (floor > 0 ==> |first| == |lanes|)
  {
    var claimed;
    claimed, at, first := RotateOpen(met, lanes, limit, Standing(limit, {}, []), floor);
    assert at.trace == first;
    while claimed
      invariant Tracks(at.remaining, at.closed, at.trace, met, lanes, limit) && first <= at.trace
      invariant !claimed ==> at.remaining == 0 || AllClosed(lanes, at.closed)
      decreases at.remaining, claimed
    {
      ghost var turns;
      claimed, at, turns := RotateOpen(met, lanes, limit, at, 0);
    }
  }

  /** The limited call ends; it never attempts more than the limit; on return the limit
      is spent, or every lane deferred or was found drained; and in the first rotation a
      lane that did not defer had all it could claim attempted, or the limit's share. */
  method DeliverLimited(met: Met, lanes: seq<string>, limit: nat) returns (at: Standing, ghost first: seq<Turn>)
    requires Distinct(lanes)
    ensures Tracks(at.remaining, at.closed, at.trace, met, lanes, limit) && at.remaining + Spent(at.trace) == limit
    ensures at.remaining == 0 || AllClosed(lanes, at.closed)
    ensures first <= at.trace
    ensures lanes != [] ==>
              var floor := FloorOf(limit, |lanes|);
              FairTurns(first, lanes, floor) && (floor > 0 ==> |first| == |lanes|)
    ensures ReadsOff(at, met, lanes, limit)
  {
    if lanes == [] {
      NoFloor(limit, 0);
      at, first := Drive(met, lanes, limit, 0);
    } else {
      FloorFits(limit, |lanes|);
      at, first := Drive(met, lanes, limit, FloorOf(limit, |lanes|));
    }
    LimitIsSpent(at.trace, met, lanes, limit);
    TraceReadsOff(at, met, lanes, limit);
  }

  /** The lane's turn was its last: it deferred, or had fewer rows to claim than its share. */
  predicate IsOver(t: Turn) {
    t.deferred || t.backlog < t.size
  }

  /** A turn, by itself: a share of what it began with, of which it attempted what was
      claimable, up to the first of the batch that deferred. */
  predicate TurnReadsOff(t: Turn) {
    && 0 < t.size <= t.before && t.left > 0
    && t.size * t.left >= t.before && (t.size - 1) * t.left < t.before
    && if t.deferred then 0 < t.attempted && t.attempted <= t.size && t.attempted <= t.backlog
       else t.attempted == if t.backlog < t.size then t.backlog else t.size
  }

  /** The call's turns, one after another: each begins with what the one before left of the
      limit, and no lane has another after it deferred or was found drained. If some of the
      limit is left, that has come of every lane. */
  predicate ReadsOff(at: Standing, met: Met, lanes: seq<string>, limit: nat) {
    && (forall k | 0 <= k < |at.trace| :: TurnReadsOff(at.trace[k]) && at.trace[k].lane in lanes)
    && (forall k | 0 <= k < |at.trace| ::
          at.trace[k].before == if k == 0 then limit else at.trace[k - 1].before - at.trace[k - 1].attempted)
    && at.remaining == (if at.trace == [] then limit
                        else at.trace[|at.trace| - 1].before - at.trace[|at.trace| - 1].attempted)
    && (forall i, j | 0 <= i < j < |at.trace| && at.trace[i].lane == at.trace[j].lane :: !IsOver(at.trace[i]))
    && (at.remaining > 0 ==>
          forall lane <- lanes :: exists k :: 0 <= k < |at.trace| && at.trace[k].lane == lane && IsOver(at.trace[k]))
  }

  lemma {:induction false} ClosedReadsOff(trace: seq<Turn>, lane: string)
    ensures lane in ClosedBy(trace) <==> exists k :: 0 <= k < |trace| && trace[k].lane == lane && IsOver(trace[k])
  {
    if trace != [] {
      var b := trace[..|trace| - 1];
      ClosedReadsOff(b, lane);
      if lane in ClosedBy(b) {
        var k :| 0 <= k < |b| && b[k].lane == lane && IsOver(b[k]);
        assert trace[k] == b[k];
      } else if lane in ClosedBy(trace) {
        assert IsOver(trace[|trace| - 1]) && trace[|trace| - 1].lane == lane;
      }
    }
  }

  lemma {:induction false} TurnAt(trace: seq<Turn>, met: Met, lanes: seq<string>, limit: nat, k: nat)
    requires Served(trace, met, lanes, limit) && Shared(trace) && k < |trace|
    ensures TurnReadsOff(trace[k]) && trace[k].lane in lanes && trace[k].lane !in ClosedBy(trace[..k])
    ensures trace[k].before == if k == 0 then limit else trace[k - 1].before - trace[k - 1].attempted
  {
    var b := trace[..|trace| - 1];
    if k < |b| {
      TurnAt(b, met, lanes, limit, k);
      assert b[..k] == trace[..k];
    } else {
      ShareIsCeiling(trace[k].before, trace[k].left);
      assert b == trace[..k];
    }
  }

  lemma TraceReadsOff(at: Standing, met: Met, lanes: seq<string>, limit: nat)
    requires Tracks(at.remaining, at.closed, at.trace, met, lanes, limit)
    requires at.remaining == 0 || AllClosed(lanes, at.closed)
    ensures ReadsOff(at, met, lanes, limit)
  {
    forall k | 0 <= k < |at.trace|
      ensures TurnReadsOff(at.trace[k]) && at.trace[k].lane in lanes
      ensures at.trace[k].before == if k == 0 then limit else at.trace[k - 1].before - at.trace[k - 1].attempted
    {
      TurnAt(at.trace, met, lanes, limit, k);
    }
    forall i, j | 0 <= i < j < |at.trace| && at.trace[i].lane == at.trace[j].lane ensures !IsOver(at.trace[i]) {
      TurnAt(at.trace, met, lanes, limit, j);
      ClosedReadsOff(at.trace[..j], at.trace[i].lane);
      assert at.trace[..j][i] == at.trace[i];
    }
    forall lane <- lanes | at.remaining > 0
      ensures exists k :: 0 <= k < |at.trace| && at.trace[k].lane == lane && IsOver(at.trace[k])
    {
      ClosedReadsOff(at.trace, lane);
    }
  }

  // ---- A turn on the rows themselves --------------------------------------------------

  /** Who claims, when, and leaving out which rows. */
  datatype Claimer = Claimer(worker: string, now: Time, ignoreBackoff: bool, excluded: set<int>)

  function Backlog(rows: map<int, Row>, lane: string, c: Claimer, rs: Receivers): set<int> {
    Candidates(rows, rs, c.now, Scope(Some(lane), None, c.excluded, c.ignoreBackoff))
  }

  /** The rows once the first `n` of the batch were delivered. */
  function DeliveredRows(rows: map<int, Row>, ids: seq<int>, n: nat, course: Course): (r: map<int, Row>)
    requires n <= |ids| && AllIn(ids, rows)
    ensures r.Keys == rows.Keys
  {
    if n == 0 then rows
    else
      var before := DeliveredRows(rows, ids, n - 1, course);
      before[ids[n - 1] := course(n - 1, before[ids[n - 1]]).row]
  }

  predicate DefersAt(rows: map<int, Row>, ids: seq<int>, n: nat, course: Course)
    requires n < |ids| && AllIn(ids, rows)
  {
    course(n, DeliveredRows(rows, ids, n, course)[ids[n]]).deferred
  }

  /** None of the first `n` deliveries defers. */
  predicate NoneDefers(rows: map<int, Row>, ids: seq<int>, n: nat, course: Course)
    requires n <= |ids| && AllIn(ids, rows)
  {
    n == 0 || (NoneDefers(rows, ids, n - 1, course) && !DefersAt(rows, ids, n - 1, course))
  }

  /** Where a batch stands after so many deliveries: the last of them has deferred, or
      none has. */
  predicate Partway(start: map<int, Row>, ids: seq<int>, n: nat, deferred: bool, rows: map<int, Row>, course: Course)
    requires AllIn(ids, start)
  {
    && n <= |ids| && rows == DeliveredRows(start, ids, n, course)
    && if deferred then
         n > 0 && NoneDefers(start, ids, n - 1, course) && DefersAt(start, ids, n - 1, course)
       else
         NoneDefers(start, ids, n, course)
  }

  /** The `n`-th delivery of a batch. */
  method DeliverRow(db: Outbox, rs: Receivers, s: Settings, ids: seq<int>, c: Claimer, fate: Fate, n: nat,
                    ghost start: map<int, Row>, ghost course: Course)
    returns (deferred: bool)
    requires n < |ids| && AllIn(ids, start) && course == CourseFrom(c.worker, fate, rs, s)
    requires Partway(start, ids, n, false, db.rows, course)
    modifies db`rows
    ensures Partway(start, ids, n + 1, deferred, db.rows, course)
  {
    CourseAt(n, db.rows[ids[n]], c.worker, fate, rs, s);
    var outcome;
    outcome, deferred := DispatchOne(db, rs, s, ids[n], c.worker, fate.attempts(n), fate.handOffs(n));
  }

  /** Deliver a claimed batch up to its first deferral. */
  method DeliverRows(db: Outbox, rs: Receivers, s: Settings, ids: seq<int>, c: Claimer, fate: Fate,
                     ghost start: map<int, Row>, ghost course: Course)
    returns (attempted: nat, deferred: bool)
    requires AllIn(ids, start) && db.rows == start && course == CourseFrom(c.worker, fate, rs, s)
    modifies db`rows
    ensures Partway(start, ids, attempted, deferred, db.rows, course) && (!deferred ==> attempted == |ids|)
  {
    attempted, deferred := 0, false;
    while attempted < |ids| && !deferred
      invariant Partway(start, ids, attempted, deferred, db.rows, course)
      decreases |ids| - attempted
    {
      deferred := DeliverRow(db, rs, s, ids, c, fate, attempted, start, course);
      attempted := attempted + 1;
    }
  }

  /** Deliver a claimed batch up to its first deferral, and hand the rest back. */
  method DeliverClaimed(db: Outbox, rs: Receivers, s: Settings, ids: seq<int>, c: Claimer, fate: Fate)
    returns (attempted: nat, deferred: bool)
    requires AllIn(ids, db.rows)
    modifies db`rows
    ensures attempted <= |ids| && (!deferred ==> attempted == |ids|)
    ensures var course := CourseFrom(c.worker, fate, rs, s);
            var delivered := DeliveredRows(old(db.rows), ids, attempted, course);
            && Partway(old(db.rows), ids, attempted, deferred, delivered, course)
            && db.rows == HandedBackRows(delivered, ids[attempted..], Token(c.worker, Some(c.now)))
  {
    attempted, deferred := DeliverRows(db, rs, s, ids, c, fate, db.rows, CourseFrom(c.worker, fate, rs, s));
    if deferred {
      var _ := HandBack(db, ids[attempted..], c.worker, c.now);
    } else {
      NothingHandedBack(db.rows, Token(c.worker, Some(c.now)));
    }
  }

  lemma NothingHandedBack(rows: map<int, Row>, claim: Token)
    ensures HandedBackRows(rows, [], claim) == rows
  {
  }

  /** What a turn meets is the rows: its backlog is what its claim could take, the first
      of which, as many as its share, it does take; it attempts them in order up to the
      first that defers, and hands the rest back. So the turn went as `Went` says, of
      whatever call met as much. */
  method TurnOnRows(db: Outbox, rs: Receivers, s: Settings, lane: string, left: nat, before: nat, size: nat,
                    lease: nat, c: Claimer, fate: Fate, ghost met: Met, ghost k: nat)
    returns (t: Turn, ids: seq<int>)
    requires met.backlog(k) == |Backlog(db.rows, lane, c, rs)|
    modifies db`rows
    ensures t.lane == lane && t.left == left && t.before == before && t.size == size
    ensures Foremost(old(db.rows), Backlog(old(db.rows), lane, c, rs), size, ids) && Claimed(t) == |ids|
    ensures AllIn(ids, old(db.rows)) && t.attempted <= |ids| && (!t.deferred ==> t.attempted == |ids|)
    ensures var held := ClaimedRows(old(db.rows), ids, c.worker, c.now, lease);
            var course := CourseFrom(c.worker, fate, rs, s);
            var delivered := DeliveredRows(held, ids, t.attempted, course);
            && Partway(held, ids, t.attempted, t.deferred, delivered, course)
            && db.rows == HandedBackRows(delivered, ids[t.attempted..], Token(c.worker, Some(c.now)))
    ensures met.defersAt(k) == (if t.deferred then Some(t.attempted) else None) ==> Went(t, met, k)
  {
    var backlog := |Backlog(db.rows, lane, c, rs)|;
    ids := ClaimBatch(db, rs, c.worker, c.now, lease, size, Scope(Some(lane), None, c.excluded, c.ignoreBackoff));
    var attempted, deferred := DeliverClaimed(db, rs, s, ids, c, fate);
    t := Turn(lane, left, before, size, backlog, attempted, deferred);
  }
}
