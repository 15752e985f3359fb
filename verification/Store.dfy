/** The tables: delivery rows, event rows, and the prune's newest-success table. */
module Store {
  import opened Rows
  import opened Retention

  class Outbox {
    var rows: map<int, Row>
    var events: map<int, Event>
    var side: map<string, Time>

    constructor ()
      ensures rows == map[] && events == map[] && side == map[]
    {
      rows, events, side := map[], map[], map[];
    }
  }

  /** One UPDATE over the rows named. */
  function Updated(rows: map<int, Row>, ids: set<int>, write: Row -> Row): map<int, Row> {
    map id | id in rows :: if id in ids then write(rows[id]) else rows[id]
  }

  lemma EmptyOrNot(s: set<int>)
    ensures s == {} || exists a :: a in s
  {
    if forall a :: a !in s {
      assert s == {};
    }
  }

  lemma SomeKey(s: set<string>)
    ensures s == {} || exists k :: k in s
  {
    if forall k :: k !in s {
      assert s == {};
    }
  }

  predicate Distinct<T(==)>(xs: seq<T>) {
    forall i, j | 0 <= i < j < |xs| :: xs[i] != xs[j]
  }

  predicate Increasing(ids: seq<int>) {
    forall i, j | 0 <= i < j < |ids| :: ids[i] < ids[j]
  }

  lemma {:induction false} LeastExists(s: set<int>)
    requires s != {}
    ensures exists a <- s :: forall b <- s :: a <= b
  {
    EmptyOrNot(s);
    var a :| a in s;
    if s == {a} {
    } else {
      LeastExists(s - {a});
      var b :| b in s - {a} && forall c <- s - {a} :: b <= c;
      var least := if a <= b then a else b;
      assert forall c <- s :: c == a || c in s - {a};
      assert forall c <- s :: least <= c;
    }
  }

  /** A set in key order. */
  ghost function Ascending(s: set<int>): (ids: seq<int>)
    ensures Increasing(ids) && |ids| == |s|
    ensures forall x :: x in ids <==> x in s
  {
    if s == {} then
      []
    else
      LeastExists(s);
      var a :| a in s && forall b <- s :: a <= b;
      [a] + Ascending(s - {a})
  }

  lemma LeastComesFirst(s: set<int>, x: int)
    requires x in s && forall b <- s :: x <= b
    ensures Ascending(s) == [x] + Ascending(s - {x})
  {
    LeastExists(s);
    var a :| a in s && (forall b <- s :: a <= b) && Ascending(s) == [a] + Ascending(s - {a});
    assert a <= x <= a;
  }

  lemma Regroup(ids: seq<int>, x: int, rest: seq<int>)
    ensures ids + ([x] + rest) == (ids + [x]) + rest
  {
  }

  method InOrder(s: set<int>) returns (ids: seq<int>)
    ensures ids == Ascending(s)
  {
    ids := [];
    var left := s;
    while left != {}
      invariant ids + Ascending(left) == Ascending(s)
      decreases left
    {
      LeastExists(left);
      var x :| x in left && forall b <- left :: x <= b;
      LeastComesFirst(left, x);
      Regroup(ids, x, Ascending(left - {x}));
      ids, left := ids + [x], left - {x};
    }
  }

  /** The positions below `n` where something holds. */
  function Positions(n: nat, holds: nat -> bool): set<nat> {
    set k: nat | k < n && holds(k)
  }

  lemma PositionsGrow(n: nat, holds: nat -> bool)
    ensures |Positions(n + 1, holds)| == |Positions(n, holds)| + if holds(n) then 1 else 0
  {
    var before, after := Positions(n, holds), Positions(n + 1, holds);
    assert forall k :: k in after <==> k in before || (k == n && holds(n));
    SetGrows(before, after, n, holds(n));
  }

  lemma SetGrows(before: set<nat>, after: set<nat>, n: nat, more: bool)
    requires n !in before && forall k :: k in after <==> k in before || (k == n && more)
    ensures |after| == |before| + if more then 1 else 0
  {
    assert after == before + if more then {n} else {};
  }

  /** A primary key past every row's. */
  method FirstFree(rows: map<int, Row>) returns (id: int)
    ensures forall x <- rows :: x < id
  {
    id := 1;
    var left := rows.Keys;
    while left != {}
      invariant left <= rows.Keys && forall x <- rows | x !in left :: x < id
      decreases left
    {
      EmptyOrNot(left);
      var x :| x in left;
      if x >= id {
        id := x + 1;
      }
      left := left - {x};
    }
  }

  lemma SubsetSize(a: set<int>, b: set<int>)
    requires a <= b
    ensures |a| <= |b|
  {
    assert b == a + (b - a);
  }

  lemma {:induction false} DistinctSize(ids: seq<int>)
    requires Distinct(ids)
    ensures |set id | id in ids| == |ids|
  {
    if ids != [] {
      var init, last := ids[..|ids| - 1], ids[|ids| - 1];
      DistinctSize(init);
      assert ids == init + [last];
      assert (set id | id in ids) == (set id | id in init) + {last};
      assert last !in init;
    }
  }
}
