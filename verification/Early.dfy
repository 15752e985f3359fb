/** A run in which a receiver starts before its row is due: one that read the row
    unclaimed, and is not asked again. Its work is rolled back when it ends. */
module Early {
  import opened Rows
  import opened Protocol
  import opened Retention
  import opened World

  // ---- One row's steps make a run --------------------------------------------------

  /** `acts[i]`, at `times[i]`, takes `cells[i]` to `cells[i + 1]`. */
  ghost predicate Traced(cells: seq<Cell>, times: seq<Time>, acts: seq<Action>) {
    && |cells| == |acts| + 1 && |times| == |acts|
    && forall i | 0 <= i < |acts| :: TracedAt(cells, times, acts, i)
  }

  ghost predicate TracedAt(cells: seq<Cell>, times: seq<Time>, acts: seq<Action>, i: nat)
    requires |cells| == |acts| + 1 && |times| == |acts| && i < |acts|
  {
    && 0 <= times[i] && (i > 0 ==> times[i - 1] <= times[i])
    && !Reopens(acts[i]) && Enabled(cells[i], times[i], acts[i])
    && cells[i + 1] == Protocol.After(cells[i], times[i], acts[i])
  }

  lemma TraceGrows(cells: seq<Cell>, times: seq<Time>, acts: seq<Action>, now: Time, a: Action)
    requires Traced(cells, times, acts) && 0 <= now && (times != [] ==> times[|times| - 1] <= now)
    requires !Reopens(a) && Enabled(cells[|acts|], now, a)
    ensures Traced(cells + [Protocol.After(cells[|acts|], now, a)], times + [now], acts + [a])
  {
    var cells', times', acts' := cells + [Protocol.After(cells[|acts|], now, a)], times + [now], acts + [a];
    forall i | 0 <= i < |acts'| ensures TracedAt(cells', times', acts', i) {
      if i < |acts| {
        assert TracedAt(cells, times, acts, i);
      }
    }
  }

  lemma RunGrows(ws: seq<World>, ss: seq<Step>, now: Time, s: Step)
    requires IsRun(ws, ss) && Possible(ws[|ss|], now, s)
    ensures Next(ws[|ss|], now, s).clock == now
    ensures IsRun(ws + [Next(ws[|ss|], now, s)], ss + [s])
  {
    var ws', ss' := ws + [Next(ws[|ss|], now, s)], ss + [s];
    forall i | 0 <= i < |ss'| ensures StepAt(ws', ss', i) {
      if i < |ss| {
        assert StepAt(ws, ss, i);
      }
    }
  }

  /** The event of one row, fired at moment 0. */
  const FIRED := Event(0, None, Ordinary)

  lemma Fired(row: Row) returns (ws: seq<World>, ss: seq<Step>)
    requires Rows.Fresh(row) && row.event == 0 && row.recordedAt == 0
    ensures IsRun(ws, ss) && |ss| == 1 && ws[1].clock == 0 && ws[1].cells == map[0 := NewCell(row)]
  {
    var fire := Step.Fire(0, FIRED, map[0 := row]);
    RunGrows([EMPTY], [], 0, fire);
    ws, ss := [EMPTY, Next(EMPTY, 0, fire)], [fire];
    assert [EMPTY] + [Next(EMPTY, 0, fire)] == ws && [] + [fire] == ss;
  }

  /** Any steps of one row, none of them reopening it, are a run of the outbox. */
  lemma {:induction false} TraceIsRun(row: Row, cells: seq<Cell>, times: seq<Time>, acts: seq<Action>, n: nat)
    returns (ws: seq<World>, ss: seq<Step>)
    requires Rows.Fresh(row) && row.event == 0 && row.recordedAt == 0
    requires Traced(cells, times, acts) && cells[0] == NewCell(row) && n <= |acts|
    ensures IsRun(ws, ss) && |ss| == n + 1
    ensures ws[n + 1].clock == (if n == 0 then 0 else times[n - 1]) && ws[n + 1].cells == map[0 := cells[n]]
    ensures forall i | 1 <= i <= n :: ws[i].cells == map[0 := cells[i - 1]] && ss[i] == OnRow(0, acts[i - 1])
  {
    if n == 0 {
      ws, ss := Fired(row);
    } else {
      ws, ss := TraceIsRun(row, cells, times, acts, n - 1);
      assert TracedAt(cells, times, acts, n - 1);
      var s := OnRow(0, acts[n - 1]);
      RunGrows(ws, ss, times[n - 1], s);
      ws, ss := ws + [Next(ws[n], times[n - 1], s)], ss + [s];
    }
  }

  // ---- The early start ------------------------------------------------------------------

  const ROW := Row(0, "k", "", 0, Pending, 0, 3, 0, None, NOBODY, None, None, None)
  const POLICY := Policy(0, 0, None, 0)

  datatype Trace = Trace(cells: seq<Cell>, times: seq<Time>, acts: seq<Action>)

  /** The trace is of the one row, and stands at `c` at `now`. */
  ghost predicate Reaches(t: Trace, c: Cell, now: Time) {
    && Traced(t.cells, t.times, t.acts) && t.cells[0] == NewCell(ROW)
    && c == t.cells[|t.acts|] && now >= 0 && now == if t.times == [] then 0 else t.times[|t.times| - 1]
  }

  lemma Then(t: Trace, c: Cell, before: Time, now: Time, a: Action) returns (t': Trace)
    requires Reaches(t, c, before) && before <= now && !Reopens(a) && Enabled(c, now, a)
    ensures Reaches(t', Protocol.After(c, now, a), now)
    ensures t'.acts == t.acts + [a] && t'.times == t.times + [now]
    ensures t'.cells == t.cells + [Protocol.After(c, now, a)]
  {
    TraceGrows(t.cells, t.times, t.acts, now, a);
    t' := Trace(t.cells + [Protocol.After(c, now, a)], t.times + [now], t.acts + [a]);
  }

  /** `b` reads, starts and finishes the row it has just claimed. */
  lemma Runs(t: Trace, c: Cell, now: Time, end: Time, v: Verdict) returns (t': Trace)
    requires Reaches(t, c, now) && now <= end && Sound(v, now)
    requires c.row.status == Claimed && c.row.claim == Token("b", Some(now)) && c.row.leaseEnd == Some(now + 100)
    requires "b" in c.work && c.work["b"] == Held(now)
    ensures Reaches(t', c.(row := Recorded(c.row, c.row, v, POLICY, end, 0.0), work := c.work - {"b"},
                           commits := c.commits + (if v.Returned? then 1 else 0),
                           deferrals := if v.NotYet? then 0 else c.deferrals), end)
  {
    t' := Then(t, c, now, now, Load("b"));
    var read := Protocol.After(c, now, Load("b"));
    t' := Then(t', read, now, now, Start("b", 100));
    var started := Protocol.After(read, now, Start("b", 100));
    t' := Then(t', started, now, end, Finish("b", v, POLICY, 0.0));
    assert started.work - {"b"} == c.work - {"b"};
  }

  /** Worker `a` claims the row; its lease lapses, and `b` claims the row. */
  lemma Reclaimed() returns (t: Trace, c: Cell)
    ensures Reaches(t, c, 3) && c.row == ClaimedBy(ROW, "b", 3, 100)
    ensures c.work == map["a" := Held(1), "b" := Held(3)] && c.stamps == {Token("a", Some(1)), Token("b", Some(3))}
  {
    var c0 := NewCell(ROW);
    t := Then(Trace([c0], [], []), c0, 0, 1, Claim("a", 1, false));
    var c1 := Protocol.After(c0, 1, Claim("a", 1, false));
    t := Then(t, c1, 1, 3, Claim("b", 100, false));
    c := Protocol.After(c1, 3, Claim("b", 100, false));
  }

  /** And `b` fails it. */
  lemma Stolen() returns (t: Trace, c: Cell)
    ensures Reaches(t, c, 4)
    ensures c.row == ROW.(status := Failed, attempts := 1, availableAt := 4, claim := Token("b", Some(3)),
                          leaseEnd := Some(103))
    ensures c.work == map["a" := Held(1)] && c.stamps == {Token("a", Some(1)), Token("b", Some(3))}
  {
    var c0;
    t, c0 := Reclaimed();
    t := Runs(t, c0, 3, 4, Raised);
    c := t.cells[|t.acts|];
    assert c0.work - {"b"} == map["a" := Held(1)];
  }

  /** `a` reads the failed row at 20; `b` claims it again and its receiver answers that it
      is not due until 1000. */
  lemma Moved() returns (t: Trace, c: Cell)
    ensures Reaches(t, c, 21) && c.row.dueAt == Some(1000) && c.row.status == Pending
    ensures "a" in c.work && c.work["a"].Loaded?
    ensures c.work["a"].row.status == Failed && c.work["a"].row.availableAt == 4
  {
    var c0;
    t, c0 := Stolen();
    t := Then(t, c0, 4, 20, Load("a"));
    var c1 := Protocol.After(c0, 20, Load("a"));
    t := Then(t, c1, 20, 20, Claim("b", 100, false));
    var c2 := Protocol.After(c1, 20, Claim("b", 100, false));
    t := Runs(t, c2, 20, 21, NotYet(1000));
    c := t.cells[|t.acts|];
  }

  /** The run starts a receiver on a row read unclaimed, before the row is due. */
  ghost predicate StartedEarly(ws: seq<World>, ss: seq<Step>, i: nat, id: int, worker: string, lease: nat) {
    && Takes(ws, ss, i, OnRow(id, Start(worker, lease)))
    && Retryable(ws[i].cells[id].work[worker].row.status)
    && NotYetDue(ws[i].cells[id].row, ws[i + 1].clock)
  }

  /** A run that takes one more step from where a trace stands. */
  lemma RunOn(t: Trace, c: Cell, before: Time, now: Time, a: Action) returns (ws: seq<World>, ss: seq<Step>, i: nat)
    requires Reaches(t, c, before) && before <= now && !Reopens(a) && Enabled(c, now, a)
    ensures Takes(ws, ss, i, OnRow(0, a)) && ws[i].cells == map[0 := c] && ws[i + 1].clock == now
  {
    var t' := Then(t, c, before, now, a);
    i := |t.acts| + 1;
    ws, ss := TraceIsRun(ROW, t'.cells, t'.times, t'.acts, i);
    assert StepAt(ws, ss, i);
  }

  /** And at 21 `a` starts it, the row it read being due: 979 before the row is. */
  lemma StartsEarly() returns (ws: seq<World>, ss: seq<Step>, i: nat)
    ensures StartedEarly(ws, ss, i, 0, "a", 5)
    ensures ws[i + 1].clock == 21 && ws[i].cells[0].row.dueAt == Some(1000)
  {
    var t, c := Moved();
    ws, ss, i := RunOn(t, c, 21, 21, Start("a", 5));
  }
}
