/** `replay_events`: reopening settled rows and adding missing ones, and the targets and
    due times it shares with `fire`. */
module Replay {
  import opened Rows
  import opened Retention
  import opened Registry
  import opened Store

  // ---- Targets and due times ----------------------------------------------------

  /** What a `targets=` callable yields: text, or something else. */
  datatype Answer = Text(target: string) | NotText

  predicate Refused(a: Answer) {
    a.NotText? || a.target == ""
  }

  /** Duplicates dropped, first occurrence kept. */
  function Firsts(answers: seq<Answer>): seq<string>
    requires forall i | 0 <= i < |answers| :: !Refused(answers[i])
  {
    if answers == [] then []
    else
      assert !Refused(answers[|answers| - 1]);
      var rest, last := Firsts(answers[..|answers| - 1]), answers[|answers| - 1].target;
      if last in rest then rest else rest + [last]
  }

  lemma {:induction false} FirstsAreDistinct(answers: seq<Answer>)
    requires forall i | 0 <= i < |answers| :: !Refused(answers[i])
    ensures Distinct(Firsts(answers))
    ensures forall t :: t in Firsts(answers) <==> Text(t) in answers
    ensures "" !in Firsts(answers)
  {
    if answers != [] {
      var init, last := answers[..|answers| - 1], answers[|answers| - 1];
      FirstsAreDistinct(init);
      assert answers == init + [last];
      assert forall t :: Text(t) in answers <==> Text(t) in init || last == Text(t);
    }
  }

  /** One row per target: what a callable yields, refused whole on an answer that is not
      text or is blank. */
  method ResolveTargets(answers: seq<Answer>) returns (targets: Option<seq<string>>)
    ensures targets.Some? <==> forall i | 0 <= i < |answers| :: !Refused(answers[i])
    ensures targets.Some? ==> targets.value == Firsts(answers)
  {
    var resolved := [];
    var n := 0;
    while n < |answers|
      invariant n <= |answers| && forall i | 0 <= i < n :: !Refused(answers[i])
      invariant resolved == Firsts(answers[..n])
    {
      if Refused(answers[n]) {
        return None;
      }
      assert answers[..n + 1][..n] == answers[..n];
      if answers[n].target !in resolved {
        resolved := resolved + [answers[n].target];
      }
      n := n + 1;
    }
    assert answers[..n] == answers;
    return Some(resolved);
  }

  /** A declared due time, never before the row is written. `asked` is what a callable
      answers. */
  function ResolveDue(due: Due, occurredAt: Time, asked: Time, floor: Time): (when: Time)
    ensures when >= floor
  {
    var resolved := match due case Delay(delay) => occurredAt + delay case Asked => asked;
    if resolved >= floor then resolved else floor
  }

  function DueNow(due: Option<Due>, occurredAt: Time, asked: Time, now: Time): (when: Time)
    ensures when >= now
  {
    if due.None? then now else ResolveDue(due.value, occurredAt, asked, now)
  }

  // ---- What a replay does ----------------------------------------------------------

  /** A durable receiver's part of a replay: the targets it names now, the attempts a
      new row has, and when its rows come due. */
  datatype Owed = Owed(targets: seq<string>, maxAttempts: nat, when: Time)

  /** An event and a receiver. */
  type Pair = (int, string)
  type Plan = Pair -> Owed

  /** What a durable receiver answers for an event when it is replayed. */
  datatype Source = Source(due: Option<Due>, occurredAt: Time, asked: Time, answers: seq<Answer>, maxAttempts: nat)

  predicate Accepted(s: Source) {
    forall i | 0 <= i < |s.answers| :: !Refused(s.answers[i])
  }

  /** One with an answer refused never gets so far: the replay fails. */
  type Resolved = s: Source | Accepted(s) witness Source(None, 0, 0, [], 1)

  function OwedNow(s: Resolved, now: Time): Owed {
    Owed(Firsts(s.answers), s.maxAttempts, DueNow(s.due, s.occurredAt, s.asked, now))
  }

  /** The plan of a replay made at `now`. */
  function PlanNow(sources: Pair -> Resolved, now: Time): Plan {
    (pair: Pair) => OwedNow(sources(pair), now)
  }

  predicate SameSlot(a: Row, b: Row) {
    a.event == b.event && a.key == b.key && a.target == b.target
  }

  /** The unique constraint: one row for each event, receiver and target. */
  predicate OneEach(rows: map<int, Row>) {
    forall a <- rows, b <- rows | SameSlot(rows[a], rows[b]) :: a == b
  }

  predicate Names(pairs: set<Pair>, plan: Plan, row: Row) {
    (row.event, row.key) in pairs && row.target in plan((row.event, row.key)).targets
  }

  function Replayed(pairs: set<Pair>, plan: Plan, row: Row): Row {
    if Names(pairs, plan, row) && Terminal(row.status) then Reopened(row, plan((row.event, row.key)).when) else row
  }

  function NewRow(pair: Pair, target: string, owed: Owed, recordedAt: Time): Row {
    Row(pair.0, pair.1, target, recordedAt, Pending, 0, owed.maxAttempts, owed.when, Some(owed.when),
        NOBODY, None, None, None)
  }

  predicate IsNew(row: Row, pairs: set<Pair>, plan: Plan, events: map<int, Event>) {
    && Names(pairs, plan, row) && row.event in events
    && row == NewRow((row.event, row.key), row.target, plan((row.event, row.key)), events[row.event].recordedAt)
  }

  predicate InSlot(row: Row, pair: Pair, target: string) {
    row.event == pair.0 && row.key == pair.1 && row.target == target
  }

  predicate HasSlot(rows: map<int, Row>, pair: Pair, target: string) {
    exists id <- rows :: InSlot(rows[id], pair, target)
  }

  /** `after` is `before` replayed for these pairs: settled rows they name are reopened,
      rows they lack are added, one each, and nothing else moves. */
  ghost predicate ReplayOf(before: map<int, Row>, after: map<int, Row>, pairs: set<Pair>, plan: Plan,
                           events: map<int, Event>) {
    && before.Keys <= after.Keys && OneEach(after)
    && (forall id <- before :: after[id] == Replayed(pairs, plan, before[id]))
    && (forall id <- after | id !in before :: IsNew(after[id], pairs, plan, events))
    && (forall pair <- pairs, i | 0 <= i < |plan(pair).targets| :: HasSlot(after, pair, plan(pair).targets[i]))
  }

  function ReopenedIds(rows: map<int, Row>, pairs: set<Pair>, plan: Plan): set<int> {
    set id | id in rows && Names(pairs, plan, rows[id]) && Terminal(rows[id].status)
  }

  /** How many rows were added. */
  ghost function Added(before: map<int, Row>, rows: map<int, Row>): nat {
    |rows.Keys - before.Keys|
  }

  /** One pair's rows after another's. */
  lemma ReplayOn(a: map<int, Row>, b: map<int, Row>, c: map<int, Row>, pairs: set<Pair>, pair: Pair, plan: Plan,
                 events: map<int, Event>)
    requires ReplayOf(a, b, pairs, plan, events) && ReplayOf(b, c, {pair}, plan, events) && pair !in pairs
    ensures ReplayOf(a, c, pairs + {pair}, plan, events)
  {
    var all := pairs + {pair};
    forall p <- all, i | 0 <= i < |plan(p).targets| ensures HasSlot(c, p, plan(p).targets[i]) {
      if p != pair {
        assert HasSlot(b, p, plan(p).targets[i]);
        var id :| id in b && InSlot(b[id], p, plan(p).targets[i]);
        assert InSlot(c[id], p, plan(p).targets[i]);
      }
    }
  }

  lemma DisjointSizes(a: set<int>, b: set<int>, both: set<int>)
    requires both == a + b && a !! b
    ensures |both| == |a| + |b|
  {
  }

  lemma CountsAdd(a: map<int, Row>, b: map<int, Row>, c: map<int, Row>, pairs: set<Pair>, pair: Pair, plan: Plan,
                  events: map<int, Event>)
    requires ReplayOf(a, b, pairs, plan, events) && ReplayOf(b, c, {pair}, plan, events) && pair !in pairs
    ensures |ReopenedIds(a, pairs + {pair}, plan)| == |ReopenedIds(a, pairs, plan)| + |ReopenedIds(b, {pair}, plan)|
    ensures Added(a, c) == Added(a, b) + Added(b, c)
  {
    ReopenedSplit(a, b, pairs, pair, plan, events);
    DisjointSizes(ReopenedIds(a, pairs, plan), ReopenedIds(b, {pair}, plan), ReopenedIds(a, pairs + {pair}, plan));
    KeysAdd(a.Keys, b.Keys, c.Keys);
  }

  lemma KeysAdd(a: set<int>, b: set<int>, c: set<int>)
    requires a <= b <= c
    ensures |c - a| == |b - a| + |c - b|
  {
    DisjointSizes(b - a, c - b, c - a);
  }

  lemma ReopenedSplit(a: map<int, Row>, b: map<int, Row>, pairs: set<Pair>, pair: Pair, plan: Plan,
                      events: map<int, Event>)
    requires ReplayOf(a, b, pairs, plan, events) && pair !in pairs
    ensures ReopenedIds(a, pairs + {pair}, plan) == ReopenedIds(a, pairs, plan) + ReopenedIds(b, {pair}, plan)
    ensures ReopenedIds(a, pairs, plan) !! ReopenedIds(b, {pair}, plan)
  {
    var all, first := ReopenedIds(a, pairs + {pair}, plan), ReopenedIds(a, pairs, plan);
    var second := ReopenedIds(b, {pair}, plan);
    forall id | id in second ensures id in all && id !in first {
      assert Names({pair}, plan, b[id]) && !Names(pairs, plan, b[id]);
      assert forall x <- b | x !in a :: IsNew(b[x], pairs, plan, events);
      assert b[id] == Replayed(pairs, plan, a[id]);
    }
    forall id | id in all ensures id in first || id in second {
      assert b[id] == Replayed(pairs, plan, a[id]);
      if !Names(pairs, plan, a[id]) {
        assert Names({pair}, plan, b[id]);
      }
    }
    forall id | id in first ensures id in all {
      assert Names(pairs + {pair}, plan, a[id]);
    }
  }

  // ---- The replay itself ---------------------------------------------------------------

  /** One pair's rows part-way: its settled rows are reopened, and its first `n` targets
      have their rows. */
  ghost predicate Adding(before: map<int, Row>, rows: map<int, Row>, pair: Pair, plan: Plan, events: map<int, Event>,
                         n: nat) {
    && n <= |plan(pair).targets|
    && before.Keys <= rows.Keys && OneEach(rows)
    && (forall id <- before :: rows[id] == Replayed({pair}, plan, before[id]))
    && (forall id <- rows | id !in before :: IsNew(rows[id], {pair}, plan, events))
    && (forall i | 0 <= i < n :: HasSlot(rows, pair, plan(pair).targets[i]))
  }

  lemma ReopensFirst(before: map<int, Row>, pair: Pair, plan: Plan, events: map<int, Event>)
    requires OneEach(before)
    ensures Adding(before,
                   Updated(before, ReopenedIds(before, {pair}, plan), (row: Row) => Reopened(row, plan(pair).when)),
                   pair, plan, events, 0)
  {
    var rows := Updated(before, ReopenedIds(before, {pair}, plan), (row: Row) => Reopened(row, plan(pair).when));
    forall a <- rows, b <- rows | SameSlot(rows[a], rows[b]) ensures a == b {
      assert SameSlot(before[a], before[b]);
    }
  }

  /** A row for the next target, if it has none. */
  function WithTarget(rows: map<int, Row>, pair: Pair, plan: Plan, events: map<int, Event>, n: nat, id: int)
    : map<int, Row>
    requires n < |plan(pair).targets| && pair.0 in events
  {
    if HasSlot(rows, pair, plan(pair).targets[n]) then rows
    else rows[id := NewRow(pair, plan(pair).targets[n], plan(pair), events[pair.0].recordedAt)]
  }

  lemma TargetAdded(before: map<int, Row>, rows: map<int, Row>, pair: Pair, plan: Plan, events: map<int, Event>, n: nat,
                    id: int)
    requires Adding(before, rows, pair, plan, events, n) && n < |plan(pair).targets| && pair.0 in events
    requires id !in rows
    ensures var after := WithTarget(rows, pair, plan, events, n, id);
            && Adding(before, after, pair, plan, events, n + 1)
            && Added(before, after) == Added(before, rows) + if HasSlot(rows, pair, plan(pair).targets[n]) then 0 else 1
  {
    if HasSlot(rows, pair, plan(pair).targets[n]) {
      TargetThere(before, rows, pair, plan, events, n);
    } else {
      OneMoreRow(before, rows, pair, plan, events, n, id);
      OneMoreAdded(before, rows, id, NewRow(pair, plan(pair).targets[n], plan(pair), events[pair.0].recordedAt));
    }
  }

  lemma TargetThere(before: map<int, Row>, rows: map<int, Row>, pair: Pair, plan: Plan, events: map<int, Event>, n: nat)
    requires Adding(before, rows, pair, plan, events, n) && n < |plan(pair).targets|
    requires HasSlot(rows, pair, plan(pair).targets[n])
    ensures Adding(before, rows, pair, plan, events, n + 1)
  {
    forall i | 0 <= i < n + 1 ensures HasSlot(rows, pair, plan(pair).targets[i]) {
    }
  }

  lemma OneMoreAdded(before: map<int, Row>, rows: map<int, Row>, id: int, row: Row)
    requires before.Keys <= rows.Keys && id !in rows
    ensures Added(before, rows[id := row]) == Added(before, rows) + 1
  {
    var after := rows[id := row];
    assert after.Keys == rows.Keys + {id};
    OneMoreKey(before.Keys, rows.Keys, id);
  }

  lemma OneMoreRow(before: map<int, Row>, rows: map<int, Row>, pair: Pair, plan: Plan, events: map<int, Event>, n: nat,
                   id: int)
    requires Adding(before, rows, pair, plan, events, n) && n < |plan(pair).targets| && pair.0 in events
    requires id !in rows && !HasSlot(rows, pair, plan(pair).targets[n])
    ensures Adding(before, rows[id := NewRow(pair, plan(pair).targets[n], plan(pair), events[pair.0].recordedAt)],
                   pair, plan, events, n + 1)
  {
    var target := plan(pair).targets[n];
    var rows' := rows[id := NewRow(pair, target, plan(pair), events[pair.0].recordedAt)];
    forall i | 0 <= i < n + 1 ensures HasSlot(rows', pair, plan(pair).targets[i]) {
      if i < n {
        assert HasSlot(rows, pair, plan(pair).targets[i]);
        var x :| x in rows && InSlot(rows[x], pair, plan(pair).targets[i]);
        assert InSlot(rows'[x], pair, plan(pair).targets[i]);
      } else {
        assert InSlot(rows'[id], pair, target);
      }
    }
  }

  lemma OneMoreKey(before: set<int>, keys: set<int>, id: int)
    requires before <= keys && id !in keys
    ensures |(keys + {id}) - before| == |keys - before| + 1
  {
    DisjointSizes(keys - before, {id}, (keys + {id}) - before);
  }

  /** Insert one target's row, if it has none. */
  method AddTarget(db: Outbox, pair: Pair, plan: Plan, n: nat, ghost before: map<int, Row>) returns (added: nat)
    requires pair.0 in db.events && n < |plan(pair).targets|
    requires Adding(before, db.rows, pair, plan, db.events, n)
    modifies db`rows
    ensures Adding(before, db.rows, pair, plan, db.events, n + 1)
    ensures Added(before, db.rows) == Added(before, old(db.rows)) + added
  {
    var id := FirstFree(db.rows);
    TargetAdded(before, db.rows, pair, plan, db.events, n, id);
    added := if HasSlot(db.rows, pair, plan(pair).targets[n]) then 0 else 1;
    db.rows := WithTarget(db.rows, pair, plan, db.events, n, id);
  }

  /** Insert the rows a pair lacks, target by target. */
  method AddMissing(db: Outbox, pair: Pair, plan: Plan, ghost before: map<int, Row>) returns (added: nat)
    requires pair.0 in db.events && Adding(before, db.rows, pair, plan, db.events, 0) && db.rows.Keys == before.Keys
    modifies db`rows
    ensures Adding(before, db.rows, pair, plan, db.events, |plan(pair).targets|)
    ensures added == Added(before, db.rows)
  {
    added := 0;
    var n := 0;
    while n < |plan(pair).targets|
      invariant Adding(before, db.rows, pair, plan, db.events, n)
      invariant added == Added(before, db.rows)
    {
      var more := AddTarget(db, pair, plan, n, before);
      added, n := added + more, n + 1;
    }
  }

  /** Reopen one receiver's settled rows of one event, and add the ones it lacks. */
  method ReplayPair(db: Outbox, pair: Pair, plan: Plan) returns (reopened: nat, added: nat)
    requires OneEach(db.rows) && pair.0 in db.events
    modifies db`rows
    ensures ReplayOf(old(db.rows), db.rows, {pair}, plan, db.events)
    ensures reopened == |ReopenedIds(old(db.rows), {pair}, plan)| && added == Added(old(db.rows), db.rows)
  {
    ghost var before := db.rows;
    var reopen := ReopenedIds(db.rows, {pair}, plan);
    reopened := |reopen|;
    ReopensFirst(before, pair, plan, db.events);
    db.rows := Updated(db.rows, reopen, (row: Row) => Reopened(row, plan(pair).when));
    added := AddMissing(db, pair, plan, before);
    AddedAll(before, db.rows, pair, plan, db.events);
  }

  lemma AddedAll(before: map<int, Row>, rows: map<int, Row>, pair: Pair, plan: Plan, events: map<int, Event>)
    requires Adding(before, rows, pair, plan, events, |plan(pair).targets|)
    ensures ReplayOf(before, rows, {pair}, plan, events)
  {
    forall p <- {pair}, i | 0 <= i < |plan(p).targets| ensures HasSlot(rows, p, plan(p).targets[i]) {
    }
  }

  /** The pairs of the first `n` of an event's durable receivers. */
  function PairsOf(event: int, keys: seq<string>, n: nat): set<Pair>
    requires n <= |keys|
  {
    set k | 0 <= k < n :: (event, keys[k])
  }

  /** Whatever of a replay is done so far, and its counts. */
  ghost predicate Done(before: map<int, Row>, rows: map<int, Row>, pairs: set<Pair>, plan: Plan,
                       events: map<int, Event>, reopened: nat, added: nat) {
    && ReplayOf(before, rows, pairs, plan, events)
    && reopened == |ReopenedIds(before, pairs, plan)| && added == Added(before, rows)
  }

  lemma DoneOn(a: map<int, Row>, b: map<int, Row>, c: map<int, Row>, pairs: set<Pair>, pair: Pair, plan: Plan,
               events: map<int, Event>, reopened: nat, added: nat, r: nat, n: nat)
    requires Done(a, b, pairs, plan, events, reopened, added) && pair !in pairs
    requires ReplayOf(b, c, {pair}, plan, events) && r == |ReopenedIds(b, {pair}, plan)| && n == Added(b, c)
    ensures Done(a, c, pairs + {pair}, plan, events, reopened + r, added + n)
  {
    ReplayOn(a, b, c, pairs, pair, plan, events);
    CountsAdd(a, b, c, pairs, pair, plan, events);
  }

  lemma NothingDone(rows: map<int, Row>, plan: Plan, events: map<int, Event>)
    requires OneEach(rows)
    ensures Done(rows, rows, {}, plan, events, 0, 0)
  {
    forall id <- rows ensures !Names({}, plan, rows[id]) {
    }
    assert ReopenedIds(rows, {}, plan) == {};
    assert rows.Keys - rows.Keys == {};
  }

  /** What is covered once `n` receivers of an event are, besides what was before. */
  function Covered(pairs: set<Pair>, event: int, keys: seq<string>, n: nat): set<Pair>
    requires n <= |keys|
  {
    pairs + PairsOf(event, keys, n)
  }

  lemma CoveredGrows(pairs: set<Pair>, event: int, keys: seq<string>, k: nat)
    requires Distinct(keys) && k < |keys| && (event, keys[k]) !in pairs
    ensures Covered(pairs, event, keys, k + 1) == Covered(pairs, event, keys, k) + {(event, keys[k])}
    ensures (event, keys[k]) !in Covered(pairs, event, keys, k)
  {
  }

  /** One durable receiver's turn of a replay. */
  method ReplayNext(db: Outbox, event: int, keys: seq<string>, k: nat, plan: Plan, ghost before: map<int, Row>,
                    ghost pairs: set<Pair>, reopened0: nat, added0: nat)
    returns (reopened: nat, added: nat)
    requires event in db.events && Distinct(keys) && k < |keys| && (event, keys[k]) !in pairs
    requires Done(before, db.rows, Covered(pairs, event, keys, k), plan, db.events, reopened0, added0)
    modifies db`rows
    ensures Done(before, db.rows, Covered(pairs, event, keys, k + 1), plan, db.events, reopened, added)
  {
    ghost var mid := db.rows;
    CoveredGrows(pairs, event, keys, k);
    reopened, added := ReplayPair(db, (event, keys[k]), plan);
    DoneOn(before, mid, db.rows, Covered(pairs, event, keys, k), (event, keys[k]), plan, db.events, reopened0, added0,
           reopened, added);
    reopened, added := reopened0 + reopened, added0 + added;
  }

  /** One event's transaction: each of its durable receivers, in turn. */
  method ReplayEvent(db: Outbox, event: int, keys: seq<string>, plan: Plan, ghost before: map<int, Row>,
                     ghost pairs: set<Pair>, reopened0: nat, added0: nat)
    returns (reopened: nat, added: nat)
    requires event in db.events && Distinct(keys) && forall k | 0 <= k < |keys| :: (event, keys[k]) !in pairs
    requires Done(before, db.rows, pairs, plan, db.events, reopened0, added0)
    modifies db`rows
    ensures Done(before, db.rows, Covered(pairs, event, keys, |keys|), plan, db.events, reopened, added)
  {
    reopened, added := reopened0, added0;
    var k := 0;
    assert Covered(pairs, event, keys, 0) == pairs;
    while k < |keys|
      invariant k <= |keys|
      invariant Done(before, db.rows, Covered(pairs, event, keys, k), plan, db.events, reopened, added)
    {
      reopened, added := ReplayNext(db, event, keys, k, plan, before, pairs, reopened, added);
      k := k + 1;
    }
  }

  /** The pairs a whole replay covers: every durable receiver asked for, of each event
      still there. */
  function AllPairs(todo: seq<int>, n: nat, keysOf: int -> seq<string>, events: map<int, Event>): set<Pair>
    requires n <= |todo|
  {
    if n == 0 then {}
    else
      AllPairs(todo, n - 1, keysOf, events)
      + if todo[n - 1] in events then PairsOf(todo[n - 1], keysOf(todo[n - 1]), |keysOf(todo[n - 1])|) else {}
  }

  lemma {:induction false} PairsAreOfEvents(todo: seq<int>, n: nat, keysOf: int -> seq<string>, events: map<int, Event>)
    requires n <= |todo|
    ensures forall pair <- AllPairs(todo, n, keysOf, events) :: pair.0 in todo[..n]
  {
    if n > 0 {
      PairsAreOfEvents(todo, n - 1, keysOf, events);
      assert todo[..n] == todo[..n - 1] + [todo[n - 1]];
    }
  }

  /** Those are the receivers named for each event asked for and still there. */
  lemma {:induction false} AllPairsAre(todo: seq<int>, n: nat, keysOf: int -> seq<string>, events: map<int, Event>,
                                       pair: Pair)
    requires n <= |todo|
    ensures pair in AllPairs(todo, n, keysOf, events) <==>
            pair.0 in todo[..n] && pair.0 in events && pair.1 in keysOf(pair.0)
  {
    if n > 0 {
      AllPairsAre(todo, n - 1, keysOf, events, pair);
      assert todo[..n] == todo[..n - 1] + [todo[n - 1]];
      PairsOfAre(todo[n - 1], keysOf(todo[n - 1]), pair);
    }
  }

  lemma PairsOfAre(event: int, keys: seq<string>, pair: Pair)
    ensures pair in PairsOf(event, keys, |keys|) <==> pair.0 == event && pair.1 in keys
  {
    if pair.0 == event && pair.1 in keys {
      var k :| 0 <= k < |keys| && keys[k] == pair.1;
      assert (event, keys[k]) == pair;
    }
  }

  /** Replay events, one transaction each. `keysOf` names the durable receivers of an
      event that the replay is for, and `plan` what each of them is owed now. */
  method ReplayEvents(db: Outbox, todo: seq<int>, keysOf: int -> seq<string>, plan: Plan)
    returns (reopened: nat, added: nat)
    requires OneEach(db.rows) && Distinct(todo) && forall i | 0 <= i < |todo| :: Distinct(keysOf(todo[i]))
    modifies db`rows
    ensures Done(old(db.rows), db.rows, AllPairs(todo, |todo|, keysOf, db.events), plan, db.events, reopened, added)
  {
    reopened, added := 0, 0;
    NothingDone(db.rows, plan, db.events);
    var n := 0;
    while n < |todo|
      invariant n <= |todo|
      invariant Done(old(db.rows), db.rows, AllPairs(todo, n, keysOf, db.events), plan, db.events, reopened, added)
    {
      if todo[n] in db.events {
        PairsAreOfEvents(todo, n, keysOf, db.events);
        reopened, added := ReplayEvent(db, todo[n], keysOf(todo[n]), plan, old(db.rows),
                                       AllPairs(todo, n, keysOf, db.events), reopened, added);
      }
      n := n + 1;
    }
  }

  // ---- What it means ----------------------------------------------------------------------

  /** After a replay every receiver and target it resolved has exactly one row, and it is
      owed: in flight, as it was, or pending with a full budget and a due time not before
      the replay. */
  lemma ReplayedIsOwed(before: map<int, Row>, after: map<int, Row>, pairs: set<Pair>, plan: Plan,
                       events: map<int, Event>, now: Time, pair: Pair, i: nat)
    requires ReplayOf(before, after, pairs, plan, events) && pair in pairs && i < |plan(pair).targets|
    requires plan(pair).when >= now
    ensures exists id <- after ::
              && InSlot(after[id], pair, plan(pair).targets[i])
              && (forall other <- after | InSlot(after[other], pair, plan(pair).targets[i]) :: other == id)
              && !Terminal(after[id].status)
              && (id in before && !Terminal(before[id].status) ==> after[id] == before[id])
              && (id !in before || Terminal(before[id].status) ==>
                    && after[id].status == Pending && after[id].attempts == 0 && after[id].claim == NOBODY
                    && after[id].dueAt == Some(after[id].availableAt) && after[id].availableAt >= now)
  {
    assert HasSlot(after, pair, plan(pair).targets[i]);
    var id :| id in after && InSlot(after[id], pair, plan(pair).targets[i]);
    if id in before {
      assert after[id] == Replayed(pairs, plan, before[id]);
    } else {
      assert IsNew(after[id], pairs, plan, events);
    }
    forall other <- after | InSlot(after[other], pair, plan(pair).targets[i]) ensures other == id {
      assert SameSlot(after[other], after[id]);
    }
  }

  /** The later of now and when the receiver's schedule has it due: its delay from when the
      event occurred, or what it answers. Without a schedule, now. */
  function DueFrom(s: Source, now: Time): Time {
    if s.due.None? then now
    else
      var scheduled := if s.due.value.Asked? then s.asked else s.occurredAt + s.due.value.delay;
      if scheduled < now then now else scheduled
  }

  /** What the replay made of a row it answers for: it is owed, as it was if it was; a
      settled one is owed from the replay on, with its budget and its newest success kept,
      and a new one has the receiver's budget and the event's moment. */
  predicate OwedAgain(id: int, before: map<int, Row>, after: Row, events: map<int, Event>, s: Source, pair: Pair,
                      now: Time) {
    && !Terminal(after.status)
    && (id in before && !Terminal(before[id].status) ==> after == before[id])
    && (id in before ==> after.maxAttempts == before[id].maxAttempts && after.succeededAt == before[id].succeededAt)
    && (id !in before ==> after.maxAttempts == s.maxAttempts && after.succeededAt.None?
                          && pair.0 in events && after.recordedAt == events[pair.0].recordedAt)
    && (id !in before || Terminal(before[id].status) ==>
          && after.status == Pending && after.attempts == 0 && after.claim == NOBODY && after.leaseEnd.None?
          && after.completedAt.None? && after.availableAt == DueFrom(s, now) && after.dueAt == Some(DueFrom(s, now)))
  }

  lemma RowIsOwedAgain(before: map<int, Row>, after: map<int, Row>, pairs: set<Pair>, sources: Pair -> Resolved,
                       events: map<int, Event>, now: Time, pair: Pair, id: int)
    requires ReplayOf(before, after, pairs, PlanNow(sources, now), events) && pair in pairs && id in after
    requires after[id].event == pair.0 && after[id].key == pair.1
    requires after[id].target in PlanNow(sources, now)(pair).targets
    ensures OwedAgain(id, before, after[id], events, sources(pair), pair, now)
  {
    if id in before {
      assert after[id] == Replayed(pairs, PlanNow(sources, now), before[id]);
    } else {
      assert IsNew(after[id], pairs, PlanNow(sources, now), events);
    }
  }

  /** So every target a receiver answers when it is replayed has one row, owed from the
      replay on: from then exactly, if the receiver declares no due time, and else from
      that, or from the replay if it is past. */
  lemma AnswersAreOwed(before: map<int, Row>, after: map<int, Row>, pairs: set<Pair>, sources: Pair -> Resolved,
                       events: map<int, Event>, now: Time, pair: Pair, target: string)
    requires ReplayOf(before, after, pairs, PlanNow(sources, now), events) && pair in pairs
    requires Text(target) in sources(pair).answers
    ensures exists id <- after ::
              && InSlot(after[id], pair, target) && OwedAgain(id, before, after[id], events, sources(pair), pair, now)
              && forall other <- after | InSlot(after[other], pair, target) :: other == id
  {
    FirstsAreDistinct(sources(pair).answers);
    var targets := PlanNow(sources, now)(pair).targets;
    var i :| 0 <= i < |targets| && targets[i] == target;
    assert HasSlot(after, pair, targets[i]);
    var id :| id in after && InSlot(after[id], pair, target);
    RowIsOwedAgain(before, after, pairs, sources, events, now, pair, id);
    forall other <- after | InSlot(after[other], pair, target) ensures other == id {
      assert SameSlot(after[other], after[id]);
    }
  }

  /** A row of a receiver the replay is not for, or of a target it no longer returns, or
      still owed, stays exactly as it was. */
  lemma OthersUntouched(before: map<int, Row>, after: map<int, Row>, pairs: set<Pair>, plan: Plan,
                        events: map<int, Event>, id: int)
    requires ReplayOf(before, after, pairs, plan, events) && id in before
    ensures !Names(pairs, plan, before[id]) || !Terminal(before[id].status) <==> after[id] == before[id]
  {
  }

  /** A row the first replay left is owed, so the second lets it be. */
  lemma NothingToReopen(a: map<int, Row>, b: map<int, Row>, pairs: set<Pair>, first: Plan, second: Plan,
                        events: map<int, Event>, id: int)
    requires ReplayOf(a, b, pairs, first, events) && id in b
    requires forall pair <- pairs :: first(pair).targets == second(pair).targets
    ensures Replayed(pairs, second, b[id]) == b[id] && id !in ReopenedIds(b, pairs, second)
  {
    if id in a {
      assert b[id] == Replayed(pairs, first, a[id]);
    } else {
      assert IsNew(b[id], pairs, first, events);
    }
  }

  /** A second replay of the same targets, with nothing delivered in between, changes no
      row and counts nothing, whenever it is made. */
  lemma SecondReplayDoesNothing(a: map<int, Row>, b: map<int, Row>, c: map<int, Row>, pairs: set<Pair>, first: Plan,
                                second: Plan, events: map<int, Event>, reopened: nat, added: nat)
    requires ReplayOf(a, b, pairs, first, events) && Done(b, c, pairs, second, events, reopened, added)
    requires forall pair <- pairs :: first(pair).targets == second(pair).targets
    ensures c == b && reopened == 0 && added == 0
  {
    forall id <- b ensures c[id] == b[id] && id !in ReopenedIds(b, pairs, second) {
      NothingToReopen(a, b, pairs, first, second, events, id);
    }
    forall id <- c ensures id in b {
      NothingToAdd(b, c, pairs, second, events, id, first);
    }
    NothingChanged(b, c, ReopenedIds(b, pairs, second));
  }

  lemma NothingChanged(b: map<int, Row>, c: map<int, Row>, reopened: set<int>)
    requires b.Keys <= c.Keys && reopened <= b.Keys
    requires forall id <- b :: c[id] == b[id] && id !in reopened
    requires forall id <- c :: id in b
    ensures c == b && reopened == {} && Added(b, c) == 0
  {
    assert forall id <- c :: id in b && c[id] == b[id];
    assert c == b;
    assert c.Keys - b.Keys == {};
    EmptyOrNot(reopened);
  }

  lemma NothingToAdd(b: map<int, Row>, c: map<int, Row>, pairs: set<Pair>, plan: Plan, events: map<int, Event>, id: int,
                     first: Plan)
    requires ReplayOf(b, c, pairs, plan, events) && id in c
    requires forall pair <- pairs, i | 0 <= i < |first(pair).targets| :: HasSlot(b, pair, first(pair).targets[i])
    requires forall pair <- pairs :: first(pair).targets == plan(pair).targets
    ensures id in b
  {
    assert id !in b ==> IsNew(c[id], pairs, plan, events);
    if Names(pairs, plan, c[id]) {
      var pair := (c[id].event, c[id].key);
      var i :| 0 <= i < |plan(pair).targets| && plan(pair).targets[i] == c[id].target;
      assert HasSlot(b, pair, first(pair).targets[i]);
      var x :| x in b && InSlot(b[x], pair, c[id].target);
      assert c[x] == Replayed(pairs, plan, b[x]);
      assert SameSlot(c[x], c[id]);
    }
  }

  /** The rows a replay adds are the rows `fire` writes: pending, unclaimed and owed from
      their due time, so everything proved of those holds of these. */
  lemma AddedRowsAreFresh(before: map<int, Row>, after: map<int, Row>, pairs: set<Pair>, plan: Plan,
                          events: map<int, Event>, now: Time, id: int)
    requires ReplayOf(before, after, pairs, plan, events) && id in after && id !in before
    requires forall pair <- pairs :: plan(pair).when >= now && plan(pair).maxAttempts >= 1
    ensures Fresh(after[id]) && OwedSince(after[id]) >= now
    ensures after[id].event in events && after[id].recordedAt == events[after[id].event].recordedAt
  {
    assert IsNew(after[id], pairs, plan, events);
  }
}
