/** `run_relay`: turns, pauses, stopping, and handing back, with nothing known of what
    the claims return or how the deliveries go. */
module Relay {
  import opened Rows
  import opened Store

  /** What the relay is told, in the order it asks: each reading of `stop` and of the
      clock, the rows of each claim, and of each delivery its outcome and the delay of
      a deferral that did not count, which pauses the lane it is of. */
  datatype Told = Told(
    stop: nat -> bool,
    clock: nat -> Time,
    claim: nat -> seq<int>,
    outcome: nat -> Option<Status>,
    deferral: nat -> Option<nat>)

  /** One nondecreasing clock. */
  ghost predicate Forward(told: Told) {
    forall i, j | i <= j :: told.clock(i) <= told.clock(j)
  }

  /** What the relay did, in order. */
  datatype Act =
    | Asked(stop: bool)
    | Skipped(lane: string, at: Time)
    | ClaimedBatch(lane: string, at: Time, ids: seq<int>)
    | Started(id: int, outcome: Option<Status>)
    | Paused(lane: string, until: Time)
    | GaveBack(ids: seq<int>, at: Time)
    | Idled

  // ---- What the trace is held to ---------------------------------------------

  function Last(t: seq<Act>): Act
    requires t != []
  {
    t[|t| - 1]
  }

  function Before(t: seq<Act>): seq<Act>
    requires t != []
  {
    t[..|t| - 1]
  }

  /** The rows claimed and neither started nor given back yet, in the order claimed. */
  function Unstarted(t: seq<Act>): seq<int> {
    if t == [] then [] else Left(Unstarted(Before(t)), Last(t))
  }

  function Left(unstarted: seq<int>, a: Act): seq<int> {
    match a
    case ClaimedBatch(_, _, ids) => unstarted + ids
    case Started(_, _) => if unstarted == [] then [] else unstarted[1..]
    case GaveBack(_, _) => []
    case _ => unstarted
  }

  predicate ToldToStop(t: seq<Act>) {
    t != [] && (Last(t) == Asked(true) || ToldToStop(Before(t)))
  }

  /** When a lane's last pause ends. */
  function PauseEnd(t: seq<Act>, lane: string): Option<Time> {
    if t == [] then None
    else if Last(t).Paused? && Last(t).lane == lane then Some(Last(t).until)
    else PauseEnd(Before(t), lane)
  }

  predicate PausedAt(t: seq<Act>, lane: string, at: Time) {
    PauseEnd(t, lane).Some? && at < PauseEnd(t, lane).value
  }

  predicate IsTurn(a: Act) {
    a.ClaimedBatch? || a.Skipped?
  }

  /** The lanes whose turn came, in order. */
  function Turns(t: seq<Act>): seq<string> {
    if t == [] then [] else if IsTurn(Last(t)) then Turns(Before(t)) + [Last(t).lane] else Turns(Before(t))
  }

  /** How each turn went. */
  function Taken(t: seq<Act>): (turns: seq<Act>)
    ensures |turns| == |Turns(t)| && forall i | 0 <= i < |turns| :: IsTurn(turns[i])
  {
    if t == [] then [] else if IsTurn(Last(t)) then Taken(Before(t)) + [Last(t)] else Taken(Before(t))
  }

  function Outcomes(t: seq<Act>): multiset<Status> {
    if t == [] then multiset{}
    else if Last(t).Started? && Last(t).outcome.Some? then Outcomes(Before(t)) + multiset{Last(t).outcome.value}
    else Outcomes(Before(t))
  }

  /** Who goes next: the turns go round the lanes. */
  predicate InTurn(turns: nat, lane: string, lanes: seq<string>) {
    lanes != [] && lane == lanes[turns % |lanes|]
  }

  /** None of the last `n` turns claimed a row. */
  predicate Fruitless(turns: seq<Act>, n: nat) {
    forall i | 0 <= i < |turns| && |turns| - n <= i :: turns[i].ClaimedBatch? ==> turns[i].ids == []
  }

  /** The trace has just come to the end of a rotation over `n` lanes that claimed nothing. */
  predicate IdleDue(t: seq<Act>, n: nat) {
    t != [] && IsTurn(Last(t)) && n > 0 && |Turns(t)| % n == 0 && Fruitless(Taken(t), n)
  }

  /** The trace has just come to where the rest of a batch goes back: after a pause, or
      told to stop with some of it left. */
  predicate GiveBackDue(t: seq<Act>) {
    t != [] && (Last(t).Paused? || (Last(t) == Asked(true) && Unstarted(t) != []))
  }

  /** What an act must meet after the trace `t`. A turn or a start comes exactly after a
      reading of `stop` that said no: a start of the first row claimed and left, if there
      is one, and else a turn, of the lane whose turn it is. A turn is skipped exactly
      while its lane's pause lasts, and no pause cuts an earlier one short; it is of the
      lane of the batch. The rest of a batch goes back exactly after a pause or a stop,
      under the time of its claim, and nothing follows a stop but that. The relay idles
      exactly at the end of a rotation that claimed nothing. */
  predicate Fits(t: seq<Act>, a: Act, lanes: seq<string>) {
    && (IsTurn(a) || a.Started? <==> t != [] && Last(t) == Asked(false))
    && (a.Started? ==> Unstarted(t) != [] && a.id == Unstarted(t)[0])
    && (IsTurn(a) ==> Unstarted(t) == [] && InTurn(|Turns(t)|, a.lane, lanes))
    && (a.ClaimedBatch? ==> !PausedAt(t, a.lane, a.at))
    && (a.Skipped? ==> PausedAt(t, a.lane, a.at))
    && (a.Paused? ==> !PausedAt(t, a.lane, a.until) && Taken(t) != [] && a.lane == Last(Taken(t)).lane)
    && (a.GaveBack? <==> GiveBackDue(t))
    && (a.GaveBack? ==> a.ids == Unstarted(t) && Taken(t) != [] && a.at == Last(Taken(t)).at)
    && (!a.GaveBack? ==> !ToldToStop(t))
    && (a.Idled? <==> IdleDue(t, |lanes|))
  }

  predicate Lawful(t: seq<Act>, lanes: seq<string>) {
    t != [] ==> Lawful(Before(t), lanes) && Fits(Before(t), Last(t), lanes)
  }

  // ---- What the trace answers to ---------------------------------------------

  /** How many answers of each kind a trace has used. */
  datatype Asks = Asks(stops: nat, clocks: nat, claims: nat, starts: nat)

  function OneMore(n: Asks, a: Act): Asks {
    match a
    case Asked(_) => n.(stops := n.stops + 1)
    case Skipped(_, _) => n.(clocks := n.clocks + 1)
    case ClaimedBatch(_, _, _) => n.(clocks := n.clocks + 1, claims := n.claims + 1)
    case Started(_, _) => n.(starts := n.starts + 1)
    case Paused(_, _) => n.(clocks := n.clocks + 1)
    case _ => n
  }

  function Tally(t: seq<Act>): Asks {
    if t == [] then Asks(0, 0, 0, 0) else OneMore(Tally(Before(t)), Last(t))
  }

  /** The delay of the uncounted deferral the trace has just heard of, if it has. */
  function JustDeferred(t: seq<Act>, told: Told): Option<nat> {
    if t != [] && Last(t).Started? then told.deferral(Tally(Before(t)).starts) else None
  }

  /** Each act is what was told: the next answer of its kind; and a lane is paused
      right after a deferral, for its delay from then, and at no other time. */
  predicate Heard(t: seq<Act>, a: Act, told: Told) {
    && (a.Paused? <==> JustDeferred(t, told).Some?)
    && match a
       case Asked(stop) => stop == told.stop(Tally(t).stops)
       case Skipped(_, at) => at == told.clock(Tally(t).clocks)
       case ClaimedBatch(_, at, ids) => at == told.clock(Tally(t).clocks) && ids == told.claim(Tally(t).claims)
       case Started(_, outcome) => outcome == told.outcome(Tally(t).starts)
       case Paused(_, until) => until == told.clock(Tally(t).clocks) + JustDeferred(t, told).value
       case _ => true
  }

  predicate Answers(t: seq<Act>, told: Told) {
    t != [] ==> Answers(Before(t), told) && Heard(Before(t), Last(t), told)
  }

  // ---- When it returns ---------------------------------------------------------

  /** Nothing is left to do before the next turn. */
  predicate AtRest(t: seq<Act>, told: Told, n: nat) {
    && Unstarted(t) == [] && JustDeferred(t, told).None? && !IdleDue(t, n)
    && (t != [] ==> !Last(t).Paused? && !Last(t).Asked?)
  }

  /** A relay of `passes` rotations has come to its end: told to stop, before a turn or
      before a row, with nothing left over, or at rest once every turn was taken. */
  predicate Returns(t: seq<Act>, told: Told, lanes: seq<string>, passes: nat) {
    && Lawful(t, lanes) && Answers(t, told)
    && if ToldToStop(t) then
         && Unstarted(t) == [] && |Turns(t)| <= Rounds(passes, |lanes|)
         && (Last(t) == Asked(true) ==> |Turns(t)| < Rounds(passes, |lanes|))
       else
         AtRest(t, told, |lanes|) && |Turns(t)| == Rounds(passes, |lanes|)
  }

  /** The turns of so many whole rotations. */
  function Rounds(passes: nat, n: nat): nat {
    if passes == 0 then 0 else Rounds(passes - 1, n) + n
  }

  // ---- The relay's state and what it keeps -------------------------------------

  /** The trace, how much it has been told, and the relay's own variables. */
  datatype State = State(t: seq<Act>, asks: Asks, paused: map<string, Time>, counts: multiset<Status>)

  const START := State([], Asks(0, 0, 0, 0), map[], multiset{})

  /** A pause the relay has forgotten was over by the next reading of the clock. */
  ghost predicate PausesKnown(st: State, told: Told) {
    forall lane :: match PauseEnd(st.t, lane)
                   case None => lane !in st.paused
                   case Some(end) =>
                     if lane in st.paused then st.paused[lane] == end else end <= told.clock(st.asks.clocks)
  }

  predicate Kept(st: State, told: Told, lanes: seq<string>) {
    Lawful(st.t, lanes) && Answers(st.t, told) && st.counts == Outcomes(st.t) && st.asks == Tally(st.t)
  }

  ghost predicate Ok(st: State, told: Told, lanes: seq<string>) {
    Kept(st, told, lanes) && PausesKnown(st, told) && !ToldToStop(st.t)
  }

  /** The state once an act is added to the trace. */
  function Did(st: State, a: Act): State {
    State(st.t + [a], OneMore(st.asks, a),
          if a.Paused? then st.paused[a.lane := a.until] else st.paused,
          if a.Started? && a.outcome.Some? then st.counts + multiset{a.outcome.value} else st.counts)
  }

  lemma Appended(t: seq<Act>, a: Act)
    ensures t + [a] != [] && Last(t + [a]) == a && Before(t + [a]) == t
  {
  }

  /** One lawful act that answers to what was told keeps the state. */
  lemma ActKeeps(st: State, a: Act, told: Told, lanes: seq<string>)
    requires Kept(st, told, lanes) && Fits(st.t, a, lanes) && Heard(st.t, a, told)
    ensures Kept(Did(st, a), told, lanes)
  {
    Appended(st.t, a);
  }

  /** A pause the relay does not remember is no pause at any later reading. */
  lemma ActKeepsPauses(st: State, a: Act, told: Told)
    requires Forward(told) && PausesKnown(st, told)
    ensures PausesKnown(Did(st, a), told)
  {
    Appended(st.t, a);
    assert told.clock(st.asks.clocks) <= told.clock(st.asks.clocks + 1);
    assert forall lane :: PauseEnd(st.t + [a], lane) ==
                          if a.Paused? && a.lane == lane then Some(a.until) else PauseEnd(st.t, lane);
  }

  /** What one act leaves unstarted, and which turns it leaves taken. */
  lemma ActShows(t: seq<Act>, a: Act)
    ensures var t' := t + [a];
            && t' != [] && Last(t') == a && Before(t') == t
            && Unstarted(t') == Left(Unstarted(t), a)
            && Taken(t') == (if IsTurn(a) then Taken(t) + [a] else Taken(t))
            && (ToldToStop(t') <==> ToldToStop(t) || a == Asked(true))
  {
    Appended(t, a);
  }

  /** Mid-batch: these rows are claimed and not started, and their lane is not paused. */
  ghost predicate Holding(st: State, ids: seq<int>, turns: seq<Act>, told: Told, lanes: seq<string>) {
    && Ok(st, told, lanes) && JustDeferred(st.t, told).None?
    && Unstarted(st.t) == ids && Taken(st.t) == turns && turns != [] && turns[|turns| - 1].ClaimedBatch?
    && Last(turns).lane !in st.paused
    && (st.t != [] ==> !Last(st.t).Paused? && !Last(st.t).Asked?)
    && (ids != [] ==> !Fruitless(turns, 1))
  }

  /** Between turns, these taken: nothing is left over; and either the relay was told to
      stop, or it goes on. */
  ghost predicate Over(st: State, stopped: bool, turns: seq<Act>, told: Told, lanes: seq<string>) {
    && Kept(st, told, lanes) && Unstarted(st.t) == [] && Taken(st.t) == turns
    && if stopped then
         ToldToStop(st.t)
       else
         && Ok(st, told, lanes) && JustDeferred(st.t, told).None?
         && (st.t != [] ==> !Last(st.t).Paused? && !Last(st.t).Asked?)
  }

  method Do(st0: State, a: Act, told: Told, lanes: seq<string>) returns (st: State)
    requires Forward(told) && Ok(st0, told, lanes) && Fits(st0.t, a, lanes) && Heard(st0.t, a, told)
    ensures st == Did(st0, a) && Kept(st, told, lanes)
    ensures a != Asked(true) ==> Ok(st, told, lanes)
  {
    st := Did(st0, a);
    ActKeeps(st0, a, told, lanes);
    ActKeepsPauses(st0, a, told);
    ActShows(st0.t, a);
  }

  /** Read `stop`, before a turn or before a row. */
  method AskStop(st0: State, told: Told, lanes: seq<string>) returns (st: State, stop: bool)
    requires Forward(told) && Ok(st0, told, lanes) && JustDeferred(st0.t, told).None? && !IdleDue(st0.t, |lanes|)
    requires st0.t != [] ==> !Last(st0.t).Paused? && !Last(st0.t).Asked?
    ensures Kept(st, told, lanes) && st == Did(st0, Asked(stop))
    ensures !stop ==> Ok(st, told, lanes)
  {
    stop := told.stop(st0.asks.stops);
    st := Do(st0, Asked(stop), told, lanes);
  }

  /** Told to stop mid-batch: the rest goes back under the claim that took it. */
  lemma StoppingGivesBack(st: State, ids: seq<int>, turns: seq<Act>, told: Told, lanes: seq<string>)
    requires Kept(st, told, lanes) && Unstarted(st.t) == ids != [] && Taken(st.t) == turns != []
    requires st.t != [] && Last(st.t) == Asked(true)
    ensures Over(Did(st, GaveBack(ids, Last(turns).at)), true, turns, told, lanes)
  {
    assert !IdleDue(st.t, |lanes|);
    ActKeeps(st, GaveBack(ids, Last(turns).at), told, lanes);
    ActShows(st.t, GaveBack(ids, Last(turns).at));
  }

  /** A deferral pauses its lane from when it was heard, and the rest of the batch,
      every row of it in that lane, goes back. */
  method SetAside(st0: State, lane: string, delay: nat, ids: seq<int>, at: Time, ghost turns: seq<Act>, told: Told,
                  lanes: seq<string>)
    returns (st: State)
    requires Forward(told) && Ok(st0, told, lanes) && lane !in st0.paused
    requires JustDeferred(st0.t, told) == Some(delay) && Unstarted(st0.t) == ids
    requires Taken(st0.t) == turns && turns != [] && lane == Last(turns).lane && at == Last(turns).at
    ensures Over(st, false, turns, told, lanes)
  {
    var pause := Paused(lane, told.clock(st0.asks.clocks) + delay);
    assert Fits(st0.t, pause, lanes) && Heard(st0.t, pause, told);
    st := Do(st0, pause, told, lanes);
    ActShows(st0.t, pause);
    ghost var mid := st;
    st := Do(st, GaveBack(ids, at), told, lanes);
    ActShows(mid.t, GaveBack(ids, at));
  }

  /** Start the batch's next row, unless `stop` says so; a deferral ends the batch. */
  method DeliverNext(told: Told, lanes: seq<string>, lane: string, at: Time, ids: seq<int>, ghost turns: seq<Act>,
                     st0: State)
    returns (st: State, stopped: bool, over: bool)
    requires Forward(told) && lanes != [] && ids != [] && Holding(st0, ids, turns, told, lanes)
    requires lane == Last(turns).lane && at == Last(turns).at
    ensures if over then Over(st, stopped, turns, told, lanes) else Holding(st, ids[1..], turns, told, lanes)
    ensures stopped ==> over && st.t != [] && Last(st.t).GaveBack?
  {
    over := true;
    FruitfulGoesOn(turns, |lanes|);
    st, stopped := AskStop(st0, told, lanes);
    ActShows(st0.t, Asked(stopped));
    if stopped {
      StoppingGivesBack(st, ids, turns, told, lanes);
      st := Did(st, GaveBack(ids, at));
      return;
    }
    var deferral;
    st, deferral := Start(st, ids, turns, told, lanes);
    over := deferral.Some?;
    if over {
      st := SetAside(st, lane, deferral.value, ids[1..], at, turns, told, lanes);
    }
  }

  lemma FruitfulGoesOn(turns: seq<Act>, n: nat)
    requires !Fruitless(turns, 1) && n > 0
    ensures !Fruitless(turns, n)
  {
  }

  method Start(st0: State, ids: seq<int>, ghost turns: seq<Act>, told: Told, lanes: seq<string>)
    returns (st: State, deferral: Option<nat>)
    requires Forward(told) && Ok(st0, told, lanes) && st0.t != [] && Last(st0.t) == Asked(false)
    requires ids != [] && Unstarted(st0.t) == ids && Taken(st0.t) == turns
    ensures Ok(st, told, lanes) && st.paused == st0.paused && st.t != [] && Last(st.t).Started?
    ensures Unstarted(st.t) == ids[1..] && Taken(st.t) == turns && JustDeferred(st.t, told) == deferral
  {
    var start := Started(ids[0], told.outcome(st0.asks.starts));
    deferral := told.deferral(st0.asks.starts);
    st := Do(st0, start, told, lanes);
    ActShows(st0.t, start);
  }

  /** Deliver a claimed batch until it is done, a deferral pauses the lane, or `stop`
      says so; whatever was not started is handed back. */
  method DeliverBatch(told: Told, lanes: seq<string>, lane: string, at: Time, ids: seq<int>, ghost turns: seq<Act>,
                      st0: State)
    returns (st: State, stopped: bool)
    requires Forward(told) && lanes != [] && Holding(st0, ids, turns, told, lanes)
    requires lane == Last(turns).lane && at == Last(turns).at
    ensures Over(st, stopped, turns, told, lanes)
    ensures ids == [] ==> st == st0 && !stopped
    ensures stopped ==> st.t != [] && Last(st.t).GaveBack?
  {
    st, stopped := st0, false;
    var unstarted := ids;
    while unstarted != []
      invariant Holding(st, unstarted, turns, told, lanes)
      invariant ids == [] ==> st == st0 && unstarted == []
      decreases |unstarted|
    {
      var over;
      st, stopped, over := DeliverNext(told, lanes, lane, at, unstarted, turns, st);
      if over {
        return;
      }
      unstarted := unstarted[1..];
    }
    stopped := false;
  }

  /** The turn's one reading of the clock tells whether the lane is paused; a pause
      that is over is forgotten. */
  method ReadPause(st0: State, lane: string, told: Told, lanes: seq<string>)
    returns (st: State, at: Time, paused: bool)
    requires Ok(st0, told, lanes)
    ensures Ok(st, told, lanes) && st.t == st0.t && at == told.clock(st.asks.clocks)
    ensures paused <==> PausedAt(st.t, lane, at)
    ensures !paused ==> lane !in st.paused
  {
    at := told.clock(st0.asks.clocks);
    st := st0;
    paused := lane in st.paused && st.paused[lane] > at;
    if !paused {
      st := st.(paused := st.paused - {lane});
    }
  }

  lemma {:induction false} RoundsMultiply(passes: nat, n: nat)
    ensures Rounds(passes, n) == passes * n
  {
    if passes > 0 {
      RoundsMultiply(passes - 1, n);
      assert passes * n == (passes - 1) * n + n;
    }
  }

  lemma TurnIndex(pass: nat, i: nat, n: nat)
    requires i < n
    ensures (Rounds(pass, n) + i) % n == i
  {
    RoundsMultiply(pass, n);
    ModIs(Rounds(pass, n) + i, pass, i, n);
  }

  /** Where a rotation stands: so many of its turns taken, and whether any claimed a row. */
  ghost predicate Rotating(st: State, pass: nat, i: nat, claimed: bool, told: Told, lanes: seq<string>) {
    && Over(st, false, Taken(st.t), told, lanes) && i <= |lanes|
    && |Turns(st.t)| == Rounds(pass, |lanes|) + i
    && (claimed <==> !Fruitless(Taken(st.t), i))
    && (i < |lanes| ==> !IdleDue(st.t, |lanes|))
    && (i > 0 && !claimed ==> st.t != [] && IsTurn(Last(st.t)))
  }

  /** Told to stop in this pass: with every turn of the last taken, only mid-batch. */
  ghost predicate Halted(st: State, turns: nat, told: Told, lanes: seq<string>) {
    && Over(st, true, Taken(st.t), told, lanes)
    && |Turns(st.t)| <= turns && (Last(st.t) == Asked(true) ==> |Turns(st.t)| < turns)
  }

  /** The turn of a lane not paused: its claim, and what follows. */
  method Claim(told: Told, lanes: seq<string>, lane: string, at: Time, st0: State)
    returns (st: State, stopped: bool, claimed: bool)
    requires Forward(told) && lanes != [] && Ok(st0, told, lanes) && Unstarted(st0.t) == []
    requires st0.t != [] && Last(st0.t) == Asked(false) && InTurn(|Turns(st0.t)|, lane, lanes)
    requires at == told.clock(st0.asks.clocks) && !PausedAt(st0.t, lane, at) && lane !in st0.paused
    ensures Over(st, stopped, Taken(st.t), told, lanes)
    ensures |Taken(st.t)| == |Taken(st0.t)| + 1 && Before(Taken(st.t)) == Taken(st0.t)
    ensures claimed <==> !Fruitless(Taken(st.t), 1)
    ensures !claimed ==> !stopped && st.t != [] && IsTurn(Last(st.t))
    ensures stopped ==> Last(st.t) != Asked(true)
  {
    var ids := told.claim(st0.asks.claims);
    var claim := ClaimedBatch(lane, at, ids);
    assert !GiveBackDue(st0.t) && !IdleDue(st0.t, |lanes|);
    st := Do(st0, claim, told, lanes);
    ActShows(st0.t, claim);
    claimed := ids != [];
    ghost var turns := Taken(st0.t) + [claim];
    assert Last(turns) == claim;
    st, stopped := DeliverBatch(told, lanes, lane, at, ids, turns, st);
  }

  /** One lane's turn: skipped while paused, else claimed and delivered. */
  method Turn(told: Told, lanes: seq<string>, i: nat, pass: nat, claimed0: bool, st0: State)
    returns (st: State, stopped: bool, claimed: bool)
    requires Forward(told) && i < |lanes| && Rotating(st0, pass, i, claimed0, told, lanes)
    ensures if stopped then Halted(st, Rounds(pass + 1, |lanes|), told, lanes)
            else Rotating(st, pass, i + 1, claimed, told, lanes)
  {
    TurnIndex(pass, i, |lanes|);
    claimed := claimed0;
    st, stopped := AskStop(st0, told, lanes);
    ActShows(st0.t, Asked(stopped));
    if stopped {
      return;
    }
    var at, paused;
    st, at, paused := ReadPause(st, lanes[i], told, lanes);
    var took := false;
    if paused {
      st := Skip(told, lanes, lanes[i], at, st);
    } else {
      st, stopped, took := Claim(told, lanes, lanes[i], at, st);
    }
    claimed := claimed0 || took;
    if !stopped {
      TurnDone(st0, st, i, pass, claimed0, took, told, lanes);
    }
  }

  /** The turn of a paused lane. */
  method Skip(told: Told, lanes: seq<string>, lane: string, at: Time, st0: State) returns (st: State)
    requires Forward(told) && Ok(st0, told, lanes) && Unstarted(st0.t) == []
    requires st0.t != [] && Last(st0.t) == Asked(false) && InTurn(|Turns(st0.t)|, lane, lanes)
    requires at == told.clock(st0.asks.clocks) && PausedAt(st0.t, lane, at)
    ensures Over(st, false, Taken(st.t), told, lanes)
    ensures |Taken(st.t)| == |Taken(st0.t)| + 1 && Before(Taken(st.t)) == Taken(st0.t)
    ensures Fruitless(Taken(st.t), 1) && st.t != [] && IsTurn(Last(st.t))
  {
    var skip := Skipped(lane, at);
    assert !GiveBackDue(st0.t) && !IdleDue(st0.t, |lanes|);
    st := Do(st0, skip, told, lanes);
    ActShows(st0.t, skip);
  }

  lemma TurnDone(st0: State, st: State, i: nat, pass: nat, claimed: bool, took: bool, told: Told, lanes: seq<string>)
    requires i < |lanes| && Rotating(st0, pass, i, claimed, told, lanes) && Over(st, false, Taken(st.t), told, lanes)
    requires |Taken(st.t)| == |Taken(st0.t)| + 1 && Before(Taken(st.t)) == Taken(st0.t)
    requires took <==> !Fruitless(Taken(st.t), 1)
    requires !took ==> st.t != [] && IsTurn(Last(st.t))
    ensures Rotating(st, pass, i + 1, claimed || took, told, lanes)
  {
    FruitlessOn(Taken(st.t), i);
    if i + 1 < |lanes| {
      TurnIndex(pass, i + 1, |lanes|);
    }
  }

  lemma FruitlessOn(turns: seq<Act>, i: nat)
    requires i < |turns|
    ensures Fruitless(turns, i + 1) <==> Fruitless(turns, 1) && Fruitless(turns[..|turns| - 1], i)
  {
    var n := |turns|;
    assert forall k | 0 <= k < n - 1 :: turns[..n - 1][k] == turns[k];
    if Fruitless(turns, i + 1) {
      assert forall k | 0 <= k < n - 1 && n - 1 - i <= k :: turns[k].ClaimedBatch? ==> turns[k].ids == [];
    }
    if Fruitless(turns, 1) && Fruitless(turns[..n - 1], i) {
      forall k | 0 <= k < n && n - (i + 1) <= k ensures turns[k].ClaimedBatch? ==> turns[k].ids == [] {
        if k < n - 1 {
          assert turns[..n - 1][k] == turns[k];
        }
      }
    }
  }

  /** One rotation over the lanes. */
  method Pass(told: Told, lanes: seq<string>, pass: nat, st0: State)
    returns (st: State, stopped: bool, claimed: bool)
    requires Forward(told) && lanes != [] && Rotating(st0, pass, 0, false, told, lanes)
    ensures if stopped then Halted(st, Rounds(pass + 1, |lanes|), told, lanes)
            else Rotating(st, pass, |lanes|, claimed, told, lanes)
  {
    st, stopped, claimed := st0, false, false;
    var i := 0;
    while i < |lanes|
      invariant i <= |lanes|
      invariant Rotating(st, pass, i, claimed, told, lanes)
    {
      st, stopped, claimed := Turn(told, lanes, i, pass, claimed, st);
      if stopped {
        return;
      }
      i := i + 1;
    }
    stopped := false;
  }

  /** A pass that claimed nothing sweeps, if it is time to, and waits. */
  method Idle(st0: State, pass: nat, claimed: bool, told: Told, lanes: seq<string>) returns (st: State)
    requires Forward(told) && lanes != [] && Rotating(st0, pass, |lanes|, claimed, told, lanes)
    ensures Rotating(st, pass + 1, 0, false, told, lanes)
  {
    TurnIndex(pass + 1, 0, |lanes|);
    st := st0;
    if !claimed {
      st := Do(st0, Idled, told, lanes);
      ActShows(st0.t, Idled);
    }
  }

  lemma {:induction false} RoundsGrow(a: nat, b: nat, n: nat)
    requires a <= b
    ensures Rounds(a, n) <= Rounds(b, n)
  {
    if a < b {
      RoundsGrow(a, b - 1, n);
    }
  }

  // ---- The counts ---------------------------------------------------------------------

  /** Whether an act of the trace starts a row that came to this. */
  function CameTo(t: seq<Act>, status: Status): nat -> bool {
    (i: nat) => i < |t| && t[i].Started? && t[i].outcome == Some(status)
  }

  lemma CountedNext(t: seq<Act>, n: nat, status: Status)
    requires n < |t|
    ensures Outcomes(t[..n + 1])[status] == Outcomes(t[..n])[status] + if CameTo(t, status)(n) then 1 else 0
  {
    assert Before(t[..n + 1]) == t[..n] && Last(t[..n + 1]) == t[n];
  }

  lemma {:induction false} OutcomesAreCounted(t: seq<Act>, n: nat, status: Status)
    requires n <= |t|
    ensures Outcomes(t[..n])[status] == |Positions(n, CameTo(t, status))|
  {
    if n == 0 {
      assert Positions(0, CameTo(t, status)) == {};
    } else {
      OutcomesAreCounted(t, n - 1, status);
      CountedNext(t, n - 1, status);
      PositionsGrow(n - 1, CameTo(t, status));
    }
  }

  lemma CountsReadOff(t: seq<Act>)
    ensures forall status :: Outcomes(t)[status] == |Positions(|t|, CameTo(t, status))|
  {
    forall status ensures Outcomes(t)[status] == |Positions(|t|, CameTo(t, status))| {
      OutcomesAreCounted(t, |t|, status);
      assert t[..|t|] == t;
    }
  }

  /** The relay: `passes` rotations over its lanes, of which there is one at least, or
      until `stop` says so. Its trace is the one `Returns` allows: lawful, made of what
      it was told, nothing claimed left over, and every turn of every pass taken unless
      it was told to stop. */
  method RunRelay(told: Told, lanes: seq<string>, passes: nat) returns (counts: multiset<Status>, trace: seq<Act>)
    requires Forward(told) && lanes != []
    ensures Returns(trace, told, lanes, passes)
    ensures forall status :: counts[status] == |Positions(|trace|, CameTo(trace, status))|
  {
    var st := START;
    var pass := 0;
    while pass < passes
      invariant pass <= passes
      invariant Rotating(st, pass, 0, false, told, lanes)
    {
      var stopped, claimed;
      st, stopped, claimed := Pass(told, lanes, pass, st);
      if stopped {
        RoundsGrow(pass + 1, passes, |lanes|);
        CountsReadOff(st.t);
        return st.counts, st.t;
      }
      st := Idle(st, pass, claimed, told, lanes);
      pass := pass + 1;
    }
    CountsReadOff(st.t);
    return st.counts, st.t;
  }

  // ---- The laws leave no choice ------------------------------------------------------

  /** What may come next is one act at most. */
  lemma NextIsDetermined(t: seq<Act>, a: Act, b: Act, told: Told, lanes: seq<string>)
    requires Fits(t, a, lanes) && Heard(t, a, told) && Fits(t, b, lanes) && Heard(t, b, told)
    ensures a == b
  {
  }

  /** Nothing may follow a trace a relay returned, but what it would do in its next pass. */
  lemma NothingFollows(t: seq<Act>, a: Act, told: Told, lanes: seq<string>, passes: nat)
    requires Returns(t, told, lanes, passes) && Fits(t, a, lanes) && Heard(t, a, told)
    ensures !ToldToStop(t) && a.Asked?
  {
  }

  lemma {:induction false} PrefixKeeps(t: seq<Act>, told: Told, lanes: seq<string>, i: nat)
    requires Lawful(t, lanes) && Answers(t, told) && i <= |t|
    ensures Lawful(t[..i], lanes) && Answers(t[..i], told)
    ensures i < |t| ==> Fits(t[..i], t[i], lanes) && Heard(t[..i], t[i], told)
    ensures |Turns(t[..i])| <= |Turns(t)|
  {
    if i == |t| {
      assert t[..i] == t;
    } else {
      var b := Before(t);
      PrefixKeeps(b, told, lanes, i);
      assert b[..i] == t[..i];
      if i == |b| {
        assert b == t[..i];
      }
    }
  }

  /** After its last turn a relay does not even ask whether to stop: it could not return
      then, and would take a turn too many if it went on. */
  lemma AskingIsOneTooMany(a: seq<Act>, stop: bool, told: Told, lanes: seq<string>, passes: nat)
    requires Returns(a, told, lanes, passes) && !ToldToStop(a)
    ensures var c := a + [Asked(stop)];
            && !Returns(c, told, lanes, passes) && |Turns(c)| == Rounds(passes, |lanes|)
            && forall x :: Fits(c, x, lanes) ==> IsTurn(x)
  {
    ActShows(a, Asked(stop));
  }

  /** Nothing a relay returns goes on as another trace it could return. */
  lemma NoLonger(a: seq<Act>, b: seq<Act>, told: Told, lanes: seq<string>, passes: nat)
    requires Returns(a, told, lanes, passes) && Returns(b, told, lanes, passes) && |a| < |b|
    ensures a != b[..|a|]
  {
    if a == b[..|a|] {
      var i := |a|;
      PrefixKeeps(b, told, lanes, i);
      NothingFollows(a, b[i], told, lanes, passes);
      AskingIsOneTooMany(a, b[i].stop, told, lanes, passes);
      Extends(b, i);
      PrefixKeeps(b, told, lanes, i + 1);
      if i + 1 < |b| {
        Extends(b, i + 1);
        PrefixKeeps(b, told, lanes, i + 2);
      }
    }
  }

  lemma Extends(t: seq<Act>, i: nat)
    requires i < |t|
    ensures t[..i + 1] == t[..i] + [t[i]] && (i + 1 == |t| ==> t[..i + 1] == t)
    ensures |Turns(t[..i + 1])| == |Turns(t[..i])| + if IsTurn(t[i]) then 1 else 0
  {
    assert t[..i + 1] == t[..i] + [t[i]];
    Appended(t[..i], t[i]);
  }

  /** Two traces with the laws and the end of a relay told the same are the same: so
      `Returns` is no more than what `RunRelay` does. */
  lemma {:induction false} RunIsDetermined(a: seq<Act>, b: seq<Act>, told: Told, lanes: seq<string>, passes: nat)
    requires Returns(a, told, lanes, passes) && Returns(b, told, lanes, passes)
    ensures a == b
  {
    var n := Min(|a|, |b|);
    AgreeUpTo(a, b, told, lanes, n);
    if |a| < |b| {
      assert a[..n] == a;
      NoLonger(a, b, told, lanes, passes);
    } else if |b| < |a| {
      assert b[..n] == b;
      NoLonger(b, a, told, lanes, passes);
    } else {
      assert a[..n] == a && b[..n] == b;
    }
  }

  lemma NextAgrees(a: seq<Act>, b: seq<Act>, told: Told, lanes: seq<string>, n: nat)
    requires Lawful(a, lanes) && Answers(a, told) && Lawful(b, lanes) && Answers(b, told)
    requires n < |a| && n < |b| && a[..n] == b[..n]
    ensures a[n] == b[n]
  {
    PrefixKeeps(a, told, lanes, n);
    PrefixKeeps(b, told, lanes, n);
    NextIsDetermined(a[..n], a[n], b[n], told, lanes);
  }

  lemma {:induction false} AgreeUpTo(a: seq<Act>, b: seq<Act>, told: Told, lanes: seq<string>, n: nat)
    requires Lawful(a, lanes) && Answers(a, told) && Lawful(b, lanes) && Answers(b, told)
    requires n <= |a| && n <= |b|
    ensures a[..n] == b[..n]
  {
    if n > 0 {
      AgreeUpTo(a, b, told, lanes, n - 1);
      NextAgrees(a, b, told, lanes, n - 1);
      Extends(a, n - 1);
      Extends(b, n - 1);
    }
  }

  // ---- What a lawful trace adds up to -----------------------------------------------

  /** The rows an act claims, starts and gives back. */
  function ActClaims(a: Act): multiset<int> {
    if a.ClaimedBatch? then multiset(a.ids) else multiset{}
  }

  function ActStarts(a: Act): multiset<int> {
    if a.Started? then multiset{a.id} else multiset{}
  }

  function ActGivesBack(a: Act): multiset<int> {
    if a.GaveBack? then multiset(a.ids) else multiset{}
  }

  /** And a trace, each as often as it does. */
  function ClaimedRows(t: seq<Act>): multiset<int> {
    if t == [] then multiset{} else ClaimedRows(Before(t)) + ActClaims(Last(t))
  }

  function StartedRows(t: seq<Act>): multiset<int> {
    if t == [] then multiset{} else StartedRows(Before(t)) + ActStarts(Last(t))
  }

  function GivenBackRows(t: seq<Act>): multiset<int> {
    if t == [] then multiset{} else GivenBackRows(Before(t)) + ActGivesBack(Last(t))
  }

  /** No row is lost or delivered twice over: at every moment each row claimed has been
      started or given back, once each time it was claimed, or is still to be. */
  lemma {:induction false} ClaimedRowsAreAccounted(t: seq<Act>, lanes: seq<string>)
    requires Lawful(t, lanes)
    ensures ClaimedRows(t) == StartedRows(t) + GivenBackRows(t) + multiset(Unstarted(t))
  {
    if t != [] {
      var b, a := Before(t), Last(t);
      ClaimedRowsAreAccounted(b, lanes);
      OneActAccounted(a, Unstarted(b));
      Balances(ClaimedRows(b), StartedRows(b), GivenBackRows(b), multiset(Unstarted(b)),
               ActClaims(a), ActStarts(a), ActGivesBack(a), multiset(Left(Unstarted(b), a)));
    }
  }

  /** What an act claims is what it starts, gives back and leaves the more unstarted. */
  lemma OneActAccounted(a: Act, unstarted: seq<int>)
    requires a.Started? ==> unstarted != [] && a.id == unstarted[0]
    requires a.GaveBack? ==> a.ids == unstarted
    ensures multiset(unstarted) + ActClaims(a) == ActStarts(a) + ActGivesBack(a) + multiset(Left(unstarted, a))
  {
    if a.Started? {
      assert unstarted == [unstarted[0]] + unstarted[1..];
    }
  }

  lemma Balances(claimed: multiset<int>, started: multiset<int>, given: multiset<int>, left: multiset<int>,
                 c: multiset<int>, s: multiset<int>, g: multiset<int>, left': multiset<int>)
    requires claimed == started + given + left && left + c == s + g + left'
    ensures claimed + c == (started + s) + (given + g) + left'
  {
    forall x: int ensures (claimed + c)[x] == ((started + s) + (given + g) + left')[x] {
      assert (left + c)[x] == (s + g + left')[x];
    }
  }

  lemma {:induction false} LawfulAt(t: seq<Act>, lanes: seq<string>, i: nat)
    requires Lawful(t, lanes) && i < |t|
    ensures Lawful(t[..i], lanes) && Fits(t[..i], t[i], lanes)
  {
    var b := Before(t);
    if i == |t| - 1 {
      assert b == t[..i];
    } else {
      LawfulAt(b, lanes, i);
      assert b[..i] == t[..i] && b[i] == t[i];
    }
  }

  lemma {:induction false} ToldBefore(t: seq<Act>, i: nat)
    requires i < |t| && t[i] == Asked(true)
    ensures ToldToStop(t)
  {
    if i < |t| - 1 {
      ToldBefore(Before(t), i);
    }
  }

  /** Nothing is claimed or started after `stop` said yes, nor without having just
      asked it. */
  lemma StopsWhenTold(t: seq<Act>, lanes: seq<string>, i: nat, j: nat)
    requires Lawful(t, lanes) && i < j < |t| && (IsTurn(t[j]) || t[j].Started?)
    ensures t[i] != Asked(true)
    ensures t[j - 1] == Asked(false)
  {
    LawfulAt(t, lanes, j);
    if t[i] == Asked(true) {
      ToldBefore(t[..j], i);
    }
  }

  /** A later pause never ends before an earlier one. */
  lemma {:induction false} PausesGrow(t: seq<Act>, lanes: seq<string>, i: nat)
    requires Lawful(t, lanes) && i < |t| && t[i].Paused?
    ensures PauseEnd(t, t[i].lane).Some? && t[i].until <= PauseEnd(t, t[i].lane).value
  {
    if i < |t| - 1 {
      PausesGrow(Before(t), lanes, i);
    }
  }

  /** A pause is of the lane whose batch was being delivered, right after the row that
      deferred, and as long as was asked from the reading of the clock that follows. */
  lemma PausesAreAsAsked(t: seq<Act>, told: Told, lanes: seq<string>, i: nat)
    requires Lawful(t, lanes) && Answers(t, told) && i < |t| && t[i].Paused?
    ensures i > 0 && t[i - 1].Started?
    ensures var delay := told.deferral(Tally(t[..i - 1]).starts);
            delay.Some? && t[i].until == told.clock(Tally(t[..i]).clocks) + delay.value
    ensures Taken(t[..i]) != [] && t[i].lane == Last(Taken(t[..i])).lane
  {
    PrefixKeeps(t, told, lanes, i);
    assert Before(t[..i]) == t[..i - 1];
  }

  /** No lane is claimed at a reading of the clock before any pause of it ends. */
  lemma PausesLast(t: seq<Act>, lanes: seq<string>, i: nat, j: nat)
    requires Lawful(t, lanes) && i < j < |t|
    requires t[i].Paused? && t[j].ClaimedBatch? && t[i].lane == t[j].lane
    ensures t[i].until <= t[j].at
  {
    LawfulAt(t, lanes, j);
    PausesGrow(t[..j], lanes, i);
  }

  /** How often a lane's turn came. */
  function TurnsOf(lane: string, turns: seq<string>): nat {
    if turns == [] then 0 else TurnsOf(lane, turns[1..]) + if turns[0] == lane then 1 else 0
  }

  lemma MulGrows(d: int, n: nat)
    ensures d >= 1 ==> d * n >= n
    ensures d <= -1 ==> d * n <= -(n as int)
  {
  }

  lemma ModIs(a: nat, q: nat, r: nat, n: nat)
    requires n > 0 && a == q * n + r && r < n
    ensures a % n == r
  {
    var d := a / n - q;
    assert a == (a / n) * n + a % n;
    assert d * n == r - a % n;
    MulGrows(d, n);
  }

  lemma Shifted(a: nat, k: nat, n: nat)
    requires n > 0 && k <= n
    ensures (a + k) % n == if a % n + k < n then a % n + k else a % n + k - n
  {
    var q, r := a / n, a % n;
    assert a == q * n + r;
    if r + k < n {
      ModIs(a + k, q, r + k, n);
    } else {
      assert (q + 1) * n == q * n + n;
      if r + k - n < n {
        ModIs(a + k, q + 1, r + k - n, n);
      }
    }
  }

  /** Fewer than all the lanes' turns in a row name distinct lanes. */
  lemma {:induction false} WindowIsDistinct(lane: string, turns: seq<string>, lanes: seq<string>, from: nat)
    requires Distinct(lanes) && |turns| <= |lanes|
    requires forall i | 0 <= i < |turns| :: turns[i] == lanes[(from + i) % |lanes|]
    ensures TurnsOf(lane, turns) == if lane in turns then 1 else 0
  {
    if turns != [] {
      forall i | 0 <= i < |turns[1..]|
        ensures turns[1..][i] == lanes[(from + 1 + i) % |lanes|] && turns[1..][i] != turns[0]
      {
        assert turns[1..][i] == turns[i + 1];
        Shifted(from, i + 1, |lanes|);
      }
      WindowIsDistinct(lane, turns[1..], lanes, from + 1);
    }
  }

  /** The turns go round the lanes. */
  lemma {:induction false} TurnsGoRound(t: seq<Act>, lanes: seq<string>, k: nat)
    requires Lawful(t, lanes) && k < |Turns(t)|
    ensures lanes != [] && Turns(t)[k] == lanes[k % |lanes|]
  {
    if k < |Turns(Before(t))| {
      TurnsGoRound(Before(t), lanes, k);
    }
  }

  /** A lane's next turn comes after exactly one round. */
  lemma NextTurnOf(turns: seq<string>, lanes: seq<string>, i: nat, j: nat)
    requires lanes != [] && Distinct(lanes) && i < j < |turns|
    requires forall k | 0 <= k < |turns| :: turns[k] == lanes[k % |lanes|]
    requires turns[i] == turns[j] && forall k | i < k < j :: turns[k] != turns[i]
    ensures j == i + |lanes|
  {
    var n := |lanes|;
    if j - i <= n {
      Shifted(i, j - i, n);
    } else {
      Shifted(i, n, n);
    }
  }

  /** Every other lane has a turn within the round. */
  lemma ComesBetween(turns: seq<string>, lanes: seq<string>, i: nat, other: string)
    requires lanes != [] && i + |lanes| < |turns| && other in lanes && other != turns[i]
    requires forall k | 0 <= k < |turns| :: turns[k] == lanes[k % |lanes|]
    ensures other in turns[i + 1..i + |lanes|]
  {
    var n := |lanes|;
    var p :| 0 <= p < n && lanes[p] == other;
    var gap := if p > i % n then p - i % n else p + n - i % n;
    Shifted(i, gap, n);
    assert turns[i + 1..i + n][gap - 1] == turns[i + gap] == other;
  }

  lemma OneEach(turns: seq<string>, lanes: seq<string>, i: nat, j: nat, other: string)
    requires lanes != [] && Distinct(lanes) && i < j < |turns|
    requires forall k | 0 <= k < |turns| :: turns[k] == lanes[k % |lanes|]
    requires turns[i] == turns[j] && forall k | i < k < j :: turns[k] != turns[i]
    requires other in lanes && other != turns[i]
    ensures TurnsOf(other, turns[i + 1..j]) == 1
  {
    NextTurnOf(turns, lanes, i, j);
    ComesBetween(turns, lanes, i, other);
    WindowIsDistinct(other, turns[i + 1..j], lanes, i + 1);
  }

  // ---- Fairness over the acts ----------------------------------------------------

  function Claims(t: seq<Act>, lane: string): nat {
    if t == [] then 0 else Claims(Before(t), lane) + if Last(t).ClaimedBatch? && Last(t).lane == lane then 1 else 0
  }

  function Skips(t: seq<Act>, lane: string): nat {
    if t == [] then 0 else Skips(Before(t), lane) + if Last(t).Skipped? && Last(t).lane == lane then 1 else 0
  }

  lemma {:induction false} TurnsOfConcat(lane: string, a: seq<string>, b: seq<string>)
    ensures TurnsOf(lane, a + b) == TurnsOf(lane, a) + TurnsOf(lane, b)
  {
    if a == [] {
      assert a + b == b;
    } else {
      assert (a + b)[1..] == a[1..] + b;
      TurnsOfConcat(lane, a[1..], b);
    }
  }

  lemma {:induction false} TurnsOfActs(t: seq<Act>, lane: string)
    ensures TurnsOf(lane, Turns(t)) == Claims(t, lane) + Skips(t, lane)
  {
    if t != [] {
      TurnsOfActs(Before(t), lane);
      if IsTurn(Last(t)) {
        TurnsOfConcat(lane, Turns(Before(t)), [Last(t).lane]);
      }
    }
  }

  lemma {:induction false} TurnsConcat(a: seq<Act>, b: seq<Act>)
    ensures Turns(a + b) == Turns(a) + Turns(b)
  {
    if b == [] {
      assert a + b == a;
    } else {
      TurnsConcat(a, Before(b));
      assert Before(a + b) == a + Before(b) && Last(a + b) == Last(b);
    }
  }

  /** Between two turns of a lane every other lane has one turn more than it. */
  lemma {:induction false} OneMoreTurn(turns: seq<string>, lanes: seq<string>, i: nat, j: nat, other: string)
    requires lanes != [] && Distinct(lanes) && i < j < |turns|
    requires forall k | 0 <= k < |turns| :: turns[k] == lanes[k % |lanes|]
    requires turns[i] == turns[j] && other in lanes && other != turns[i]
    ensures TurnsOf(other, turns[i + 1..j]) == 1 + TurnsOf(turns[i], turns[i + 1..j])
    decreases j - i
  {
    var n := |lanes|;
    if k :| i < k < j && turns[k] == turns[i] {
      OneMoreTurn(turns, lanes, i, k, other);
      OneMoreTurn(turns, lanes, k, j, other);
      assert turns[i + 1..j] == turns[i + 1..k] + ([turns[k]] + turns[k + 1..j]);
      SplitAt(turns[i], turns[i + 1..k], turns[k], turns[k + 1..j]);
      SplitAt(other, turns[i + 1..k], turns[k], turns[k + 1..j]);
    } else {
      OneEach(turns, lanes, i, j, other);
      NoneOf(turns[i], turns[i + 1..j]);
    }
  }

  lemma SplitAt(lane: string, a: seq<string>, x: string, b: seq<string>)
    ensures TurnsOf(lane, a + ([x] + b)) == TurnsOf(lane, a) + TurnsOf(lane, b) + if x == lane then 1 else 0
  {
    TurnsOfConcat(lane, a, [x] + b);
    assert ([x] + b)[1..] == b;
  }

  lemma {:induction false} NoneOf(lane: string, turns: seq<string>)
    requires lane !in turns
    ensures TurnsOf(lane, turns) == 0
  {
    if turns != [] {
      NoneOf(lane, turns[1..]);
    }
  }

  lemma TurnsAt(t: seq<Act>, i: nat)
    requires i < |t| && IsTurn(t[i])
    ensures Turns(t[..i + 1]) == Turns(t[..i]) + [t[i].lane]
  {
    Appended(t[..i], t[i]);
    assert t[..i + 1] == t[..i] + [t[i]];
  }

  /** The turns of a stretch of the trace, between two turns. */
  lemma TurnsBetween(t: seq<Act>, i: nat, j: nat)
    requires i < j < |t| && IsTurn(t[i]) && IsTurn(t[j])
    ensures var a, b := |Turns(t[..i])|, |Turns(t[..j])|;
            && a < b < |Turns(t)| && Turns(t)[a] == t[i].lane && Turns(t)[b] == t[j].lane
            && Turns(t)[a + 1..b] == Turns(t[i + 1..j])
  {
    TurnsAt(t, i);
    TurnsAt(t, j);
    TurnsSplit(t[..j], i + 1);
    assert t[..j][..i + 1] == t[..i + 1] && t[..j][i + 1..] == t[i + 1..j];
    TurnsSplit(t, j + 1);
    Slices(Turns(t[..i]), t[i].lane, Turns(t[i + 1..j]), t[j].lane, Turns(t[j + 1..]), Turns(t));
  }

  lemma TurnsSplit(t: seq<Act>, i: nat)
    requires i <= |t|
    ensures Turns(t) == Turns(t[..i]) + Turns(t[i..])
  {
    assert t == t[..i] + t[i..];
    TurnsConcat(t[..i], t[i..]);
  }

  lemma Slices(a: seq<string>, x: string, m: seq<string>, y: string, b: seq<string>, whole: seq<string>)
    requires whole == a + [x] + m + [y] + b
    ensures whole[|a|] == x && whole[|a| + 1 + |m|] == y && whole[|a| + 1..|a| + 1 + |m|] == m
  {
  }

  /** Fair turns, exactly: between two turns of a lane, every other lane is claimed or
      skipped once more than that lane is. */
  lemma FairTurns(t: seq<Act>, lanes: seq<string>, i: nat, j: nat, other: string)
    requires Lawful(t, lanes) && Distinct(lanes) && i < j < |t|
    requires IsTurn(t[i]) && IsTurn(t[j]) && t[i].lane == t[j].lane
    requires other in lanes && other != t[i].lane
    ensures var between, lane := t[i + 1..j], t[i].lane;
            Claims(between, other) + Skips(between, other) == 1 + Claims(between, lane) + Skips(between, lane)
  {
    TurnsBetween(t, i, j);
    forall k | 0 <= k < |Turns(t)| ensures lanes != [] && Turns(t)[k] == lanes[k % |lanes|] {
      TurnsGoRound(t, lanes, k);
    }
    OneMoreTurn(Turns(t), lanes, |Turns(t[..i])|, |Turns(t[..j])|, other);
    TurnsOfActs(t[i + 1..j], other);
    TurnsOfActs(t[i + 1..j], t[i].lane);
  }

  /** So between two consecutive claims of a lane another lane is claimed once more for
      each turn a pause skipped of the first, and once less for each skipped of its own:
      at most once exactly when the first skipped no more turns than it did. */
  lemma FairClaims(t: seq<Act>, lanes: seq<string>, i: nat, j: nat, other: string)
    requires Lawful(t, lanes) && Distinct(lanes) && i < j < |t|
    requires t[i].ClaimedBatch? && t[j].ClaimedBatch? && t[i].lane == t[j].lane
    requires Claims(t[i + 1..j], t[i].lane) == 0
    requires other in lanes && other != t[i].lane
    ensures var between := t[i + 1..j];
            && Claims(between, other) == 1 + Skips(between, t[i].lane) - Skips(between, other)
            && (Claims(between, other) <= 1 <==> Skips(between, t[i].lane) <= Skips(between, other))
  {
    FairTurns(t, lanes, i, j, other);
  }

  lemma {:induction false} NoneSkipped(t: seq<Act>, lane: string)
    requires forall i | 0 <= i < |t| :: !t[i].Skipped?
    ensures Skips(t, lane) == 0
  {
    if t != [] {
      NoneSkipped(Before(t), lane);
    }
  }

  lemma {:induction false} UndeferredSkipsNone(t: seq<Act>, told: Told, lanes: seq<string>)
    requires Lawful(t, lanes) && Answers(t, told) && forall k: nat :: told.deferral(k).None?
    ensures (forall lane :: PauseEnd(t, lane) == None) && forall i | 0 <= i < |t| :: !t[i].Skipped?
  {
    if t != [] {
      UndeferredSkipsNone(Before(t), told, lanes);
      assert !Last(t).Paused? && !Last(t).Skipped?;
    }
  }

  /** Where no delivery defers without counting, claims alternate as turns do: between two
      consecutive claims of a lane every other lane is claimed exactly once. */
  lemma UndeferredClaimsAlternate(t: seq<Act>, told: Told, lanes: seq<string>, i: nat, j: nat, other: string)
    requires Lawful(t, lanes) && Answers(t, told) && forall k: nat :: told.deferral(k).None?
    requires Distinct(lanes) && i < j < |t|
    requires t[i].ClaimedBatch? && t[j].ClaimedBatch? && t[i].lane == t[j].lane
    requires Claims(t[i + 1..j], t[i].lane) == 0
    requires other in lanes && other != t[i].lane
    ensures Claims(t[i + 1..j], other) == 1
  {
    FairClaims(t, lanes, i, j, other);
    UndeferredSkipsNone(t, told, lanes);
    NoneSkipped(t[i + 1..j], t[i].lane);
    NoneSkipped(t[i + 1..j], other);
  }

  // ---- The at-most-once needs the pause to be absent --------------------------------

  const AB: seq<string> := ["a", "b"]

  /** What a relay of lanes `a` and `b` may be told: the first row of `a` defers for 5. */
  const PAUSED_TOLD := Told(
    i => false,
    i => if i <= 1 then 0 else if i <= 4 then i - 1 else i,
    i => if i == 0 then [1] else [],
    i => Some(Failed),
    i => if i == 0 then Some(5) else None)

  /** Where a trace over those lanes stands, `b` never paused. */
  predicate At(t: seq<Act>, left: seq<int>, pause: Option<Time>, turns: seq<Act>, n: Asks, heard: Option<nat>) {
    && Lawful(t, AB) && !ToldToStop(t) && Unstarted(t) == left && Taken(t) == turns
    && PauseEnd(t, "a") == pause && PauseEnd(t, "b") == None
    && Answers(t, PAUSED_TOLD) && Tally(t) == n && JustDeferred(t, PAUSED_TOLD) == heard
    && (t != [] ==> !Last(t).Paused? && !Last(t).Asked?)
  }

  /** What one act adds to what was told and to the pauses. */
  lemma ActAdds(t: seq<Act>, a: Act, told: Told, lane: string)
    ensures var t' := t + [a];
            && Tally(t') == OneMore(Tally(t), a)
            && (!a.Started? ==> JustDeferred(t', told) == None)
            && PauseEnd(t', lane) == if a.Paused? && a.lane == lane then Some(a.until) else PauseEnd(t, lane)
  {
    Appended(t, a);
  }

  lemma LawfulOn(t: seq<Act>, a: Act, told: Told, lanes: seq<string>)
    requires Lawful(t, lanes) && Answers(t, told) && Fits(t, a, lanes) && Heard(t, a, told)
    ensures Lawful(t + [a], lanes) && Answers(t + [a], told)
  {
    Appended(t, a);
  }

  lemma AskAt(t: seq<Act>, left: seq<int>, pause: Option<Time>, turns: seq<Act>, n: Asks)
    requires At(t, left, pause, turns, n, None) && !IdleDue(t, 2)
    ensures var t' := t + [Asked(false)];
            && Lawful(t', AB) && Answers(t', PAUSED_TOLD) && !ToldToStop(t') && Unstarted(t') == left
            && Taken(t') == turns && PauseEnd(t', "a") == pause && PauseEnd(t', "b") == None
            && Tally(t') == n.(stops := n.stops + 1) && JustDeferred(t', PAUSED_TOLD) == None
  {
    assert Fits(t, Asked(false), AB) && Heard(t, Asked(false), PAUSED_TOLD);
    LawfulOn(t, Asked(false), PAUSED_TOLD, AB);
    ActShows(t, Asked(false));
    ActAdds(t, Asked(false), PAUSED_TOLD, "a");
    ActAdds(t, Asked(false), PAUSED_TOLD, "b");
  }

  /** One turn of a lane, up to its claim or its skip. */
  lemma TurnAt(t: seq<Act>, pause: Option<Time>, turns: seq<Act>, n: Asks, a: Act) returns (t': seq<Act>)
    requires At(t, [], pause, turns, n, None) && !IdleDue(t, 2) && IsTurn(a) && InTurn(|turns|, a.lane, AB)
    requires a.at == PAUSED_TOLD.clock(n.clocks) && (a.ClaimedBatch? ==> a.ids == PAUSED_TOLD.claim(n.claims))
    requires a.Skipped? <==> a.lane == "a" && pause.Some? && a.at < pause.value
    ensures t' == t + [Asked(false), a] && Last(t') == a
    ensures At(t', if a.ClaimedBatch? then a.ids else [], pause, turns + [a], AfterTurn(n, a), None)
  {
    AskAt(t, [], pause, turns, n);
    var asked := t + [Asked(false)];
    ActShows(asked, a);
    t' := asked + [a];
    assert a.lane == "a" || a.lane == "b";
    assert PauseEnd(asked, a.lane) == if a.lane == "a" then pause else None;
    assert Fits(asked, a, AB) && Heard(asked, a, PAUSED_TOLD);
  }

  lemma StartAt(t: seq<Act>, turns: seq<Act>, n: Asks) returns (t': seq<Act>)
    requires At(t, [1], None, turns, n, None) && !IdleDue(t, 2) && n.starts == 0
    ensures t' == t + [Asked(false), Started(1, Some(Failed))]
    ensures At(t', [], None, turns, n.(stops := n.stops + 1, starts := 1), Some(5))
  {
    AskAt(t, [1], None, turns, n);
    ActShows(t + [Asked(false)], Started(1, Some(Failed)));
    t' := t + [Asked(false)] + [Started(1, Some(Failed))];
  }

  lemma PauseAt(t: seq<Act>, n: Asks) returns (t': seq<Act>)
    requires At(t, [], None, [ClaimedBatch("a", 0, [1])], n, Some(5)) && n.clocks == 1
    ensures t' == t + [Paused("a", 5), GaveBack([], 0)]
    ensures At(t', [], Some(5), [ClaimedBatch("a", 0, [1])], n.(clocks := 2), None)
  {
    ActShows(t, Paused("a", 5));
    ActShows(t + [Paused("a", 5)], GaveBack([], 0));
    t' := t + [Paused("a", 5)] + [GaveBack([], 0)];
  }

  lemma IdleAt(t: seq<Act>, pause: Option<Time>, turns: seq<Act>, n: Asks) returns (t': seq<Act>)
    requires At(t, [], pause, turns, n, None) && IdleDue(t, 2)
    ensures t' == t + [Idled] && At(t', [], pause, turns, n, None)
  {
    assert Fits(t, Idled, AB) && Heard(t, Idled, PAUSED_TOLD);
    LawfulOn(t, Idled, PAUSED_TOLD, AB);
    ActShows(t, Idled);
    ActAdds(t, Idled, PAUSED_TOLD, "a");
    ActAdds(t, Idled, PAUSED_TOLD, "b");
    t' := t + [Idled];
  }

  const UP_TO_PAUSE: seq<Act> :=
    [Asked(false), ClaimedBatch("a", 0, [1])]
    + [Asked(false), Started(1, Some(Failed))] + [Paused("a", 5), GaveBack([], 0)]

  const FIRST_OF_B: seq<Act> := [Asked(false), ClaimedBatch("b", 1, [])]

  const WHILE_PAUSED: seq<Act> :=
    [Asked(false), Skipped("a", 2)] + [Asked(false), ClaimedBatch("b", 3, [])] + [Idled]

  const AFTER_PAUSE: seq<Act> :=
    [Asked(false), ClaimedBatch("a", 5, [])] + [Asked(false), ClaimedBatch("b", 6, [])] + [Idled]

  const FIRST_TURNS: seq<Act> := [ClaimedBatch("a", 0, [1]), ClaimedBatch("b", 1, [])]

  lemma FirstClaimStands() returns (t: seq<Act>)
    ensures t == [Asked(false), ClaimedBatch("a", 0, [1])] && !IdleDue(t, 2)
    ensures At(t, [1], None, [ClaimedBatch("a", 0, [1])], Asks(1, 1, 1, 0), None)
  {
    t := TurnAt([], None, [], Asks(0, 0, 0, 0), ClaimedBatch("a", 0, [1]));
    OddIsNotDue(t, [ClaimedBatch("a", 0, [1])]);
  }

  lemma PauseStands()
    ensures At(UP_TO_PAUSE, [], Some(5), [ClaimedBatch("a", 0, [1])], Asks(2, 2, 1, 1), None)
    ensures !IdleDue(UP_TO_PAUSE, 2)
  {
    var t := FirstClaimStands();
    t := StartAt(t, [ClaimedBatch("a", 0, [1])], Asks(1, 1, 1, 0));
    t := PauseAt(t, Asks(2, 1, 1, 1));
    assert t == UP_TO_PAUSE;
    OddIsNotDue(t, [ClaimedBatch("a", 0, [1])]);
  }

  lemma FirstRotationStands()
    ensures At(UP_TO_PAUSE + FIRST_OF_B, [], Some(5), FIRST_TURNS, Asks(3, 3, 2, 1), None)
    ensures !IdleDue(UP_TO_PAUSE + FIRST_OF_B, 2)
  {
    PauseStands();
    var t := TurnAt(UP_TO_PAUSE, Some(5), [ClaimedBatch("a", 0, [1])], Asks(2, 2, 1, 1), ClaimedBatch("b", 1, []));
    assert !Fruitless(FIRST_TURNS, 2) by {
      assert FIRST_TURNS[0].ids != [];
    }
  }

  lemma FruitlessPair(turns: seq<Act>, a: Act, b: Act)
    requires (a.ClaimedBatch? ==> a.ids == []) && (b.ClaimedBatch? ==> b.ids == [])
    ensures turns + [a] + [b] == turns + [a, b] && Fruitless(turns + [a, b], 2)
  {
  }

  /** The turns of a rotation that claims nothing. */
  lemma BothTurnsAt(t: seq<Act>, turns: seq<Act>, n: Asks, a: Act, b: Act) returns (t': seq<Act>)
    requires At(t, [], Some(5), turns, n, None) && !IdleDue(t, 2) && |turns| % 2 == 0
    requires IsTurn(a) && a.lane == "a" && (if a.Skipped? then a.at < 5 else a.at >= 5 && a.ids == [])
    requires b.ClaimedBatch? && b.lane == "b" && b.ids == [] && n.claims > 0
    requires a.at == PAUSED_TOLD.clock(n.clocks) && b.at == PAUSED_TOLD.clock(n.clocks + 1)
    ensures t' == t + [Asked(false), a] + [Asked(false), b] && Last(t') == b
    ensures At(t', [], Some(5), turns + [a] + [b], AfterTurns(n, a, b), None)
  {
    t' := TurnAt(t, Some(5), turns, n, a);
    OddIsNotDue(t', turns + [a]);
    t' := TurnAt(t', Some(5), turns + [a], AfterTurn(n, a), b);
  }

  /** And then it idles. */
  lemma RotationAt(t: seq<Act>, turns: seq<Act>, n: Asks, a: Act, b: Act) returns (t': seq<Act>)
    requires At(t, [], Some(5), turns, n, None) && !IdleDue(t, 2) && |turns| % 2 == 0
    requires IsTurn(a) && a.lane == "a" && (if a.Skipped? then a.at < 5 else a.at >= 5 && a.ids == [])
    requires b.ClaimedBatch? && b.lane == "b" && b.ids == [] && n.claims > 0
    requires a.at == PAUSED_TOLD.clock(n.clocks) && b.at == PAUSED_TOLD.clock(n.clocks + 1)
    ensures t' == t + [Asked(false), a] + [Asked(false), b] + [Idled] && !IdleDue(t', 2)
    ensures At(t', [], Some(5), turns + [a, b], AfterTurns(n, a, b), None)
  {
    t' := BothTurnsAt(t, turns, n, a, b);
    FruitlessPair(turns, a, b);
    t' := IdleAt(t', Some(5), turns + [a, b], AfterTurns(n, a, b));
  }

  function AfterTurn(n: Asks, a: Act): Asks {
    OneMore(OneMore(n, Asked(false)), a)
  }

  function AfterTurns(n: Asks, a: Act, b: Act): Asks {
    AfterTurn(AfterTurn(n, a), b)
  }

  lemma OddIsNotDue(t: seq<Act>, turns: seq<Act>)
    requires Taken(t) == turns && |turns| % 2 == 1
    ensures !IdleDue(t, 2)
  {
  }

  lemma PausedRunReturns()
    ensures Returns(UP_TO_PAUSE + FIRST_OF_B + WHILE_PAUSED + AFTER_PAUSE, PAUSED_TOLD, AB, 3)
  {
    FirstRotationStands();
    var t := UP_TO_PAUSE + FIRST_OF_B;
    t := RotationAt(t, FIRST_TURNS, Asks(3, 3, 2, 1), Skipped("a", 2), ClaimedBatch("b", 3, []));
    var turns := FIRST_TURNS + [Skipped("a", 2), ClaimedBatch("b", 3, [])];
    Regrouped(UP_TO_PAUSE + FIRST_OF_B, WHILE_PAUSED, [Asked(false), Skipped("a", 2)],
              [Asked(false), ClaimedBatch("b", 3, [])], [Idled]);
    var t' := RotationAt(t, turns, Asks(5, 5, 3, 1), ClaimedBatch("a", 5, []), ClaimedBatch("b", 6, []));
    Regrouped(t, AFTER_PAUSE, [Asked(false), ClaimedBatch("a", 5, [])], [Asked(false), ClaimedBatch("b", 6, [])],
              [Idled]);
    assert |Turns(t')| == 6 == Rounds(3, |AB|);
  }

  lemma Regrouped(t: seq<Act>, whole: seq<Act>, a: seq<Act>, b: seq<Act>, c: seq<Act>)
    requires whole == a + b + c
    ensures t + whole == t + a + b + c
  {
  }

  /** Lane `b` is claimed twice between two consecutive claims of lane `a`, in all that a
      relay told this does in three passes. */
  lemma PausesUnbalanceClaims()
    ensures var t := UP_TO_PAUSE + FIRST_OF_B + WHILE_PAUSED + AFTER_PAUSE;
            && Forward(PAUSED_TOLD) && Returns(t, PAUSED_TOLD, AB, 3)
            && t[1] == ClaimedBatch("a", 0, [1]) && t[14] == ClaimedBatch("a", 5, [])
            && t[7] == ClaimedBatch("b", 1, []) && t[11] == ClaimedBatch("b", 3, [])
            && forall i | 1 < i < 14 && t[i].ClaimedBatch? :: t[i].lane == "b"
  {
    PausedRunReturns();
    assert |UP_TO_PAUSE| == 6 && |FIRST_OF_B| == 2 && |WHILE_PAUSED| == 5 && |AFTER_PAUSE| == 5;
    NoneOfA();
  }

  lemma NoneOfA()
    ensures var t := UP_TO_PAUSE + FIRST_OF_B + WHILE_PAUSED + AFTER_PAUSE;
            |t| == 18 && forall i | 1 < i < 14 && t[i].ClaimedBatch? :: t[i].lane == "b"
  {
  }
}
