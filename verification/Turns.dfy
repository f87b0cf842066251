/**
 The server's main loop around the game. Every turn of the loop reads the clock, and either
 processes a message or, when a tic has gone by, ticks the game if it runs.
 */
module Turns {
  import opened Round
  import opened Lifecycle
  import opened TimedEnd

  /**
   What a turn does, apart from ticking: the agent's commands and the messages before and
   after the clock is read. It is over at the end time, when the next turn can begin.
   */
  datatype Turn = Turn(early: seq<Op>, now: int, late: seq<Op>, end: int)

  /** Whatever players, robots and agents ask for; they never tick the game or set its time. */
  predicate Request(op: Op) {
    !op.Step? && !op.SetTime? && (op.Start? ==> op.force)
  }

  ghost predicate RequestsOnly(turns: seq<Turn>) {
    forall i | 0 <= i < |turns| :: AllRequests(turns[i].early) && AllRequests(turns[i].late)
  }

  ghost predicate AllRequests(ops: seq<Op>) {
    forall k | 0 <= k < |ops| :: Request(ops[k])
  }

  predicate Due(previousTic: int, tic: int, now: int) {
    !(now - previousTic < tic)
  }

  /** A tic is due once so much time has gone by since the last one that was. */
  lemma DueAfterTic(previousTic: int, tic: int, now: int)
    ensures Due(previousTic, tic, now) <==> now >= previousTic + tic
  {
  }

  function PreviousTic(start: int, tic: int, turns: seq<Turn>): int {
    if turns == [] then start
    else
      var before := PreviousTic(start, tic, turns[..|turns| - 1]);
      if Due(before, tic, turns[|turns| - 1].now) then turns[|turns| - 1].now else before
  }

  /** Everything the turn asks of the game before it is ticked. */
  function Asked(turn: Turn): seq<Op> {
    turn.early + [SetTime(turn.now)] + turn.late
  }

  function TurnOps(s: State, due: bool, turn: Turn): seq<Op>
    requires WellFormed(s)
  {
    Asked(turn) + if due && Run(s, Asked(turn)).running then [Step] else []
  }

  /** All that a run of the loop does to the game. */
  function Ops(s: State, start: int, tic: int, turns: seq<Turn>): seq<Op>
    requires WellFormed(s)
  {
    if turns == [] then []
    else
      var most, last := turns[..|turns| - 1], turns[|turns| - 1];
      var before := Ops(s, start, tic, most);
      before + TurnOps(Run(s, before), Due(PreviousTic(start, tic, most), tic, last.now), last)
  }

  // ----- Joining histories

  lemma {:induction false} RunOfJoin(s: State, a: seq<Op>, b: seq<Op>)
    requires WellFormed(s)
    ensures Run(s, a + b) == Run(Run(s, a), b)
  {
    hide Apply;
    if b == [] {
      assert a + b == a;
    } else {
      assert (a + b)[..|a + b| - 1] == a + b[..|b| - 1];
      RunOfJoin(s, a, b[..|b| - 1]);
    }
  }

  lemma OneMore(s: State, ops: seq<Op>, op: Op)
    requires WellFormed(s)
    ensures Run(s, ops + [op]) == Apply(Run(s, ops), op)
    ensures forall k | 0 <= k <= |ops| :: At(s, ops + [op], k) == At(s, ops, k)
  {
    hide Apply;
    assert (ops + [op])[..|ops|] == ops;
    forall k | 0 <= k <= |ops| ensures At(s, ops + [op], k) == At(s, ops, k) {
      assert (ops + [op])[..k] == ops[..k];
    }
  }

  lemma OneMoreDriven(s: State, ops: seq<Op>, op: Op)
    requires WellFormed(s) && ServerDriven(s, ops)
    requires op.Step? ==> Run(s, ops).running
    requires op.Start? ==> op.force
    ensures ServerDriven(s, ops + [op])
  {
    hide Apply, Run;
    OneMore(s, ops, op);
    assert ops[..|ops|] == ops;
  }

  lemma {:induction false} MoreDriven(s: State, ops: seq<Op>, more: seq<Op>)
    requires WellFormed(s) && ServerDriven(s, ops)
    requires forall k | 0 <= k < |more| :: Request(more[k]) || more[k].SetTime?
    ensures ServerDriven(s, ops + more)
  {
    hide ServerDriven;
    if more == [] {
      assert ops + more == ops;
    } else {
      var n := |more| - 1;
      MoreDriven(s, ops, more[..n]);
      OneMoreDriven(s, ops + more[..n], more[n]);
      assert ops + more[..n] + [more[n]] == ops + more;
    }
  }

  /** Whatever is asked of it, the loop only steps a running game, and only forces starts. */
  lemma {:induction false} LoopIsServerDriven(s: State, start: int, tic: int, turns: seq<Turn>)
    requires WellFormed(s) && RequestsOnly(turns)
    ensures ServerDriven(s, Ops(s, start, tic, turns))
  {
    hide ServerDriven;
    if turns == [] {
      NothingDriven(s);
    } else {
      var most, last := turns[..|turns| - 1], turns[|turns| - 1];
      LoopIsServerDriven(s, start, tic, most);
      var before := Ops(s, start, tic, most);
      MoreDriven(s, before, Asked(last));
      RunOfJoin(s, before, Asked(last));
      var ops := Ops(s, start, tic, turns);
      if ops == before + (Asked(last) + []) {
        assert ops == before + Asked(last);
      } else {
        assert ops == before + Asked(last) + [Step];
        OneMoreDriven(s, before + Asked(last), Step);
      }
    }
  }

  lemma NothingDriven(s: State)
    requires WellFormed(s)
    ensures ServerDriven(s, [])
  {
  }

  /** So out of a round nothing is owned and during one nobody has won, however the loop is used. */
  lemma LoopKeepsRoundsClean(s: State, start: int, tic: int, turns: seq<Turn>)
    requires WellFormed(s) && BetweenRounds(s) && RequestsOnly(turns)
    ensures BetweenRounds(Run(s, Ops(s, start, tic, turns)))
  {
    LoopIsServerDriven(s, start, tic, turns);
    RoundsAreClean(s, Ops(s, start, tic, turns));
  }

  // ----- The loop keeps time

  /** Starts among the operations read the clock between the two times. */
  ghost predicate StartsWithin(ops: seq<Op>, low: int, high: int) {
    forall k | 0 <= k < |ops| && ops[k].Start? :: low <= ops[k].now <= high
  }

  /** Clock readings never go back, and come a gap apart at most. */
  ghost predicate TimelyTurn(t: int, end: int, gap: int, turn: Turn) {
    && end <= turn.now <= turn.end && turn.now <= t + gap
    && StartsWithin(turn.early, end, turn.now) && StartsWithin(turn.late, turn.now, turn.end)
  }

  function LastReading(t: int, turns: seq<Turn>): int {
    if turns == [] then t else turns[|turns| - 1].now
  }

  function LastEnd(t: int, turns: seq<Turn>): int {
    if turns == [] then t else turns[|turns| - 1].end
  }

  ghost predicate Timely(t: int, gap: int, turns: seq<Turn>) {
    forall i | 0 <= i < |turns| ::
      TimelyTurn(LastReading(t, turns[..i]), LastEnd(t, turns[..i]), gap, turns[i])
  }

  /** Steps have been dense so far, and a running game was last stepped or started in between. */
  ghost predicate Kept(s: State, ops: seq<Op>, low: int, high: int)
    requires WellFormed(s)
  {
    && Dense(s, ops)
    && (Run(s, ops).running ==> low <= LastTick(s, ops, |ops|) <= high)
  }

  /** The same, and a step now would be dense. */
  ghost predicate CanStep(s: State, ops: seq<Op>, low: int, high: int)
    requires WellFormed(s)
  {
    && Kept(s, ops, low, high)
    && (Run(s, ops).running ==>
          LastTick(s, ops, |ops|) <= Run(s, ops).time <= LastTick(s, ops, |ops|) + SECOND)
  }

  lemma {:induction false} LastTickOfPrefix(s: State, ops: seq<Op>, op: Op, k: nat)
    requires WellFormed(s) && k <= |ops|
    ensures LastTick(s, ops + [op], k) == LastTick(s, ops, k)
  {
    hide Apply, Run;
    if k > 0 {
      LastTickOfPrefix(s, ops, op, k - 1);
      OneMore(s, ops, op);
    }
  }

  lemma LastTickAfter(s: State, ops: seq<Op>, op: Op)
    requires WellFormed(s)
    ensures LastTick(s, ops + [op], |ops| + 1) ==
              if op.Step? then Run(s, ops).time
              else if Restarts(Run(s, ops), op) then op.now
              else LastTick(s, ops, |ops|)
  {
    hide Apply, Run;
    LastTickOfPrefix(s, ops, op, |ops|);
    OneMore(s, ops, op);
    assert ops[..|ops|] == ops;
  }

  lemma OneMoreDense(s: State, ops: seq<Op>, op: Op)
    requires WellFormed(s) && Dense(s, ops)
    requires op.Step? && Run(s, ops).running ==>
               LastTick(s, ops, |ops|) <= Run(s, ops).time <= LastTick(s, ops, |ops|) + SECOND
    ensures Dense(s, ops + [op])
  {
    hide Apply, Run, LastTick, InTime;
    OneMore(s, ops, op);
    assert ops[..|ops|] == ops;
    forall k | 0 <= k < |ops + [op]| && (ops + [op])[k].Step? && At(s, ops + [op], k).running
      ensures InTime(s, ops + [op], k)
    {
      SameInTime(s, ops, op, k);
      assert k < |ops| ==> ops[k] == (ops + [op])[k];
    }
  }

  lemma SameInTime(s: State, ops: seq<Op>, op: Op, k: nat)
    requires WellFormed(s) && k <= |ops|
    ensures InTime(s, ops + [op], k) <==>
              LastTick(s, ops, k) <= At(s, ops, k).time <= LastTick(s, ops, k) + SECOND
    ensures InTime(s, ops + [op], k) <==> InTime(s, ops, k)
  {
    hide Apply, Run, LastTick;
    OneMore(s, ops, op);
    LastTickOfPrefix(s, ops, op, k);
  }

  lemma OneMoreGuarded(s: State, ops: seq<Op>, op: Op)
    requires WellFormed(s) && Guarded(s, ops)
    requires op.SetDuration? ==>
               && Usable(op.duration)
               && (Run(s, ops).running ==> LastTick(s, ops, |ops|) - Run(s, ops).startTime < op.duration)
    ensures Guarded(s, ops + [op])
  {
    hide Apply, Run, LastTick, Usable;
    OneMore(s, ops, op);
    assert ops[..|ops|] == ops;
    forall k | 0 <= k < |ops + [op]| && (ops + [op])[k].SetDuration? ensures Prolongs(s, ops + [op], k) {
      LastTickOfPrefix(s, ops, op, k);
      if k < |ops| {
        assert (ops + [op])[k] == ops[k];
        assert Prolongs(s, ops, k);
      }
    }
  }

  lemma {:induction false} MoreGuarded(s: State, ops: seq<Op>, more: seq<Op>)
    requires WellFormed(s) && Guarded(s, ops) && FixedDuration(more)
    ensures Guarded(s, ops + more)
  {
    hide Guarded;
    if more == [] {
      assert ops + more == ops;
    } else {
      var n := |more| - 1;
      MoreGuarded(s, ops, more[..n]);
      OneMoreGuarded(s, ops + more[..n], more[n]);
      assert ops + more[..n] + [more[n]] == ops + more;
    }
  }

  lemma RequestKept(s: State, ops: seq<Op>, op: Op, low: int, high: int)
    requires WellFormed(s) && Kept(s, ops, low, high)
    requires Request(op) || op.SetTime?
    requires op.Start? ==> low <= op.now <= high
    ensures Kept(s, ops + [op], low, high)
  {
    hide Apply, Run, LastTick, Dense;
    OneMoreDense(s, ops, op);
    LastTickAfter(s, ops, op);
    OneMore(s, ops, op);
    ClockAfter(Run(s, ops), op);
  }

  lemma TimeAfter(s: State, op: Op)
    requires WellFormed(s) && Request(op)
    ensures Apply(s, op).time == if Restarts(s, op) then op.now else s.time
  {
  }

  lemma RequestCanStep(s: State, ops: seq<Op>, op: Op, low: int, high: int)
    requires WellFormed(s) && CanStep(s, ops, low, high)
    requires Request(op)
    requires op.Start? ==> low <= op.now <= high
    ensures CanStep(s, ops + [op], low, high)
    ensures op.Start? ==> Run(s, ops + [op]).time == op.now
    ensures !op.Start? ==> Run(s, ops + [op]).time == Run(s, ops).time
  {
    hide Apply, Run, LastTick, Dense, Kept;
    RequestKept(s, ops, op, low, high);
    LastTickAfter(s, ops, op);
    OneMore(s, ops, op);
    ClockAfter(Run(s, ops), op);
    TimeAfter(Run(s, ops), op);
    KeptRunning(s, ops, low, high);
  }

  lemma KeptRunning(s: State, ops: seq<Op>, low: int, high: int)
    requires WellFormed(s) && Kept(s, ops, low, high)
    ensures Run(s, ops).running ==> low <= LastTick(s, ops, |ops|) <= high
  {
  }

  lemma {:induction false} RequestsKept(s: State, ops: seq<Op>, more: seq<Op>, low: int, high: int)
    requires WellFormed(s) && Kept(s, ops, low, high)
    requires AllRequests(more) && StartsWithin(more, low, high)
    ensures Kept(s, ops + more, low, high)
  {
    hide Kept;
    if more == [] {
      assert ops + more == ops;
    } else {
      var n := |more| - 1;
      RequestsKept(s, ops, more[..n], low, high);
      RequestKept(s, ops + more[..n], more[n], low, high);
      assert ops + more[..n] + [more[n]] == ops + more;
    }
  }

  lemma {:induction false} RequestsCanStep(s: State, ops: seq<Op>, more: seq<Op>, low: int, now: int, high: int)
    requires WellFormed(s) && CanStep(s, ops, low, high) && now <= Run(s, ops).time <= high && low <= now
    requires AllRequests(more) && StartsWithin(more, now, high)
    ensures CanStep(s, ops + more, low, high) && now <= Run(s, ops + more).time <= high
  {
    hide CanStep, Run, Request;
    if more == [] {
      assert ops + more == ops;
    } else {
      var n := |more| - 1;
      RequestsCanStep(s, ops, more[..n], low, now, high);
      RequestCanStep(s, ops + more[..n], more[n], low, high);
      assert ops + more[..n] + [more[n]] == ops + more;
    }
  }

  /** Reading the clock makes a step possible. */
  lemma ReadingCanStep(s: State, ops: seq<Op>, low: int, now: int, high: int)
    requires WellFormed(s) && Kept(s, ops, low, now) && now <= high && now <= low + SECOND
    ensures CanStep(s, ops + [SetTime(now)], low, high) && Run(s, ops + [SetTime(now)]).time == now
  {
    hide Apply, Run, LastTick, Dense;
    RequestKept(s, ops, SetTime(now), low, now);
    LastTickAfter(s, ops, SetTime(now));
    OneMore(s, ops, SetTime(now));
    ReadingSetsTime(Run(s, ops), now);
  }

  lemma ReadingSetsTime(s: State, now: int)
    requires WellFormed(s)
    ensures Apply(s, SetTime(now)).time == now && Apply(s, SetTime(now)).running == s.running
  {
  }

  lemma StepKept(s: State, ops: seq<Op>, low: int, now: int, high: int)
    requires WellFormed(s) && CanStep(s, ops, low, high) && Run(s, ops).running && now <= Run(s, ops).time <= high
    ensures Kept(s, ops + [Step], now, high)
  {
    hide Apply, Run, LastTick, Dense;
    OneMoreDense(s, ops, Step);
    LastTickAfter(s, ops, Step);
    OneMore(s, ops, Step);
  }

  function Later(a: int, b: int): int {
    if a < b then b else a
  }

  /** No earlier than this was a game that still runs last stepped or started. */
  function Low(start: int, t: int, tic: int, turns: seq<Turn>): int {
    Later(PreviousTic(start, tic, turns), LastReading(t, turns) - tic + 1)
  }

  /** The first half of a turn: what is asked early, and the clock. */
  lemma EarlyKept(s: State, ops: seq<Op>, turn: Turn, low: int, t: int, end: int, gap: int)
    requires WellFormed(s) && Kept(s, ops, low, end)
    requires TimelyTurn(t, end, gap, turn) && AllRequests(turn.early) && low <= end
    ensures Kept(s, ops + turn.early, low, turn.now)
    ensures Kept(s, ops + turn.early + [SetTime(turn.now)], low, turn.now)
  {
    hide Kept, Run, Dense;
    KeptLonger(s, ops, low, end, low, turn.now);
    RequestsKept(s, ops, turn.early, low, turn.now);
    RequestKept(s, ops + turn.early, SetTime(turn.now), low, turn.now);
  }

  /** What one turn adds to a history that has kept time so far. */
  lemma TurnKept(s: State, ops: seq<Op>, turn: Turn, previousTic: int, tic: int, t: int, end: int, gap: int)
    requires WellFormed(s) && Kept(s, ops, Later(previousTic, t - tic + 1), end)
    requires TimelyTurn(t, end, gap, turn) && AllRequests(turn.early) && AllRequests(turn.late)
    requires tic > 0 && tic + gap <= SECOND && previousTic <= t <= end
    ensures var due := Due(previousTic, tic, turn.now);
            var next := if due then turn.now else previousTic;
            && next <= turn.now
            && Kept(s, ops + TurnOps(Run(s, ops), due, turn), Later(next, turn.now - tic + 1), turn.end)
  {
    hide Kept, CanStep, Run, Dense;
    var low := Later(previousTic, t - tic + 1);
    EarlyKept(s, ops, turn, low, t, end, gap);
    var read := ops + turn.early + [SetTime(turn.now)];
    ReadingCanStep(s, ops + turn.early, low, turn.now, turn.end);
    RequestsCanStep(s, read, turn.late, low, turn.now, turn.end);
    var asked := ops + Asked(turn);
    assert read + turn.late == asked;
    RunOfJoin(s, ops, Asked(turn));
    CanStepKept(s, asked, low, turn.end);
    if Due(previousTic, tic, turn.now) {
      if Run(s, asked).running {
        StepKept(s, asked, low, turn.now, turn.end);
        assert asked + [Step] == ops + TurnOps(Run(s, ops), true, turn);
      } else {
        KeptIdle(s, asked, low, turn.now, turn.end);
        assert asked == ops + TurnOps(Run(s, ops), true, turn);
      }
    } else {
      KeptLonger(s, asked, low, turn.end, previousTic, turn.end);
      assert asked == ops + TurnOps(Run(s, ops), false, turn);
    }
  }

  lemma CanStepKept(s: State, ops: seq<Op>, low: int, high: int)
    requires WellFormed(s) && CanStep(s, ops, low, high)
    ensures Kept(s, ops, low, high)
  {
  }

  lemma KeptLonger(s: State, ops: seq<Op>, low: int, high: int, low': int, high': int)
    requires WellFormed(s) && Kept(s, ops, low, high) && low' <= low && high <= high'
    ensures Kept(s, ops, low', high')
  {
  }

  lemma KeptIdle(s: State, ops: seq<Op>, low: int, low': int, high: int)
    requires WellFormed(s) && Kept(s, ops, low, high) && !Run(s, ops).running
    ensures Kept(s, ops, low', high)
  {
  }

  lemma {:induction false} LoopKeepsTime(s: State, start: int, tic: int, t: int, gap: int, turns: seq<Turn>)
    requires WellFormed(s) && !s.running && RequestsOnly(turns)
    requires Timely(t, gap, turns) && start <= t && tic > 0 && tic + gap <= SECOND
    ensures PreviousTic(start, tic, turns) <= LastReading(t, turns) <= LastEnd(t, turns)
    ensures Kept(s, Ops(s, start, tic, turns), Low(start, t, tic, turns), LastEnd(t, turns))
  {
    hide Kept, Run, TurnOps, Due, AllRequests, TimelyTurn;
    if turns == [] {
      NothingKept(s, Low(start, t, tic, turns), LastEnd(t, turns));
    } else {
      var n := |turns| - 1;
      FewerTurns(t, gap, turns);
      LoopKeepsTime(s, start, tic, t, gap, turns[..n]);
      TurnIsForward(LastReading(t, turns[..n]), LastEnd(t, turns[..n]), gap, turns[n]);
      TurnKept(s, Ops(s, start, tic, turns[..n]), turns[n], PreviousTic(start, tic, turns[..n]), tic,
               LastReading(t, turns[..n]), LastEnd(t, turns[..n]), gap);
    }
  }

  lemma TurnIsForward(t: int, end: int, gap: int, turn: Turn)
    requires TimelyTurn(t, end, gap, turn)
    ensures turn.now <= turn.end
  {
  }

  lemma FewerTurns(t: int, gap: int, turns: seq<Turn>)
    requires Timely(t, gap, turns) && turns != []
    ensures Timely(t, gap, turns[..|turns| - 1])
    ensures TimelyTurn(LastReading(t, turns[..|turns| - 1]), LastEnd(t, turns[..|turns| - 1]), gap, turns[|turns| - 1])
  {
    hide TimelyTurn, LastReading, LastEnd;
    var most := turns[..|turns| - 1];
    forall i | 0 <= i < |most|
      ensures TimelyTurn(LastReading(t, most[..i]), LastEnd(t, most[..i]), gap, most[i])
    {
      assert most[..i] == turns[..i];
    }
  }

  lemma NothingKept(s: State, low: int, high: int)
    requires WellFormed(s) && !s.running
    ensures Kept(s, [], low, high)
  {
  }

  /**
   With clock readings at most a gap apart, tic and gap together within a second, and
   durations not cut below what has passed, no round outlives its duration by a whole tic, and
   every step on the way is dense: so it is the first step at or past the duration that stops
   the game.
   */
  lemma RoundsEndOnTime(s: State, start: int, tic: int, t: int, gap: int, turns: seq<Turn>)
    requires WellFormed(s) && !s.running && Usable(s.duration) && RequestsOnly(turns)
    requires Guarded(s, Ops(s, start, tic, turns))
    requires Timely(t, gap, turns) && start <= t && tic > 0 && tic + gap <= SECOND
    ensures var ops := Ops(s, start, tic, turns);
            && Dense(s, ops)
            && (Run(s, ops).running ==> LastReading(t, turns) - Run(s, ops).startTime < Run(s, ops).duration + tic)
  {
    hide Run, LastTick, Dense;
    var ops := Ops(s, start, tic, turns);
    LoopKeepsTime(s, start, tic, t, gap, turns);
    NeverLate(s, ops, |ops|);
    assert ops[..|ops|] == ops;
  }
}
