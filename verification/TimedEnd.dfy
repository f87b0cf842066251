/**
 The end of a round by the clock. The remaining time is an unsigned number that the tick
 compares with zero, so the round ends on time only if no tick skips the last second.
 */
module TimedEnd {
  import opened Round
  import opened Clock
  import Lifecycle
  import Timing

  /** A game lasts a whole number of seconds, at least one, that fits 32 bits. */
  predicate Usable(duration: int) {
    SECOND <= duration < U32 * SECOND && duration % SECOND == 0
  }

  /** ptime counts microseconds in a signed 64-bit integer. */
  const END_OF_TIME := 0x8000_0000_0000_0000

  function Elapsed(s: State): int {
    s.time - s.startTime
  }

  /** The unsigned remaining time is zero during one second only, and wraps after it. */
  lemma LastSecond(s: State)
    requires s.running && Usable(s.duration) && 0 <= Elapsed(s) < END_OF_TIME
    ensures SecondsLeft(s) == 0 <==> s.duration <= Elapsed(s) < s.duration + SECOND
    ensures Elapsed(s) < s.duration + SECOND ==> SecondsLeft(s) == s.duration / SECOND - Elapsed(s) / SECOND
    ensures Elapsed(s) >= s.duration + SECOND ==> SecondsLeft(s) > TotalSeconds(s.duration)
  {
    var all, gone := s.duration / SECOND, Elapsed(s) / SECOND;
    assert s.duration == all * SECOND;
    assert gone * SECOND <= Elapsed(s) < (gone + 1) * SECOND;
    if all < gone {
      assert (all - gone) % U64 == all - gone + U64;
    }
  }

  /** Whether a step in this state leaves the game running. */
  lemma StepStopsExactlyWhen(s: State)
    requires WellFormed(s) && s.running && Usable(s.duration) && 0 <= Elapsed(s) < END_OF_TIME
    ensures Tick(s).running <==>
              !(s.duration <= Elapsed(s) < s.duration + SECOND) && Lifecycle.NobodyLeads(HandleContacts(s))
  {
    hide HandleContacts, StopIfFinished;
    Lifecycle.TickOutcome(s);
    Timing.HandledContacts(s, "");
    LastSecond(HandleContacts(s));
  }

  /** A start that really starts the game. */
  predicate Restarts(s: State, op: Op) {
    op.Start? && (op.force || !s.running)
  }

  /** When the game was last stepped or started. */
  function LastTick(s: State, ops: seq<Op>, k: nat): int
    requires WellFormed(s) && k <= |ops|
  {
    if k == 0 then s.startTime
    else if ops[k - 1].Step? then At(s, ops, k - 1).time
    else if Restarts(At(s, ops, k - 1), ops[k - 1]) then ops[k - 1].now
    else LastTick(s, ops, k - 1)
  }

  /** While the game runs its steps go forward in time, by a second at most. */
  ghost predicate Dense(s: State, ops: seq<Op>)
    requires WellFormed(s)
  {
    forall k | 0 <= k < |ops| && ops[k].Step? && At(s, ops, k).running :: InTime(s, ops, k)
  }

  predicate InTime(s: State, ops: seq<Op>, k: nat)
    requires WellFormed(s) && k <= |ops|
  {
    LastTick(s, ops, k) <= At(s, ops, k).time <= LastTick(s, ops, k) + SECOND
  }

  /**
   A new duration is usable; and in a round that goes on, it is more than had passed at its
   last tick.
   */
  ghost predicate Prolongs(s: State, ops: seq<Op>, k: nat)
    requires WellFormed(s) && k < |ops| && ops[k].SetDuration?
  {
    && Usable(ops[k].duration)
    && (At(s, ops, k).running ==> LastTick(s, ops, k) - At(s, ops, k).startTime < ops[k].duration)
  }

  ghost predicate Guarded(s: State, ops: seq<Op>)
    requires WellFormed(s)
  {
    forall k | 0 <= k < |ops| && ops[k].SetDuration? :: Prolongs(s, ops, k)
  }

  ghost predicate FixedDuration(ops: seq<Op>) {
    forall k | 0 <= k < |ops| :: !ops[k].SetDuration?
  }

  lemma ClockAfter(s: State, op: Op)
    requires WellFormed(s)
    ensures var r := Apply(s, op);
            && r.duration == (if op.SetDuration? then op.duration else s.duration)
            && (Restarts(s, op) ==> r.running && r.startTime == r.time == op.now)
            && (!Restarts(s, op) ==> r.startTime == s.startTime && (r.running ==> s.running))
  {
    hide StopIfFinished, HandleContacts;
    if op.Step? {
      Timing.HandledContacts(s, "");
      FinishStopsOrNot(HandleContacts(s));
    }
  }

  /** While the game runs, its last tick found it inside the allotted time. */
  lemma {:induction false} NeverLate(s: State, ops: seq<Op>, k: nat)
    requires WellFormed(s) && !s.running && Usable(s.duration)
    requires Guarded(s, ops) && Dense(s, ops) && k <= |ops|
    ensures var r := At(s, ops, k);
            && Usable(r.duration)
            && (r.running ==> 0 <= LastTick(s, ops, k) - r.startTime < r.duration)
  {
    hide At, Tick;
    if k == 0 {
      AtStart(s, ops);
    } else {
      var before := At(s, ops, k - 1);
      assert ops[k - 1].Step? && before.running ==> InTime(s, ops, k - 1);
      NeverLate(s, ops, k - 1);
      AtStep(s, ops, k - 1);
      hide Apply;
      ClockAfter(before, ops[k - 1]);
      assert ops[k - 1].SetDuration? ==> Prolongs(s, ops, k - 1);
      if ops[k - 1].Step? && before.running {
        StepStopsExactlyWhen(before);
        StepIsTick(before);
      }
    }
  }

  /**
   With steps at most a second apart, and durations that are not cut below what has passed,
   the remaining time never wraps at a step taken while running, and the first step at or
   past the duration stops the game.
   */
  lemma RoundEndsOnTime(s: State, ops: seq<Op>, k: nat)
    requires WellFormed(s) && !s.running && Usable(s.duration)
    requires Guarded(s, ops) && Dense(s, ops)
    requires k < |ops| && ops[k].Step? && At(s, ops, k).running
    ensures var r := At(s, ops, k);
            && 0 <= Elapsed(r) < r.duration + SECOND
            && SecondsLeft(r) == r.duration / SECOND - Elapsed(r) / SECOND
            && (Elapsed(r) >= r.duration <==> SecondsLeft(r) == 0)
            && (Elapsed(r) >= r.duration ==> !At(s, ops, k + 1).running)
  {
    hide At, Tick, Apply;
    NeverLate(s, ops, k);
    AtStep(s, ops, k);
    StepIsTick(At(s, ops, k));
    LastSecond(At(s, ops, k));
    StepStopsExactlyWhen(At(s, ops, k));
  }

  /**
   The bounds are needed: once a running game has missed its last second, because a step
   came late or because its duration was cut, no later step ends it by the clock, however
   many there are.
   */
  lemma {:induction false} OvershootRunsOn(s: State, ops: seq<Op>)
    requires WellFormed(s) && s.running
    requires forall k | 0 <= k < |ops| :: !ops[k].Start? && !ops[k].Stop?
    requires forall k | 0 <= k < |ops| && ops[k].Step? ::
               && Usable(At(s, ops, k).duration)
               && At(s, ops, k).duration + SECOND <= At(s, ops, k).time - s.startTime < END_OF_TIME
               && Lifecycle.NobodyLeads(HandleContacts(At(s, ops, k)))
    ensures Run(s, ops).running && Run(s, ops).startTime == s.startTime
  {
    hide Apply, Tick, HandleContacts;
    if ops != [] {
      var p := |ops| - 1;
      assert forall k | 0 <= k < p :: ops[..p][k] == ops[k] && ops[..p][..k] == ops[..k];
      OvershootRunsOn(s, ops[..p]);
      var before := Run(s, ops[..p]);
      assert before == At(s, ops, p);
      ClockAfter(before, ops[p]);
      if ops[p].Step? {
        StepStopsExactlyWhen(before);
        StepIsTick(before);
      } else {
        OthersRunOn(before, ops[p]);
      }
    }
  }

  lemma OthersRunOn(s: State, op: Op)
    requires WellFormed(s) && !op.Step? && !op.Start? && !op.Stop?
    ensures Apply(s, op).running == s.running
  {
  }

  // ----- The game and a Clock side by side

  /** The clock after operation k, ticked at every step from operation n on. */
  function ClockFrom(c: ClockState, s: State, ops: seq<Op>, n: nat, k: nat): ClockState
    requires WellFormed(s) && n <= k <= |ops|
  {
    if k == n then c
    else if ops[k - 1].Step? then Ticked(ClockFrom(c, s, ops, n, k - 1), At(s, ops, k - 1).time)
    else ClockFrom(c, s, ops, n, k - 1)
  }

  ghost predicate InStep(c: ClockState, s: State) {
    && c.running == s.running && c.duration == s.duration
    && (s.running ==> c.startTime == s.startTime)
  }

  /** One shared tick keeps the two together exactly when it does not skip the last second. */
  lemma SharedTick(c: ClockState, s: State)
    requires WellFormed(s) && InStep(c, s) && s.running && Usable(s.duration)
    requires 0 <= Elapsed(s) < END_OF_TIME
    requires Lifecycle.NobodyLeads(HandleContacts(s))
    ensures InStep(Ticked(c, s.time), Tick(s)) <==> Elapsed(s) < s.duration + SECOND
    ensures SecondsLeft(s) == ClockSecondsLeft(c.(time := s.time))
  {
    hide Tick, HandleContacts;
    StepStopsExactlyWhen(s);
    StepIsTick(s);
    ClockAfter(s, Step);
  }

  /**
   Started together and stepped together, at most a second apart and with no team
   reaching the winning score, the game and the clock stop at the same step.
   */
  lemma {:induction false} StopsWithTheClock(c: ClockState, s: State, ops: seq<Op>, start: nat, k: nat)
    requires WellFormed(s) && !s.running && Usable(s.duration)
    requires Guarded(s, ops) && Dense(s, ops)
    requires start < k <= |ops| && Restarts(At(s, ops, start), ops[start])
    requires c == Started(ClockState(At(s, ops, start).duration, false, 0, 0), ops[start].now)
    requires forall m | start < m < |ops| :: !ops[m].Start? && !ops[m].Stop? && !ops[m].SetDuration?
    requires forall m | start < m < |ops| && ops[m].Step? :: Lifecycle.NobodyLeads(HandleContacts(At(s, ops, m)))
    ensures InStep(ClockFrom(c, s, ops, start + 1, k), At(s, ops, k))
  {
    hide At, Apply, Tick, HandleContacts;
    var before := At(s, ops, k - 1);
    AtStep(s, ops, k - 1);
    NeverLate(s, ops, k - 1);
    ClockAfter(before, ops[k - 1]);
    if k > start + 1 {
      StopsWithTheClock(c, s, ops, start, k - 1);
      if ops[k - 1].Step? {
        StepIsTick(before);
        if before.running {
          SharedTick(ClockFrom(c, s, ops, start + 1, k - 1), before);
        }
      } else {
        OthersRunOn(before, ops[k - 1]);
      }
    }
  }
}
