/**
 What turns of the server's loop do to the game, the channels and the clock, seen as
 values, and what runs of them add up to.
 */
module Serving {
  import opened Options
  import opened Messages
  import R = Round
  import Ro = Roster
  import Ch = Channels
  import Si = Sightings
  import Turns
  import Lifecycle
  import TimedEnd
  import Witness
  import Scores
  import Matching

  /**
   What a turn meets: an agent's command and the time it is carried out, the messages that
   have come in, the time the turn reads, another command for a turn with a tick, and the
   time at the turn's end.
   */
  datatype Reading = Reading(
    early: Option<Command>,
    asked: int,
    arrivals: seq<Ch.Taken<Message>>,
    now: int,
    late: Option<Command>,
    clock: int)

  datatype State = State(world: World, inbox: Ch.State<Message>, previousTic: int)

  ghost predicate ValidState(s: State)
    ensures ValidState(s) ==> R.WellFormed(s.world.sensed.round)
  {
    Messages.Valid(s.world)
  }

  function Arrivals(arrivals: seq<Ch.Taken<Message>>): seq<Ch.Input<Message>> {
    seq(|arrivals|, i requires 0 <= i < |arrivals| => Ch.Arrive(arrivals[i].channel, arrivals[i].message))
  }

  function RoundOf(s: State): R.State {
    s.world.sensed.round
  }

  function CommandOrNothing(w: World, c: Option<Command>, clock: int): seq<Si.Input> {
    if c.Some? then CommandInputs(w, c.value, clock) else []
  }

  function FeedAgent(w: World, c: Option<Command>, clock: int): (r: World)
    requires Messages.Valid(w)
    ensures Messages.Valid(r)
  {
    if c.Some? then Obey(w, c.value, clock) else w
  }

  function TakeInto(w: World, input: Si.Input): (r: World)
    requires Messages.Valid(w)
    ensures Messages.Valid(r) && r.roster == w.roster
  {
    w.(sensed := Si.Take(w.sensed, input))
  }

  /** The turn has fed the agent, received its messages and set the game's time. */
  function Received(s: State, r: Reading): (t: State)
    requires ValidState(s)
    ensures ValidState(t) && t.previousTic == s.previousTic
  {
    s.(world := TakeInto(FeedAgent(s.world, r.early, r.asked), Si.Other(R.SetTime(r.now))),
       inbox := Ch.Run(s.inbox, Arrivals(r.arrivals)))
  }

  lemma ReceivedIs(s: State, r: Reading, t: State)
    requires ValidState(s) && t.previousTic == s.previousTic
    requires t.world == TakeInto(FeedAgent(s.world, r.early, r.asked), Si.Other(R.SetTime(r.now)))
    requires t.inbox == Ch.Run(s.inbox, Arrivals(r.arrivals))
    ensures t == Received(s, r)
  {
    hide TakeInto, FeedAgent, Ch.Run, Messages.Valid, Arrivals;
  }

  function Ticked(w: World): (r: World)
    requires Messages.Valid(w)
    ensures Messages.Valid(r) && r.roster == w.roster
  {
    if w.sensed.round.running then TakeInto(w, Si.Other(R.Step)) else w
  }

  /** A tick falls due, or the oldest message of the preferred channel is processed. */
  function AfterTurn(s: State, tic: int, r: Reading): (t: State)
    requires ValidState(s)
    ensures ValidState(t)
  {
    var u := Received(s, r);
    if Turns.Due(s.previousTic, tic, r.now) then
      u.(world := Ticked(FeedAgent(u.world, r.late, r.clock)), previousTic := r.now)
    else
      match Ch.TakenBy(u.inbox)
      case Some(taken) => u.(world := Handle(u.world, taken.message, r.clock), inbox := Ch.AfterCall(u.inbox))
      case None => u.(inbox := Ch.AfterCall(u.inbox))
  }

  /**
   A turn in plain terms: an early command, the clock, and then, once a tic has gone by, a late
   command and a tick of a running game, or else the message that is next.
   */
  lemma Turning(s: State, tic: int, r: Reading)
    requires ValidState(s)
    ensures var asked := if r.early.Some? then Obey(s.world, r.early.value, r.asked) else s.world;
            var read := WithRound(asked, asked.sensed.round.(time := r.now));
            var inbox := Ch.Run(s.inbox, Arrivals(r.arrivals));
            var t := AfterTurn(s, tic, r);
            Messages.Valid(read) &&
            if r.now >= s.previousTic + tic then
              var told := if r.late.Some? then Obey(read, r.late.value, r.clock) else read;
              && t.previousTic == r.now && t.inbox == inbox
              && t.world == if told.sensed.round.running
                            then WithRound(told, R.Apply(told.sensed.round, R.Step)) else told
            else
              && t.previousTic == s.previousTic && t.inbox == Ch.AfterCall(inbox)
              && t.world == match Ch.TakenBy(inbox)
                            case Some(taken) => Handle(read, taken.message, r.clock)
                            case None => read
  {
    hide Si.Valid, Si.Take, Obey, Handle, Ch.Run, Ch.AfterCall, Ch.TakenBy, R.Apply, R.WellFormed;
    var asked := FeedAgent(s.world, r.early, r.asked);
    TakeOther(asked.sensed, R.SetTime(r.now));
    TimeSet(asked.sensed.round, r.now);
    TakeOther(FeedAgent(Received(s, r).world, r.late, r.clock).sensed, R.Step);
  }

  lemma TimeSet(s: R.State, now: int)
    requires R.WellFormed(s)
    ensures R.Apply(s, R.SetTime(now)) == s.(time := now)
  {
  }

  /** The message the turn processes. */
  function Takes(s: State, tic: int, r: Reading): Option<Ch.Taken<Message>>
    requires ValidState(s)
  {
    if Turns.Due(s.previousTic, tic, r.now) then None else Ch.TakenBy(Received(s, r).inbox)
  }

  /** Registering an id whose robot has been removed throws, and ends the server. */
  predicate Throws(w: World, m: Message) {
    m.Register? && Ro.RobotWithoutRealRobot(w.roster, m.temporaryId) == Ro.Missing
  }

  /** It is the registration of an id that is known to a robot that is gone, and no other message. */
  lemma ThrowingIs(w: World, m: Message)
    ensures Throws(w, m) <==>
              m.Register? && m.temporaryId in w.roster.registered
              && w.roster.registered[m.temporaryId] !in w.roster.robots
  {
  }

  /**
   What a turn reports and leaves behind. A message that throws has left its queue and has
   had no other effect; the order of the channels has not been permuted.
   */
  ghost predicate Turned(s: State, tic: int, r: Reading, t: State, processed: bool, thrown: bool)
    requires ValidState(s)
  {
    var taken := Takes(s, tic, r);
    var u := Received(s, r);
    && (processed <==> taken.Some?)
    && (thrown <==> taken.Some? && Throws(u.world, taken.value.message))
    && t == if thrown then u.(inbox := Ch.AfterTaking(u.inbox)) else AfterTurn(s, tic, r)
  }

  lemma ThrowingChangesNothing(w: World, m: Message, clock: int)
    requires Messages.Valid(w) && Throws(w, m)
    ensures Handle(w, m, clock) == w
  {
    hide Si.Valid;
    TakeNothing(w.sensed);
  }

  lemma MessageTurns(s: State, tic: int, r: Reading, t: State, processed: bool, thrown: bool)
    requires ValidState(s) && r.now - s.previousTic < tic && t.previousTic == s.previousTic
    requires var u := Received(s, r);
             && t.inbox == (if thrown then Ch.AfterTaking(u.inbox) else Ch.AfterCall(u.inbox))
             && match Ch.TakenBy(u.inbox)
                case Some(taken) =>
                  && processed && (thrown <==> Throws(u.world, taken.message))
                  && t.world == Handle(u.world, taken.message, r.clock)
                case None => !processed && !thrown && t.world == u.world
    ensures Turned(s, tic, r, t, processed, thrown)
  {
    hide Handle, Received, R.WellFormed, Throws, Ch.AfterTaking, Ch.AfterCall, Ch.TakenBy, Messages.Valid;
    var u := Received(s, r);
    if thrown {
      ThrowingChangesNothing(u.world, Ch.TakenBy(u.inbox).value.message, r.clock);
    }
  }

  lemma TickTurns(s: State, tic: int, r: Reading, t: State)
    requires ValidState(s) && r.now - s.previousTic >= tic
    requires t.inbox == Received(s, r).inbox && t.previousTic == r.now
    requires t.world == Ticked(FeedAgent(Received(s, r).world, r.late, r.clock))
    ensures Turned(s, tic, r, t, false, false)
  {
    hide Handle, Received, R.WellFormed, Throws, Ticked, FeedAgent, Messages.Valid;
  }

  function Served(s: State, tic: int, readings: seq<Reading>): (t: State)
    requires ValidState(s)
    ensures ValidState(t)
  {
    if readings == [] then s
    else AfterTurn(Served(s, tic, readings[..|readings| - 1]), tic, readings[|readings| - 1])
  }

  // ----- What a turn is to the round and the detectors

  function EarlyInputs(s: State, r: Reading): seq<Si.Input> {
    CommandOrNothing(s.world, r.early, r.asked)
  }

  function LateInputs(s: State, tic: int, r: Reading): seq<Si.Input>
    requires ValidState(s)
  {
    var u := Received(s, r);
    if Turns.Due(s.previousTic, tic, r.now) then CommandOrNothing(u.world, r.late, r.clock)
    else match Ch.TakenBy(u.inbox)
      case Some(taken) => MessageInputs(u.world, taken.message, r.clock)
      case None => []
  }

  function TickInputs(s: State, tic: int, r: Reading): seq<Si.Input>
    requires ValidState(s)
  {
    if Turns.Due(s.previousTic, tic, r.now)
       && RoundOf(Received(s, r).(world := FeedAgent(Received(s, r).world, r.late, r.clock))).running
    then [Si.Other(R.Step)] else []
  }

  function TurnInputs(s: State, tic: int, r: Reading): seq<Si.Input>
    requires ValidState(s)
  {
    EarlyInputs(s, r) + [Si.Other(R.SetTime(r.now))] + LateInputs(s, tic, r) + TickInputs(s, tic, r)
  }

  lemma FeedIsTaken(w: World, c: Option<Command>, clock: int)
    requires Messages.Valid(w)
    ensures FeedAgent(w, c, clock).sensed == Si.TakeAll(w.sensed, CommandOrNothing(w, c, clock))
  {
    hide Si.Valid, CommandInputs;
    TakeNothing(w.sensed);
  }

  lemma TurnIsTaken(s: State, tic: int, r: Reading)
    requires ValidState(s)
    ensures AfterTurn(s, tic, r).world.sensed == Si.TakeAll(s.world.sensed, TurnInputs(s, tic, r))
    ensures Si.TakeAll(s.world.sensed, EarlyInputs(s, r)) == FeedAgent(s.world, r.early, r.asked).sensed
  {
    hide Si.Valid, Si.Take, CommandOrNothing, MessageInputs, Ch.TakenBy, Ch.Run, FeedAgent, R.WellFormed;
    var sensed := s.world.sensed;
    var early, late := EarlyInputs(s, r), LateInputs(s, tic, r);
    var u := Received(s, r);
    FeedIsTaken(s.world, r.early, r.asked);
    TakeMore(sensed, early, Si.Other(R.SetTime(r.now)));
    TakeJoined(sensed, early + [Si.Other(R.SetTime(r.now))], late);
    TakeJoined(sensed, early + [Si.Other(R.SetTime(r.now))] + late, TickInputs(s, tic, r));
    FeedIsTaken(u.world, r.late, r.clock);
    TakeNothing(u.world.sensed);
    TakeNothing(Si.TakeAll(u.world.sensed, late));
    TakeOne(Si.TakeAll(u.world.sensed, late), Si.Other(R.Step));
  }

  /** Everything a run of the server does to the sensors and the round, input by input. */
  function ServedInputs(s: State, tic: int, readings: seq<Reading>): seq<Si.Input>
    requires ValidState(s)
  {
    if readings == [] then []
    else
      var most, last := readings[..|readings| - 1], readings[|readings| - 1];
      ServedInputs(s, tic, most) + TurnInputs(Served(s, tic, most), tic, last)
  }

  lemma {:induction false} ServedIsTaken(s: State, tic: int, readings: seq<Reading>)
    requires ValidState(s)
    ensures Served(s, tic, readings).world.sensed == Si.TakeAll(s.world.sensed, ServedInputs(s, tic, readings))
  {
    hide Si.Valid, AfterTurn, TurnInputs, Si.TakeAll;
    if readings == [] {
      TakeNothing(s.world.sensed);
    } else {
      var most, last := readings[..|readings| - 1], readings[|readings| - 1];
      ServedIsTaken(s, tic, most);
      TurnIsTaken(Served(s, tic, most), tic, last);
      TakeJoined(s.world.sensed, ServedInputs(s, tic, most), TurnInputs(Served(s, tic, most), tic, last));
    }
  }

  // ----- Runs of the server are runs of the loop

  function TurnOf(s: State, tic: int, r: Reading): (turn: Turns.Turn)
    requires ValidState(s)
    ensures turn.now == r.now && turn.end == r.clock
  {
    Turns.Turn(OpsOf(s.world.sensed, EarlyInputs(s, r)), r.now,
               OpsOf(Received(s, r).world.sensed, LateInputs(s, tic, r)), r.clock)
  }

  function TurnsOf(s: State, tic: int, readings: seq<Reading>): (turns: seq<Turns.Turn>)
    requires ValidState(s)
    ensures |turns| == |readings|
    ensures turns != [] ==> turns[|turns| - 1].now == readings[|turns| - 1].now
                            && turns[|turns| - 1].end == readings[|turns| - 1].clock
  {
    hide AfterTurn, TurnOf, ValidState, R.WellFormed;
    if readings == [] then []
    else
      var most, last := readings[..|readings| - 1], readings[|readings| - 1];
      TurnsOf(s, tic, most) + [TurnOf(Served(s, tic, most), tic, last)]
  }

  predicate SetsDuration(c: Option<Command>) {
    c.Some? && c.value.SetDuration?
  }

  lemma EarlyRequests(s: State, r: Reading)
    requires ValidState(s)
    ensures var early := OpsOf(s.world.sensed, EarlyInputs(s, r));
            && FeedAgent(s.world, r.early, r.asked).sensed.round == R.Run(RoundOf(s), early)
            && Turns.AllRequests(early) && Turns.StartsWithin(early, r.asked, r.asked)
            && (!SetsDuration(r.early) ==> TimedEnd.FixedDuration(early))
            && (SetsDuration(r.early) ==> early == [R.SetDuration(r.early.value.seconds * R.SECOND)])
  {
    hide R.Run, Si.Valid, CommandInputs, Obey, Turns.AllRequests, Turns.StartsWithin, TimedEnd.FixedDuration;
    RunEnds(RoundOf(s), []);
    NoRequests(r.asked);
    if r.early.Some? {
      CommandIsRequests(s.world, r.early.value, r.asked);
      if SetsDuration(r.early) {
        DurationCommand(s.world, r.early.value.seconds, r.asked);
      }
    }
  }

  lemma LateRequests(s: State, tic: int, r: Reading)
    requires ValidState(s)
    ensures var u := Received(s, r);
            var late := OpsOf(u.world.sensed, LateInputs(s, tic, r));
            && Si.TakeAll(u.world.sensed, LateInputs(s, tic, r)).round == R.Run(RoundOf(u), late)
            && Turns.AllRequests(late) && Turns.StartsWithin(late, r.clock, r.clock)
            && var sets := Turns.Due(s.previousTic, tic, r.now) && SetsDuration(r.late);
               && (!sets ==> TimedEnd.FixedDuration(late))
               && (sets ==> late == [R.SetDuration(r.late.value.seconds * R.SECOND)])
  {
    hide R.Run, Si.Valid, CommandInputs, MessageInputs, Obey, Handle, Received, Ch.TakenBy,
         Turns.AllRequests, Turns.StartsWithin, TimedEnd.FixedDuration;
    var u := Received(s, r);
    InputsAreOps(u.world.sensed, LateInputs(s, tic, r));
    NoRequests(r.clock);
    if Turns.Due(s.previousTic, tic, r.now) {
      if r.late.Some? {
        CommandIsRequests(u.world, r.late.value, r.clock);
        if SetsDuration(r.late) {
          DurationCommand(u.world, r.late.value.seconds, r.clock);
        }
      }
    } else if Ch.TakenBy(u.inbox).Some? {
      MessageIsRequests(u.world, Ch.TakenBy(u.inbox).value.message, r.clock);
    }
  }

  lemma NoRequests(clock: int)
    ensures Turns.AllRequests([]) && TimedEnd.FixedDuration([]) && Turns.StartsWithin([], clock, clock)
  {
  }

  /** One turn of the server is one turn of the loop. */
  lemma OneTurn(s: State, tic: int, r: Reading)
    requires ValidState(s)
    ensures var turn := TurnOf(s, tic, r);
            && RoundOf(AfterTurn(s, tic, r)) ==
                 R.Run(RoundOf(s), Turns.TurnOps(RoundOf(s), Turns.Due(s.previousTic, tic, r.now), turn))
            && Turns.AllRequests(turn.early) && Turns.AllRequests(turn.late)
            && Turns.StartsWithin(turn.early, r.asked, r.asked) && Turns.StartsWithin(turn.late, r.clock, r.clock)
  {
    hide R.Run, R.Apply, Si.Valid, OpsOf, AfterTurn, EarlyInputs, LateInputs, Received, Turns.AllRequests,
         Turns.StartsWithin, TimedEnd.FixedDuration;
    var turn := TurnOf(s, tic, r);
    EarlyRequests(s, r);
    LateRequests(s, tic, r);
    AskedRun(s, tic, r);
    TickedRun(s, tic, r);
  }

  /** What the round has become before the tick. */
  lemma AskedRun(s: State, tic: int, r: Reading)
    requires ValidState(s)
    ensures R.Run(RoundOf(s), Turns.Asked(TurnOf(s, tic, r))) ==
              Si.TakeAll(Received(s, r).world.sensed, LateInputs(s, tic, r)).round
  {
    hide R.Run, R.Apply, Si.Valid, OpsOf, EarlyInputs, LateInputs, FeedAgent, Turns.AllRequests,
         Turns.StartsWithin, TimedEnd.FixedDuration, Si.TakeAll;
    var turn := TurnOf(s, tic, r);
    EarlyRequests(s, r);
    LateRequests(s, tic, r);
    RunEnds(RoundOf(s), turn.early);
    TakeOther(FeedAgent(s.world, r.early, r.asked).sensed, R.SetTime(r.now));
    Turns.RunOfJoin(RoundOf(s), turn.early + [R.SetTime(r.now)], turn.late);
  }

  lemma TickedRun(s: State, tic: int, r: Reading)
    requires ValidState(s)
    ensures RoundOf(AfterTurn(s, tic, r)) ==
              R.Run(RoundOf(s), Turns.TurnOps(RoundOf(s), Turns.Due(s.previousTic, tic, r.now), TurnOf(s, tic, r)))
  {
    hide R.Run, R.Apply, Si.Valid, OpsOf, Received, TurnOf, MessageInputs, FeedAgent, CommandOrNothing, Ch.TakenBy,
         Si.TakeAll, Turns.Asked;
    var asked := Turns.Asked(TurnOf(s, tic, r));
    var u := Received(s, r);
    AskedRun(s, tic, r);
    RunEnds(RoundOf(s), asked);
    FeedIsTaken(u.world, r.late, r.clock);
    TakeNothing(u.world.sensed);
    if Turns.Due(s.previousTic, tic, r.now) {
      TakeOther(FeedAgent(u.world, r.late, r.clock).sensed, R.Step);
    }
  }

  /** Whatever agents, players and robots send, a run of the server is a run of the loop with some requests. */
  lemma {:induction false} ServedIsLoop(s: State, tic: int, readings: seq<Reading>)
    requires ValidState(s)
    ensures var turns := TurnsOf(s, tic, readings);
            && RoundOf(Served(s, tic, readings)) ==
                 R.Run(RoundOf(s), Turns.Ops(RoundOf(s), s.previousTic, tic, turns))
            && Served(s, tic, readings).previousTic == Turns.PreviousTic(s.previousTic, tic, turns)
            && Turns.RequestsOnly(turns)
  {
    hide R.Apply, R.Run, R.WellFormed, AfterTurn, TurnOf, Turns.TurnOps, Turns.Ops, Turns.Due, ValidState,
         Turns.AllRequests, TimedEnd.FixedDuration, Turns.StartsWithin;
    if readings == [] {
      RunEnds(RoundOf(s), []);
      NoTurnsNoOps(RoundOf(s), s.previousTic, tic);
    } else {
      var most, last := readings[..|readings| - 1], readings[|readings| - 1];
      ServedIsLoop(s, tic, most);
      var before := Served(s, tic, most);
      OneTurn(before, tic, last);
      TicAfter(before, tic, last);
      var turns := TurnsOf(s, tic, readings);
      MoreRequests(turns[..|turns| - 1], turns[|turns| - 1]);
      assert turns[..|turns| - 1] == TurnsOf(s, tic, most);
      LastTurnJoins(RoundOf(s), s.previousTic, tic, turns);
    }
  }

  lemma MoreRequests(turns: seq<Turns.Turn>, turn: Turns.Turn)
    requires Turns.RequestsOnly(turns)
    requires Turns.AllRequests(turn.early) && Turns.AllRequests(turn.late)
    ensures Turns.RequestsOnly(turns + [turn])
  {
    hide Turns.AllRequests;
  }

  lemma NoTurnsNoOps(s: R.State, start: int, tic: int)
    requires R.WellFormed(s)
    ensures Turns.Ops(s, start, tic, []) == []
  {
  }

  lemma LastTurnJoins(s: R.State, start: int, tic: int, turns: seq<Turns.Turn>)
    requires R.WellFormed(s) && turns != []
    ensures var most, last := turns[..|turns| - 1], turns[|turns| - 1];
            var before := R.Run(s, Turns.Ops(s, start, tic, most));
            R.Run(s, Turns.Ops(s, start, tic, turns)) ==
              R.Run(before, Turns.TurnOps(before, Turns.Due(Turns.PreviousTic(start, tic, most), tic, last.now), last))
  {
    hide R.Run, R.WellFormed, Turns.TurnOps, Turns.Due;
    var most, last := turns[..|turns| - 1], turns[|turns| - 1];
    var ops := Turns.Ops(s, start, tic, most);
    var due := Turns.Due(Turns.PreviousTic(start, tic, most), tic, last.now);
    Turns.RunOfJoin(s, ops, Turns.TurnOps(R.Run(s, ops), due, last));
  }

  lemma TicAfter(s: State, tic: int, r: Reading)
    requires ValidState(s)
    ensures AfterTurn(s, tic, r).previousTic == if Turns.Due(s.previousTic, tic, r.now) then r.now else s.previousTic
  {
  }

  /** What the other theorems say of all histories holds of a server's game and roster together. */
  ghost predicate Sound(s: State) {
    Witness.Backed(RoundOf(s)) && Scores.Accounted(RoundOf(s)) && Matching.Matched(s.world.roster)
  }

  lemma MessageKeepsMatched(s: Ro.State, m: Message)
    requires Matching.Matched(s)
    ensures Matching.Matched(MessageRoster(s, m))
  {
    hide Matching.Matched;
    match m
    case Hello(player, ready) => Matching.HelloKeeps(s, player);
    case Register(temporaryId) => Matching.RegisterKeeps(s, temporaryId);
    case _ =>
  }

  lemma CommandKeepsMatched(s: Ro.State, c: Command)
    requires Matching.Matched(s)
    ensures Matching.Matched(CommandRoster(s, c))
  {
    hide Matching.Matched, Ro.Apply;
    forall op ensures Matching.Matched(Ro.Apply(s, op)) {
      Matching.ApplyKeeps(s, op);
    }
  }

  lemma FeedKeepsMatched(w: World, c: Option<Command>, clock: int)
    requires Messages.Valid(w) && Matching.Matched(w.roster)
    ensures Matching.Matched(FeedAgent(w, c, clock).roster)
  {
    hide Matching.Matched, Si.Valid, Si.TakeAll, CommandRoster;
    if c.Some? {
      CommandKeepsMatched(w.roster, c.value);
    }
  }

  lemma TurnKeepsMatched(s: State, tic: int, r: Reading)
    requires ValidState(s) && Matching.Matched(s.world.roster)
    ensures Matching.Matched(AfterTurn(s, tic, r).world.roster)
  {
    hide Matching.Matched, FeedAgent, Ch.Run, Ch.TakenBy, MessageRoster, MessageInputs, Si.TakeAll, R.WellFormed,
         Si.Valid;
    var u := Received(s, r);
    FeedKeepsMatched(s.world, r.early, r.asked);
    FeedKeepsMatched(u.world, r.late, r.clock);
    if Ch.TakenBy(u.inbox).Some? {
      MessageKeepsMatched(u.world.roster, Ch.TakenBy(u.inbox).value.message);
    }
  }

  lemma {:induction false} ServedIsSound(s: State, tic: int, readings: seq<Reading>)
    requires ValidState(s) && Sound(s)
    ensures Sound(Served(s, tic, readings))
  {
    hide AfterTurn, ValidState, R.WellFormed, R.Run, Witness.Backed, Scores.Accounted, Matching.Matched;
    if readings != [] {
      var most := readings[..|readings| - 1];
      ServedIsSound(s, tic, most);
      TurnKeepsMatched(Served(s, tic, most), tic, readings[|readings| - 1]);
      ServedIsLoop(s, tic, readings);
      var ops := Turns.Ops(RoundOf(s), s.previousTic, tic, TurnsOf(s, tic, readings));
      Witness.EveryCaptureIsBacked(RoundOf(s), ops);
      Scores.ScoresAreConserved(RoundOf(s), ops);
    }
  }

  // ----- Robot ids

  lemma CommandIdsDistinct(s: Ro.State, c: Command)
    requires Matching.DistinctIds(s)
    ensures Matching.DistinctIds(CommandRoster(s, c))
  {
    hide Matching.DistinctIds, Ro.Apply;
    forall op: Ro.Op | op.AddRobot? ==> op.id == "" ensures Matching.DistinctIds(Ro.Apply(s, op)) {
      Matching.IdsAfter(s, op);
    }
  }

  lemma MessageIdsDistinct(s: Ro.State, m: Message)
    requires Matching.DistinctIds(s)
    ensures Matching.DistinctIds(MessageRoster(s, m))
  {
    hide Matching.DistinctIds, Ro.AfterHello, Ro.WithRegistration;
    match m
    case Hello(player, _) =>
      Matching.IdsAfter(s, Ro.Hello(player));
      assert Ro.Apply(s, Ro.Hello(player)) == Ro.AfterHello(s, player);
    case Register(temporaryId) =>
      Matching.IdsAfter(s, Ro.Register(temporaryId));
      assert Ro.Apply(s, Ro.Register(temporaryId)) == Ro.WithRegistration(s, temporaryId);
    case _ =>
  }

  lemma FeedIdsDistinct(w: World, c: Option<Command>, clock: int)
    requires Messages.Valid(w) && Matching.DistinctIds(w.roster)
    ensures Matching.DistinctIds(FeedAgent(w, c, clock).roster)
  {
    hide Matching.DistinctIds, Si.Valid, Si.TakeAll, CommandRoster;
    if c.Some? {
      CommandIdsDistinct(w.roster, c.value);
    }
  }

  lemma TurnIdsDistinct(s: State, tic: int, r: Reading)
    requires ValidState(s) && Matching.DistinctIds(s.world.roster)
    ensures Matching.DistinctIds(AfterTurn(s, tic, r).world.roster)
  {
    hide Matching.DistinctIds, FeedAgent, Ch.Run, Ch.TakenBy, MessageRoster, MessageInputs, Si.TakeAll, R.WellFormed,
         Si.Valid;
    var u := Received(s, r);
    FeedIdsDistinct(s.world, r.early, r.asked);
    FeedIdsDistinct(u.world, r.late, r.clock);
    if Ch.TakenBy(u.inbox).Some? {
      MessageIdsDistinct(u.world.roster, Ch.TakenBy(u.inbox).value.message);
    }
  }

  /** Agents give no ids to the robots they add, so the ids stay distinct whatever happens. */
  lemma {:induction false} ServedIdsDistinct(s: State, tic: int, readings: seq<Reading>)
    requires ValidState(s) && Matching.DistinctIds(s.world.roster)
    ensures Matching.DistinctIds(Served(s, tic, readings).world.roster)
  {
    hide AfterTurn, ValidState, R.WellFormed, Matching.DistinctIds;
    if readings != [] {
      ServedIdsDistinct(s, tic, readings[..|readings| - 1]);
      TurnIdsDistinct(Served(s, tic, readings[..|readings| - 1]), tic, readings[|readings| - 1]);
    }
  }

  /** Out of a round nothing is owned and during one nobody has won, whatever is received. */
  lemma ServedRoundsAreClean(s: State, tic: int, readings: seq<Reading>)
    requires ValidState(s) && Lifecycle.BetweenRounds(RoundOf(s))
    ensures Lifecycle.BetweenRounds(RoundOf(Served(s, tic, readings)))
  {
    hide Lifecycle.BetweenRounds, Served;
    ServedIsLoop(s, tic, readings);
    Turns.LoopKeepsRoundsClean(RoundOf(s), s.previousTic, tic, TurnsOf(s, tic, readings));
  }

  /** The clock never goes back, and is read again after a gap at most. */
  ghost predicate TimelyReadings(t: int, gap: int, readings: seq<Reading>) {
    forall i | 0 <= i < |readings| ::
      && ClockBefore(t, readings, i) <= readings[i].asked <= readings[i].now <= readings[i].clock
      && readings[i].now <= ReadBefore(t, readings, i) + gap
  }

  function ClockBefore(t: int, readings: seq<Reading>, i: nat): int
    requires i <= |readings|
  {
    if i == 0 then t else readings[i - 1].clock
  }

  function ReadBefore(t: int, readings: seq<Reading>, i: nat): int
    requires i <= |readings|
  {
    if i == 0 then t else readings[i - 1].now
  }

  lemma FewerReadings(t: int, gap: int, readings: seq<Reading>)
    requires TimelyReadings(t, gap, readings) && readings != []
    ensures TimelyReadings(t, gap, readings[..|readings| - 1])
  {
    var most := readings[..|readings| - 1];
    forall i | 0 <= i < |most|
      ensures ClockBefore(t, most, i) == ClockBefore(t, readings, i)
      ensures ReadBefore(t, most, i) == ReadBefore(t, readings, i)
    {
    }
  }

  lemma TurnIsTimely(s: State, tic: int, r: Reading, t: int, end: int, gap: int)
    requires ValidState(s) && end <= r.asked <= r.now <= r.clock && r.now <= t + gap
    ensures Turns.TimelyTurn(t, end, gap, TurnOf(s, tic, r))
  {
    hide AfterTurn, R.Run, R.WellFormed, Turns.TurnOps, OpsOf, TurnOf;
    OneTurn(s, tic, r);
  }

  lemma MoreTimely(t: int, gap: int, turns: seq<Turns.Turn>, turn: Turns.Turn)
    requires Turns.Timely(t, gap, turns)
    requires Turns.TimelyTurn(Turns.LastReading(t, turns), Turns.LastEnd(t, turns), gap, turn)
    ensures Turns.Timely(t, gap, turns + [turn])
  {
    hide Turns.TimelyTurn, Turns.LastReading, Turns.LastEnd;
    var more := turns + [turn];
    forall i | 0 <= i < |more|
      ensures Turns.TimelyTurn(Turns.LastReading(t, more[..i]), Turns.LastEnd(t, more[..i]), gap, more[i])
    {
      assert more[..i] == turns[..i];
      assert turns[..|turns|] == turns;
    }
  }

  lemma {:induction false} ReadingsAreTimely(s: State, tic: int, t: int, gap: int, readings: seq<Reading>)
    requires ValidState(s) && TimelyReadings(t, gap, readings)
    ensures Turns.Timely(t, gap, TurnsOf(s, tic, readings))
  {
    hide AfterTurn, TurnOf, ValidState, R.WellFormed, Turns.Timely, Turns.TimelyTurn;
    if readings == [] {
      NothingTimely(t, gap);
    } else {
      var n := |readings| - 1;
      FewerReadings(t, gap, readings);
      ReadingsAreTimely(s, tic, t, gap, readings[..n]);
      var before := Served(s, tic, readings[..n]);
      TurnIsTimely(before, tic, readings[n], ReadBefore(t, readings, n), ClockBefore(t, readings, n), gap);
      var turns := TurnsOf(s, tic, readings[..n]);
      MoreTimely(t, gap, turns, TurnOf(before, tic, readings[n]));
    }
  }

  lemma NothingTimely(t: int, gap: int)
    ensures Turns.Timely(t, gap, [])
  {
  }

  // ----- New durations

  /** A usable duration, and more than a running round has lasted at the time. */
  predicate LongEnough(s: R.State, seconds: nat, t: int) {
    TimedEnd.Usable(seconds * R.SECOND) && (s.running ==> t - s.startTime < seconds * R.SECOND)
  }

  /** An agent that sets the duration sets one that is long enough when it is set. */
  ghost predicate ReadingGuarded(s: State, tic: int, r: Reading)
    requires ValidState(s)
  {
    && (SetsDuration(r.early) ==> LongEnough(RoundOf(s), r.early.value.seconds, r.asked))
    && (Turns.Due(s.previousTic, tic, r.now) && SetsDuration(r.late) ==>
          LongEnough(RoundOf(Received(s, r)), r.late.value.seconds, r.clock))
  }

  ghost predicate GuardedReadings(s: State, tic: int, readings: seq<Reading>)
    requires ValidState(s)
  {
    forall i | 0 <= i < |readings| :: ReadingGuarded(Served(s, tic, readings[..i]), tic, readings[i])
  }

  /** The round once the turn has read the clock. */
  lemma ReadRun(s: State, r: Reading)
    requires ValidState(s)
    ensures RoundOf(Received(s, r)) ==
              R.Run(RoundOf(s), OpsOf(s.world.sensed, EarlyInputs(s, r)) + [R.SetTime(r.now)])
  {
    hide R.Run, R.Apply, Si.Valid, OpsOf, EarlyInputs, FeedAgent, Turns.AllRequests, Turns.StartsWithin,
         TimedEnd.FixedDuration, Si.TakeAll;
    EarlyRequests(s, r);
    RunEnds(RoundOf(s), OpsOf(s.world.sensed, EarlyInputs(s, r)));
    TakeOther(FeedAgent(s.world, r.early, r.asked).sensed, R.SetTime(r.now));
  }

  lemma TurnGuarded(first: R.State, ops: seq<R.Op>, s: State, tic: int, r: Reading,
                    low: int, t: int, end: int, gap: int)
    requires R.WellFormed(first) && ValidState(s) && RoundOf(s) == R.Run(first, ops)
    requires TimedEnd.Guarded(first, ops) && Turns.Kept(first, ops, low, end) && low <= end
    requires end <= r.asked <= r.now <= r.clock && r.now <= t + gap
    requires ReadingGuarded(s, tic, r)
    ensures var due := Turns.Due(s.previousTic, tic, r.now);
            TimedEnd.Guarded(first, ops + Turns.TurnOps(RoundOf(s), due, TurnOf(s, tic, r)))
  {
    hide TimedEnd.Guarded, Turns.Kept, R.Run, R.WellFormed, Si.Valid, OpsOf, EarlyInputs, LateInputs, Received,
         Turns.AllRequests, Turns.StartsWithin, Turns.TimelyTurn, TimedEnd.FixedDuration, TimedEnd.Usable,
         TimedEnd.LastTick, Turns.Due;
    var turn := TurnOf(s, tic, r);
    var due := Turns.Due(s.previousTic, tic, r.now);
    EarlyRequests(s, r);
    LateRequests(s, tic, r);
    TurnIsTimely(s, tic, r, t, end, gap);
    Turns.EarlyKept(first, ops, turn, low, t, end, gap);
    EarlyGuarded(first, ops, s, tic, r, low, end);
    var read := ops + turn.early + [R.SetTime(r.now)];
    ReadRun(s, r);
    Turns.RunOfJoin(first, ops, turn.early + [R.SetTime(r.now)]);
    assert ops + (turn.early + [R.SetTime(r.now)]) == read;
    LateGuarded(first, read, s, tic, r, low);
    assert read + turn.late == ops + Turns.Asked(turn);
    Turns.OneMoreGuarded(first, read + turn.late, R.Step);
    assert read + turn.late + [R.Step] == ops + (Turns.Asked(turn) + [R.Step]);
    assert Turns.Asked(turn) + [] == Turns.Asked(turn);
  }

  lemma EarlyGuarded(first: R.State, ops: seq<R.Op>, s: State, tic: int, r: Reading, low: int, end: int)
    requires R.WellFormed(first) && ValidState(s) && RoundOf(s) == R.Run(first, ops)
    requires TimedEnd.Guarded(first, ops) && Turns.Kept(first, ops, low, end) && end <= r.asked
    requires ReadingGuarded(s, tic, r)
    ensures TimedEnd.Guarded(first, ops + OpsOf(s.world.sensed, EarlyInputs(s, r)) + [R.SetTime(r.now)])
  {
    hide TimedEnd.Guarded, Turns.Kept, R.Run, R.WellFormed, Si.Valid, OpsOf, EarlyInputs, Received,
         Turns.AllRequests, Turns.StartsWithin, TimedEnd.FixedDuration, TimedEnd.Usable, TimedEnd.LastTick, Turns.Due;
    var early := OpsOf(s.world.sensed, EarlyInputs(s, r));
    EarlyRequests(s, r);
    if SetsDuration(r.early) {
      Turns.KeptRunning(first, ops, low, end);
      Turns.OneMoreGuarded(first, ops, R.SetDuration(r.early.value.seconds * R.SECOND));
    } else {
      Turns.MoreGuarded(first, ops, early);
    }
    Turns.OneMoreGuarded(first, ops + early, R.SetTime(r.now));
  }

  lemma LateGuarded(first: R.State, read: seq<R.Op>, s: State, tic: int, r: Reading, low: int)
    requires R.WellFormed(first) && ValidState(s) && RoundOf(Received(s, r)) == R.Run(first, read)
    requires TimedEnd.Guarded(first, read) && Turns.Kept(first, read, low, r.now) && r.now <= r.clock
    requires ReadingGuarded(s, tic, r)
    ensures TimedEnd.Guarded(first, read + OpsOf(Received(s, r).world.sensed, LateInputs(s, tic, r)))
  {
    hide TimedEnd.Guarded, Turns.Kept, R.Run, R.WellFormed, Si.Valid, OpsOf, LateInputs, Received,
         Turns.AllRequests, Turns.StartsWithin, TimedEnd.FixedDuration, TimedEnd.Usable, TimedEnd.LastTick, Turns.Due;
    var late := OpsOf(Received(s, r).world.sensed, LateInputs(s, tic, r));
    LateRequests(s, tic, r);
    if Turns.Due(s.previousTic, tic, r.now) && SetsDuration(r.late) {
      Turns.KeptRunning(first, read, low, r.now);
      Turns.OneMoreGuarded(first, read, R.SetDuration(r.late.value.seconds * R.SECOND));
    } else {
      Turns.MoreGuarded(first, read, late);
    }
  }

  lemma {:induction false} ServedIsGuarded(s: State, tic: int, t: int, gap: int, readings: seq<Reading>)
    requires ValidState(s) && !RoundOf(s).running && GuardedReadings(s, tic, readings)
    requires TimelyReadings(t, gap, readings) && s.previousTic <= t && tic > 0 && tic + gap <= R.SECOND
    ensures TimedEnd.Guarded(RoundOf(s), Turns.Ops(RoundOf(s), s.previousTic, tic, TurnsOf(s, tic, readings)))
  {
    hide TimedEnd.Guarded, Turns.Kept, R.Run, R.WellFormed, AfterTurn, TurnOf, Turns.TurnOps, Turns.Due, Turns.Timely,
         Messages.Valid, ReadingGuarded;
    if readings == [] {
      NoTurnsNoOps(RoundOf(s), s.previousTic, tic);
      NothingGuarded(RoundOf(s));
    } else {
      var n := |readings| - 1;
      var most := readings[..n];
      var turns := TurnsOf(s, tic, most);
      FewerReadings(t, gap, readings);
      FewerGuarded(s, tic, readings);
      ServedIsGuarded(s, tic, t, gap, most);
      ServedIsLoop(s, tic, most);
      ReadingsAreTimely(s, tic, t, gap, most);
      Turns.LoopKeepsTime(RoundOf(s), s.previousTic, tic, t, gap, turns);
      TurnGuarded(RoundOf(s), Turns.Ops(RoundOf(s), s.previousTic, tic, turns), Served(s, tic, most), tic, readings[n],
                  Turns.Low(s.previousTic, t, tic, turns), ReadBefore(t, readings, n),
                  ClockBefore(t, readings, n), gap);
      var more := TurnsOf(s, tic, readings);
      assert more[..n] == turns;
    }
  }

  lemma NothingGuarded(s: R.State)
    requires R.WellFormed(s)
    ensures TimedEnd.Guarded(s, [])
  {
  }

  lemma FewerGuarded(s: State, tic: int, readings: seq<Reading>)
    requires ValidState(s) && GuardedReadings(s, tic, readings) && readings != []
    ensures GuardedReadings(s, tic, readings[..|readings| - 1])
    ensures ReadingGuarded(Served(s, tic, readings[..|readings| - 1]), tic, readings[|readings| - 1])
  {
    hide ReadingGuarded, AfterTurn, Messages.Valid, R.WellFormed;
    var most := readings[..|readings| - 1];
    forall i | 0 <= i < |most| ensures ReadingGuarded(Served(s, tic, most[..i]), tic, most[i]) {
      assert most[..i] == readings[..i];
    }
  }

  /**
   A server that turns often enough, and is given no duration shorter than what has passed,
   lets no round outlive its duration by a whole tic.
   */
  lemma ServedRoundsEnd(s: State, tic: int, t: int, gap: int, readings: seq<Reading>)
    requires ValidState(s) && !RoundOf(s).running && TimedEnd.Usable(RoundOf(s).duration)
    requires GuardedReadings(s, tic, readings)
    requires TimelyReadings(t, gap, readings) && s.previousTic <= t && tic > 0 && tic + gap <= R.SECOND
    ensures var r := RoundOf(Served(s, tic, readings));
            r.running ==> ReadBefore(t, readings, |readings|) - r.startTime < r.duration + tic
  {
    hide Served, R.Run, TurnOf, GuardedReadings, TimedEnd.Guarded;
    ServedIsLoop(s, tic, readings);
    ServedIsGuarded(s, tic, t, gap, readings);
    ReadingsAreTimely(s, tic, t, gap, readings);
    Turns.RoundsEndOnTime(RoundOf(s), s.previousTic, tic, t, gap, TurnsOf(s, tic, readings));
  }

  // ----- Robots that report colours only

  /** A message of the robot's that carries no RFID reading, or a message of another. */
  predicate Colours(m: Message, rid: string) {
    m.RobotState? && m.rid == rid ==> m.rfids == []
  }

  ghost predicate AllColours(messages: seq<Message>, rid: string) {
    forall k | 0 <= k < |messages| :: Colours(messages[k], rid)
  }

  ghost predicate InboxColours(s: Ch.State<Message>, rid: string) {
    AllColours(s.publish, rid) && AllColours(s.reply, rid)
  }

  /** The robot never sends an RFID reading; nothing is said of the other robots. */
  ghost predicate ArrivalsColours(readings: seq<Reading>, rid: string) {
    forall i, k | 0 <= i < |readings| && 0 <= k < |readings[i].arrivals| ::
      Colours(readings[i].arrivals[k].message, rid)
  }

  lemma {:induction false} ArrivingKeepsColours(s: Ch.State<Message>, arrivals: seq<Ch.Taken<Message>>, rid: string)
    requires InboxColours(s, rid) && forall k | 0 <= k < |arrivals| :: Colours(arrivals[k].message, rid)
    ensures InboxColours(Ch.Run(s, Arrivals(arrivals)), rid)
  {
    hide Colours;
    if arrivals != [] {
      ArrivingKeepsColours(s, arrivals[..|arrivals| - 1], rid);
      assert Arrivals(arrivals)[..|arrivals| - 1] == Arrivals(arrivals[..|arrivals| - 1]);
    }
  }

  lemma CallKeepsColours(s: Ch.State<Message>, rid: string)
    requires InboxColours(s, rid)
    ensures InboxColours(Ch.AfterCall(s), rid)
    ensures Ch.TakenBy(s).Some? ==> Colours(Ch.TakenBy(s).value.message, rid)
  {
    hide Colours;
  }

  lemma MessageFeelsNothing(w: World, m: Message, clock: int, rid: string)
    requires Colours(m, rid)
    ensures Si.ColoursOnly(MessageInputs(w, m, clock), rid)
  {
    if m.RobotState? {
      RfidsFeel(w.sensed.byRfid, m.rid, m.rfids);
    }
  }

  lemma {:induction false} RfidsFeel(byRfid: map<string, nat>, who: string, readings: seq<Si.RfidReading>)
    ensures forall k | 0 <= k < |RfidInputs(byRfid, who, readings)| ::
              var input := RfidInputs(byRfid, who, readings)[k];
              input.Other? && (input.op.Touch? || input.op.Release?) && input.op.rid == who
  {
    if readings != [] {
      RfidsFeel(byRfid, who, readings[..|readings| - 1]);
    }
  }

  lemma TurnFeelsNothing(s: State, tic: int, r: Reading, rid: string)
    requires ValidState(s) && InboxColours(s.inbox, rid)
    requires forall k | 0 <= k < |r.arrivals| :: Colours(r.arrivals[k].message, rid)
    ensures Si.ColoursOnly(TurnInputs(s, tic, r), rid)
    ensures InboxColours(AfterTurn(s, tic, r).inbox, rid)
  {
    hide Colours, InboxColours, MessageInputs, CommandInputs, FeedAgent, Obey, Handle, Ch.Run, Ch.TakenBy, Ch.AfterCall,
         Si.Valid, R.WellFormed;
    var u := Received(s, r);
    ArrivingKeepsColours(s.inbox, r.arrivals, rid);
    CallKeepsColours(u.inbox, rid);
    CommandFeelsNothing(s.world, r.early, r.asked, rid);
    CommandFeelsNothing(u.world, r.late, r.clock, rid);
    if Ch.TakenBy(u.inbox).Some? {
      MessageFeelsNothing(u.world, Ch.TakenBy(u.inbox).value.message, r.clock, rid);
    }
  }

  lemma CommandFeelsNothing(w: World, c: Option<Command>, clock: int, rid: string)
    ensures Si.ColoursOnly(CommandOrNothing(w, c, clock), rid)
  {
  }

  lemma {:induction false} ServedFeelsNothing(s: State, tic: int, readings: seq<Reading>, rid: string)
    requires ValidState(s) && InboxColours(s.inbox, rid) && ArrivalsColours(readings, rid)
    ensures Si.ColoursOnly(ServedInputs(s, tic, readings), rid)
    ensures InboxColours(Served(s, tic, readings).inbox, rid)
  {
    hide AfterTurn, TurnInputs, InboxColours, Colours, R.WellFormed, ValidState;
    if readings != [] {
      var most, last := readings[..|readings| - 1], readings[|readings| - 1];
      ServedFeelsNothing(s, tic, most, rid);
      TurnFeelsNothing(Served(s, tic, most), tic, last, rid);
    }
  }

  /**
   A robot that sends no RFID reading to the server is never in contact with anything but
   the item its detector holds; and if the detector holds one without a contact, one of the
   ticks of the run has matured that contact.
   */
  lemma ServedContactsAreSeen(s: State, tic: int, readings: seq<Reading>, rid: string)
    requires ValidState(s) && InboxColours(s.inbox, rid) && ArrivalsColours(readings, rid)
    requires Si.Seen(s.world.sensed, rid)
    requires Si.Held(s.world.sensed, rid).Some? ==> rid in RoundOf(s).contacts
    ensures var t := Served(s, tic, readings).world.sensed;
            var inputs := ServedInputs(s, tic, readings);
            && Si.Seen(t, rid)
            && (Si.Held(t, rid).Some? && rid !in t.round.contacts ==>
                  exists k :: 0 <= k < |inputs| && Si.MaturedAt(s.world.sensed, inputs, k, rid, Si.Held(t, rid).value))
  {
    hide Si.Valid, Si.TakeAll, Si.Held, Si.ColoursOnly, Si.Seen, Si.MaturedAt, InboxColours, Served, ServedInputs;
    var t := Served(s, tic, readings).world.sensed;
    var inputs := ServedInputs(s, tic, readings);
    ServedIsTaken(s, tic, readings);
    ServedFeelsNothing(s, tic, readings, rid);
    Si.EveryContactIsSeen(s.world.sensed, inputs, rid);
    if Si.Held(t, rid).Some? && rid !in t.round.contacts {
      Si.HeldWithoutContactMatured(s.world.sensed, inputs, rid);
    }
  }

  // ----- And runs of the channels

  /** Arrivals, with a call in every turn that is not due for a tick. */
  function InboxInputs(s: State, tic: int, readings: seq<Reading>): seq<Ch.Input<Message>>
    requires ValidState(s)
  {
    if readings == [] then []
    else
      var most, last := readings[..|readings| - 1], readings[|readings| - 1];
      InboxInputs(s, tic, most) + Arrivals(last.arrivals)
      + if Turns.Due(Served(s, tic, most).previousTic, tic, last.now) then [] else [Ch.Call]
  }

  lemma {:induction false} InboxIsRun(s: State, tic: int, readings: seq<Reading>)
    requires ValidState(s)
    ensures Served(s, tic, readings).inbox == Ch.Run(s.inbox, InboxInputs(s, tic, readings))
  {
    hide AfterTurn, ValidState, Arrivals, Ch.AfterCall;
    if readings != [] {
      var most, last := readings[..|readings| - 1], readings[|readings| - 1];
      InboxIsRun(s, tic, most);
      var inputs := InboxInputs(s, tic, most) + Arrivals(last.arrivals);
      Ch.RunOfJoin(s.inbox, InboxInputs(s, tic, most), Arrivals(last.arrivals));
      InboxAfter(Served(s, tic, most), tic, last);
      if Turns.Due(Served(s, tic, most).previousTic, tic, last.now) {
        assert inputs + [] == inputs;
      } else {
        assert (inputs + [Ch.Call])[..|inputs|] == inputs;
      }
    }
  }

  lemma InboxAfter(s: State, tic: int, r: Reading)
    requires ValidState(s)
    ensures AfterTurn(s, tic, r).inbox ==
              var received := Ch.Run(s.inbox, Arrivals(r.arrivals));
              if Turns.Due(s.previousTic, tic, r.now) then received else Ch.AfterCall(received)
  {
  }

  /**
   A message that is waiting with k others before it on its channel has been processed once
   2(k + 1) turns were not due for a tick.
   */
  lemma EveryMessageIsServed(s: State, tic: int, readings: seq<Reading>, c: Ch.Channel, k: nat)
    requires ValidState(s) && k < |Ch.Waiting(s.inbox, c)|
    requires Ch.Calls(InboxInputs(s, tic, readings)) >= 2 * (k + 1)
    ensures var done := Ch.OfChannel(Ch.Processed(s.inbox, InboxInputs(s, tic, readings)), c);
            && k < |done| && done[k] == Ch.Waiting(s.inbox, c)[k]
            && done + Ch.Waiting(Served(s, tic, readings).inbox, c) ==
                 Ch.Waiting(s.inbox, c) + Ch.Arrived(InboxInputs(s, tic, readings), c)
  {
    InboxIsRun(s, tic, readings);
    Ch.ProcessedInTime(s.inbox, InboxInputs(s, tic, readings), c, k);
    Ch.FirstInFirstOut(s.inbox, InboxInputs(s, tic, readings), c);
  }
}
