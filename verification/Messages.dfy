/**
 What the messages of players and robots, and the commands of agents, do to the game, seen
 as values.
 */
module Messages {
  import R = Round
  import Ro = Roster
  import D = Detector
  import Si = Sightings
  import FreshIds
  import Turns
  import TimedEnd

  /** Ping, Pong, Input and messages of an unknown type do not touch the game. */
  datatype Message =
    | Hello(player: string, ready: bool)
    | Register(temporaryId: string)
    | RobotState(rid: string, rfids: seq<Si.RfidReading>, colours: seq<int>)
    | OtherMessage

  /** The agent's commands that change the game. */
  datatype Command =
    | StartGame
    | StopGame
    | SetDuration(seconds: nat)
    | SetScore(team: string, score: nat)
    | AddTeam(team: string)
    | AddPlayer(player: string)
    | RemovePlayer(player: string)
    | AddRobot(robot: string, team: string)
    | RemoveRobot(robot: string)
    | SetRegistered(robot: string, hasReal: bool)

  /** All the game holds. */
  datatype World = World(sensed: Si.Sensors, roster: Ro.State)

  ghost predicate Valid(w: World)
    ensures Valid(w) ==> R.WellFormed(w.sensed.round)
  {
    Si.Valid(w.sensed)
  }

  function WithRound(w: World, round: R.State): World {
    w.(sensed := w.sensed.(round := round))
  }

  // ----- Effects on the round and the detectors

  function RfidInputs(byRfid: map<string, nat>, rid: string, readings: seq<Si.RfidReading>): seq<Si.Input> {
    if readings == [] then []
    else
      var last := readings[|readings| - 1];
      RfidInputs(byRfid, rid, readings[..|readings| - 1])
      + if last.rfid !in byRfid then []
        else [Si.Other(if last.on then R.Touch(rid, byRfid[last.rfid]) else R.Release(rid))]
  }

  function ColourInputs(rid: string, colours: seq<int>): seq<Si.Input> {
    seq(|colours|, i requires 0 <= i < |colours| => Si.Reading(rid, colours[i]))
  }

  /** The clock is read anew when a Hello starts the game. */
  function MessageInputs(w: World, m: Message, clock: int): seq<Si.Input> {
    match m
    case Hello(player, ready) =>
      if Ro.HelloStarts(w.roster, player, ready) then [Si.Other(R.Start(true, clock))] else []
    case RobotState(rid, rfids, colours) =>
      if rid !in w.sensed.round.robots then []
      else RfidInputs(w.sensed.byRfid, rid, rfids) + ColourInputs(rid, colours)
    case _ => []
  }

  /** An agent gives no id to the robots it adds. */
  function CommandInputs(w: World, c: Command, clock: int): seq<Si.Input> {
    match c
    case StartGame => [Si.Other(R.Start(true, clock))]
    case StopGame => [Si.Other(R.Stop)]
    case SetDuration(seconds) => [Si.Other(R.SetDuration(seconds * R.SECOND))]
    case SetScore(team, score) => [Si.Other(R.SetScore(team, score))]
    case AddTeam(team) => [Si.Other(R.AddTeam(team))]
    case AddRobot(robot, team) => NewRobotInputs(w, robot, team, "")
    case _ => []
  }

  function NewRobotInputs(w: World, robot: string, team: string, givenId: string): seq<Si.Input> {
    if robot in w.roster.robots || team !in w.roster.teams then []
    else [Si.Other(R.AddRobot(if givenId == "" then FreshIds.NewId(Ro.Ids(w.roster)) else givenId, team))]
  }

  // ----- Effects on the roster

  function MessageRoster(s: Ro.State, m: Message): Ro.State {
    match m
    case Hello(player, _) => Ro.AfterHello(s, player)
    case Register(temporaryId) => Ro.WithRegistration(s, temporaryId)
    case _ => s
  }

  function CommandRoster(s: Ro.State, c: Command): Ro.State {
    match c
    case AddTeam(team) => Ro.Apply(s, Ro.AddTeam(team))
    case AddPlayer(player) => Ro.Apply(s, Ro.AddPlayer(player))
    case RemovePlayer(player) => Ro.Apply(s, Ro.RemovePlayer(player))
    case AddRobot(robot, team) => Ro.Apply(s, Ro.AddRobot(robot, team, ""))
    case RemoveRobot(robot) => Ro.Apply(s, Ro.RemoveRobot(robot))
    case SetRegistered(robot, hasReal) => Ro.Apply(s, Ro.SetRegistered(robot, hasReal))
    case _ => s
  }

  function Handle(w: World, m: Message, clock: int): (r: World)
    requires Valid(w)
    ensures Valid(r)
  {
    World(Si.TakeAll(w.sensed, MessageInputs(w, m, clock)), MessageRoster(w.roster, m))
  }

  function Obey(w: World, c: Command, clock: int): (r: World)
    requires Valid(w)
    ensures Valid(r)
  {
    World(Si.TakeAll(w.sensed, CommandInputs(w, c, clock)), CommandRoster(w.roster, c))
  }

  // ----- Inputs one after the other

  lemma TakeNothing(s: Si.Sensors)
    requires Si.Valid(s)
    ensures Si.TakeAll(s, []) == s
  {
  }

  lemma TakeMore(s: Si.Sensors, inputs: seq<Si.Input>, input: Si.Input)
    requires Si.Valid(s)
    ensures Si.TakeAll(s, inputs + [input]) == Si.Take(Si.TakeAll(s, inputs), input)
  {
    hide Si.Take, Si.Valid;
    assert (inputs + [input])[..|inputs|] == inputs;
  }

  lemma TakeOne(s: Si.Sensors, input: Si.Input)
    requires Si.Valid(s)
    ensures Si.TakeAll(s, [input]) == Si.Take(s, input)
  {
    hide Si.Take, Si.Valid;
    assert [input][..0] == [];
  }

  lemma {:induction false} TakeJoined(s: Si.Sensors, a: seq<Si.Input>, b: seq<Si.Input>)
    requires Si.Valid(s)
    ensures Si.TakeAll(s, a + b) == Si.TakeAll(Si.TakeAll(s, a), b)
  {
    hide Si.Take, Si.Valid;
    if b == [] {
      assert a + b == a;
    } else {
      var n := |b| - 1;
      assert a + b == a + b[..n] + [b[n]];
      TakeMore(s, a + b[..n], b[n]);
      TakeJoined(s, a, b[..n]);
    }
  }

  /** Inputs that add no robot only change the round. */
  lemma TakeOther(s: Si.Sensors, op: R.Op)
    requires Si.Valid(s) && !op.AddRobot?
    ensures Si.Take(s, Si.Other(op)) == s.(round := R.Apply(s.round, op))
  {
    hide R.Apply;
    Si.RobotsAfter(s.round, op);
    assert R.Apply(s.round, op).robots.Keys - s.detectors.Keys == {};
  }

  // ----- A robot's message, reading by reading

  lemma {:induction false} RfidsAreInputs(s: Si.Sensors, rid: string, readings: seq<Si.RfidReading>)
    requires Si.Valid(s)
    ensures Si.SeeRfids(s, rid, readings) == Si.TakeAll(s, RfidInputs(s.byRfid, rid, readings))
  {
    hide Si.Valid, Si.Take, R.Apply;
    if readings != [] {
      var n := |readings| - 1;
      var before := RfidInputs(s.byRfid, rid, readings[..n]);
      RfidsAreInputs(s, rid, readings[..n]);
      Si.SeeRfidsKeeps(s, rid, readings[..n]);
      var seen := Si.SeeRfids(s, rid, readings[..n]);
      if readings[n].rfid in s.byRfid {
        var op := if readings[n].on then R.Touch(rid, s.byRfid[readings[n].rfid]) else R.Release(rid);
        TakeMore(s, before, Si.Other(op));
        TakeOther(seen, op);
      } else {
        assert RfidInputs(s.byRfid, rid, readings) == before;
      }
    }
  }

  lemma {:induction false} ColoursAreInputs(s: Si.Sensors, rid: string, colours: seq<int>)
    requires Si.Valid(s)
    ensures Si.SeeColours(s, rid, colours) == Si.TakeAll(s, ColourInputs(rid, colours))
  {
    hide Si.Valid, Si.SeeColour;
    if colours != [] {
      var n := |colours| - 1;
      ColoursAreInputs(s, rid, colours[..n]);
      assert ColourInputs(rid, colours) == ColourInputs(rid, colours[..n]) + [Si.Reading(rid, colours[n])];
      TakeMore(s, ColourInputs(rid, colours[..n]), Si.Reading(rid, colours[n]));
    }
  }

  /** The message as a whole: its RFID readings and then its colours, each taken on its own. */
  lemma RobotStateIsInputs(w: World, m: Message, clock: int)
    requires Valid(w) && m.RobotState?
    ensures Handle(w, m, clock) == w.(sensed := Si.RobotState(w.sensed, m.rid, m.rfids, m.colours))
  {
    hide Si.Valid, Si.Take;
    var a, b := RfidInputs(w.sensed.byRfid, m.rid, m.rfids), ColourInputs(m.rid, m.colours);
    RfidsAreInputs(w.sensed, m.rid, m.rfids);
    ColoursAreInputs(Si.SeeRfids(w.sensed, m.rid, m.rfids), m.rid, m.colours);
    TakeJoined(w.sensed, a, b);
    TakeNothing(w.sensed);
  }

  // ----- The operations of the round behind the inputs

  function ReportOps(rid: string, report: D.Report): seq<R.Op> {
    match report
    case Nothing => []
    case InContact(item) => [R.Touch(rid, item)]
    case Dropped(_) => [R.Release(rid)]
  }

  function InputOps(s: Si.Sensors, input: Si.Input): seq<R.Op> {
    match input
    case Reading(rid, colour) =>
      if rid in s.detectors then ReportOps(rid, D.Read(s.detectors[rid], colour, s.byColour).report) else []
    case Other(op) => [op]
  }

  function OpsOf(s: Si.Sensors, inputs: seq<Si.Input>): seq<R.Op>
    requires Si.Valid(s)
  {
    if inputs == [] then []
    else
      var most := inputs[..|inputs| - 1];
      OpsOf(s, most) + InputOps(Si.TakeAll(s, most), inputs[|inputs| - 1])
  }

  lemma RunEnds(s: R.State, ops: seq<R.Op>)
    requires R.WellFormed(s)
    ensures ops + [] == ops && R.Run(s, []) == s
    ensures forall op :: R.Run(s, ops + [op]) == R.Apply(R.Run(s, ops), op)
  {
    hide R.Apply;
    forall op ensures R.Run(s, ops + [op]) == R.Apply(R.Run(s, ops), op) {
      Turns.OneMore(s, ops, op);
    }
  }

  lemma {:induction false} InputsAreOps(s: Si.Sensors, inputs: seq<Si.Input>)
    requires Si.Valid(s)
    ensures Si.TakeAll(s, inputs).round == R.Run(s.round, OpsOf(s, inputs))
  {
    hide Si.Valid, R.Apply, D.Read;
    if inputs != [] {
      var n := |inputs| - 1;
      InputsAreOps(s, inputs[..n]);
      RunEnds(s.round, OpsOf(s, inputs[..n]));
      InputIsOps(Si.TakeAll(s, inputs[..n]), inputs[n]);
    }
  }

  lemma InputIsOps(s: Si.Sensors, input: Si.Input)
    requires Si.Valid(s)
    ensures var ops := InputOps(s, input);
            && |ops| <= 1
            && Si.Take(s, input).round == if ops == [] then s.round else R.Apply(s.round, ops[0])
  {
    hide R.Apply, D.Read;
    if input.Reading? && input.rid in s.detectors {
      Si.ColourSeen(s, input.rid, input.colour);
    }
  }

  /** What is asked for, with starts that read the clock at the given time. */
  predicate Asks(input: Si.Input, clock: int) {
    input.Other? ==>
      Turns.Request(input.op) && (input.op.Start? ==> input.op.now == clock)
  }

  ghost predicate AllAsk(inputs: seq<Si.Input>, clock: int) {
    forall k | 0 <= k < |inputs| :: Asks(inputs[k], clock)
  }

  ghost predicate KeepDuration(inputs: seq<Si.Input>) {
    forall k | 0 <= k < |inputs| && inputs[k].Other? :: !inputs[k].op.SetDuration?
  }

  lemma {:induction false} OpsAreRequests(s: Si.Sensors, inputs: seq<Si.Input>, clock: int)
    requires Si.Valid(s)
    requires AllAsk(inputs, clock)
    ensures Turns.AllRequests(OpsOf(s, inputs)) && Turns.StartsWithin(OpsOf(s, inputs), clock, clock)
  {
    hide Si.Valid, D.Read;
    if inputs != [] {
      OpsAreRequests(s, inputs[..|inputs| - 1], clock);
    }
  }

  lemma {:induction false} OpsKeepDuration(s: Si.Sensors, inputs: seq<Si.Input>)
    requires Si.Valid(s)
    requires KeepDuration(inputs)
    ensures TimedEnd.FixedDuration(OpsOf(s, inputs))
  {
    hide Si.Valid, D.Read;
    if inputs != [] {
      OpsKeepDuration(s, inputs[..|inputs| - 1]);
    }
  }

  lemma {:induction false} RfidsAsk(byRfid: map<string, nat>, rid: string, readings: seq<Si.RfidReading>, clock: int)
    ensures AllAsk(RfidInputs(byRfid, rid, readings), clock) && KeepDuration(RfidInputs(byRfid, rid, readings))
  {
    if readings != [] {
      RfidsAsk(byRfid, rid, readings[..|readings| - 1], clock);
    }
  }

  lemma ColoursAsk(rid: string, colours: seq<int>, clock: int)
    ensures AllAsk(ColourInputs(rid, colours), clock) && KeepDuration(ColourInputs(rid, colours))
  {
  }

  lemma JoinedAsk(a: seq<Si.Input>, b: seq<Si.Input>, clock: int)
    requires AllAsk(a, clock) && AllAsk(b, clock) && KeepDuration(a) && KeepDuration(b)
    ensures AllAsk(a + b, clock) && KeepDuration(a + b)
  {
    hide Asks;
  }

  lemma MessageAsks(w: World, m: Message, clock: int)
    ensures AllAsk(MessageInputs(w, m, clock), clock) && KeepDuration(MessageInputs(w, m, clock))
  {
    hide RfidInputs, ColourInputs;
    if m.RobotState? && m.rid in w.sensed.round.robots {
      hide AllAsk, KeepDuration;
      RfidsAsk(w.sensed.byRfid, m.rid, m.rfids, clock);
      ColoursAsk(m.rid, m.colours, clock);
      JoinedAsk(RfidInputs(w.sensed.byRfid, m.rid, m.rfids), ColourInputs(m.rid, m.colours), clock);
    }
  }

  /** On the round every message is a history of requests, and a start reads the clock. */
  lemma MessageIsRequests(w: World, m: Message, clock: int)
    requires Valid(w)
    ensures var ops := OpsOf(w.sensed, MessageInputs(w, m, clock));
            && Handle(w, m, clock).sensed.round == R.Run(w.sensed.round, ops)
            && Turns.AllRequests(ops) && TimedEnd.FixedDuration(ops) && Turns.StartsWithin(ops, clock, clock)
  {
    hide Si.Valid, R.Run, Si.TakeAll, OpsOf, MessageInputs, AllAsk, KeepDuration, Turns.AllRequests,
         Turns.StartsWithin, TimedEnd.FixedDuration;
    MessageAsks(w, m, clock);
    InputsAreOps(w.sensed, MessageInputs(w, m, clock));
    OpsAreRequests(w.sensed, MessageInputs(w, m, clock), clock);
    OpsKeepDuration(w.sensed, MessageInputs(w, m, clock));
  }

  lemma DurationCommand(w: World, seconds: nat, clock: int)
    requires Valid(w)
    ensures OpsOf(w.sensed, CommandInputs(w, SetDuration(seconds), clock)) == [R.SetDuration(seconds * R.SECOND)]
  {
    hide Si.Valid, Si.Take;
    assert CommandInputs(w, SetDuration(seconds), clock)[..0] == [];
  }

  /** So is every command; only one of them changes the duration. */
  lemma CommandIsRequests(w: World, c: Command, clock: int)
    requires Valid(w)
    ensures var ops := OpsOf(w.sensed, CommandInputs(w, c, clock));
            && Obey(w, c, clock).sensed.round == R.Run(w.sensed.round, ops)
            && Turns.AllRequests(ops) && Turns.StartsWithin(ops, clock, clock)
            && (!c.SetDuration? ==> TimedEnd.FixedDuration(ops))
  {
    hide Si.Valid, R.Run, Si.TakeAll, OpsOf, CommandInputs, AllAsk, KeepDuration, Turns.AllRequests,
         Turns.StartsWithin, TimedEnd.FixedDuration;
    CommandAsks(w, c, clock);
    InputsAreOps(w.sensed, CommandInputs(w, c, clock));
    OpsAreRequests(w.sensed, CommandInputs(w, c, clock), clock);
    if !c.SetDuration? {
      OpsKeepDuration(w.sensed, CommandInputs(w, c, clock));
    }
  }

  lemma CommandAsks(w: World, c: Command, clock: int)
    ensures AllAsk(CommandInputs(w, c, clock), clock)
    ensures !c.SetDuration? ==> KeepDuration(CommandInputs(w, c, clock))
  {
  }

  // ----- What commands and messages do, in plain terms

  /** Commands on the round. */
  lemma RoundCommands(w: World, team: string, value: nat, clock: int)
    requires Valid(w)
    ensures Obey(w, StartGame, clock) == WithRound(w, R.Apply(w.sensed.round, R.Start(true, clock)))
    ensures Obey(w, StopGame, clock) == WithRound(w, R.Apply(w.sensed.round, R.Stop))
    ensures Obey(w, SetDuration(value), clock) == WithRound(w, w.sensed.round.(duration := value * 1_000_000))
    ensures Obey(w, SetScore(team, value), clock) == WithRound(w, R.Apply(w.sensed.round, R.SetScore(team, value)))
  {
    hide Si.Valid, Si.Take, Si.TakeAll, R.Apply;
    OneOperation(w, StartGame, R.Start(true, clock), clock);
    OneOperation(w, StopGame, R.Stop, clock);
    OneOperation(w, SetDuration(value), R.SetDuration(value * R.SECOND), clock);
    OneOperation(w, SetScore(team, value), R.SetScore(team, value), clock);
    DurationSet(w.sensed.round, value * 1_000_000);
  }

  lemma DurationSet(s: R.State, duration: int)
    requires R.WellFormed(s)
    ensures R.Apply(s, R.SetDuration(duration)) == s.(duration := duration)
  {
  }

  lemma OneOperation(w: World, c: Command, op: R.Op, clock: int)
    requires Valid(w) && CommandInputs(w, c, clock) == [Si.Other(op)] && !op.AddRobot?
    requires CommandRoster(w.roster, c) == w.roster
    ensures Obey(w, c, clock) == WithRound(w, R.Apply(w.sensed.round, op))
  {
    hide Si.Valid, Si.Take, Si.TakeAll, R.Apply;
    TakeOne(w.sensed, Si.Other(op));
    TakeOther(w.sensed, op);
  }

  /** Commands on the roster leave the round alone, but for new teams and robots. */
  lemma RosterCommands(w: World, name: string, team: string, hasReal: bool, clock: int)
    requires Valid(w)
    ensures Obey(w, AddPlayer(name), clock) == w.(roster := Ro.Apply(w.roster, Ro.AddPlayer(name)))
    ensures Obey(w, RemovePlayer(name), clock) == w.(roster := Ro.Apply(w.roster, Ro.RemovePlayer(name)))
    ensures Obey(w, RemoveRobot(name), clock) == w.(roster := Ro.Apply(w.roster, Ro.RemoveRobot(name)))
    ensures Obey(w, SetRegistered(name, hasReal), clock) ==
              w.(roster := Ro.Apply(w.roster, Ro.SetRegistered(name, hasReal)))
    ensures Obey(w, AddTeam(team), clock) ==
              WithRound(w, R.Apply(w.sensed.round, R.AddTeam(team))).(roster := Ro.Apply(w.roster, Ro.AddTeam(team)))
    ensures Obey(w, AddRobot(name, team), clock).roster == Ro.Apply(w.roster, Ro.AddRobot(name, team, ""))
  {
    hide Si.Valid, Si.Take, Si.TakeAll, R.Apply, Ro.Apply;
    TakeNothing(w.sensed);
    TakeOne(w.sensed, Si.Other(R.AddTeam(team)));
    TakeOther(w.sensed, R.AddTeam(team));
  }

  /** A message of a player or a robot does what its kind says and no more. */
  lemma HandlingMessages(w: World, m: Message, clock: int)
    requires Valid(w)
    ensures var r := Handle(w, m, clock);
            match m
            case Hello(player, ready) =>
              && r.roster == Ro.Apply(w.roster, Ro.Hello(player))
              && r.sensed == w.sensed.(round := if Ro.HelloStarts(w.roster, player, ready)
                                                then R.Apply(w.sensed.round, R.Start(true, clock))
                                                else w.sensed.round)
            case Register(id) => r == w.(roster := Ro.Apply(w.roster, Ro.Register(id)))
            case RobotState(rid, rfids, colours) =>
              r == w.(sensed := Si.RobotState(w.sensed, rid, rfids, colours))
            case OtherMessage => r == w
  {
    hide Si.Valid, Si.Take, Si.TakeAll, R.Apply, Ro.AfterHello, Ro.WithRegistration, Ro.HelloStarts, Si.RobotState;
    TakeNothing(w.sensed);
    TakeOne(w.sensed, Si.Other(R.Start(true, clock)));
    TakeOther(w.sensed, R.Start(true, clock));
    if m.RobotState? {
      RobotStateIsInputs(w, m, clock);
    }
  }
}
