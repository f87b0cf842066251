/**
 Which team a robot's messages count for. Contacts are found by robot id in a map that never
 lets go of a robot, while the roster does, and while generated ids are only fresh among the
 robots of the roster.
 */
module Addressing {
  import opened Options
  import opened Messages
  import R = Round
  import Ro = Roster
  import Si = Sightings
  import FreshIds
  import Text
  import Turns
  import Serving

  /** Everything that can happen to the game, the configuration's robots included. */
  datatype Act =
    | Sent(message: Message, clock: int)
    | Asked(command: Command, clock: int)
    | Configured(robot: string, team: string, id: string)
    | Passed(op: R.Op)

  function WithRobot(w: World, robot: string, team: string, id: string): (r: World)
    requires Messages.Valid(w)
    ensures Messages.Valid(r)
  {
    World(Si.TakeAll(w.sensed, NewRobotInputs(w, robot, team, id)), Ro.WithRobot(w.roster, robot, team, id))
  }

  /** Time passes and ticks come; they concern the round alone. */
  predicate Passes(act: Act) {
    act.Passed? ==> act.op.SetTime? || act.op.Step?
  }

  ghost predicate AllPass(acts: seq<Act>) {
    forall k | 0 <= k < |acts| :: Passes(acts[k])
  }

  function Do(w: World, act: Act): (r: World)
    requires Messages.Valid(w)
    ensures Messages.Valid(r)
  {
    match act
    case Sent(m, clock) => Handle(w, m, clock)
    case Asked(c, clock) => Obey(w, c, clock)
    case Configured(robot, team, id) => WithRobot(w, robot, team, id)
    case Passed(op) => w.(sensed := Si.Take(w.sensed, Si.Other(op)))
  }

  function DoAll(w: World, acts: seq<Act>): (r: World)
    requires Messages.Valid(w)
    ensures Messages.Valid(r)
  {
    if acts == [] then w
    else Do(DoAll(w, acts[..|acts| - 1]), acts[|acts| - 1])
  }

  /** The teams are the same on both sides. */
  ghost predicate Agree(w: World) {
    w.roster.teams == w.sensed.round.scores.Keys
  }

  /** The robot's id leads to its own team. */
  predicate OwnTeam(w: World, robot: string)
    requires robot in w.roster.robots
  {
    var r := w.roster.robots[robot];
    r.id in w.sensed.round.robots && w.sensed.round.robots[r.id] == r.team
  }

  /** The act adds this robot to the roster, with this team and this id. */
  function Adds(w: World, act: Act, robot: string): (r: Option<(string, string)>) {
    var asked := match act
      case Configured(name, team, id) => if name == robot then Some((team, id)) else None
      case Asked(AddRobot(name, team), _) => if name == robot then Some((team, "")) else None
      case _ => None;
    if asked.Some? && robot !in w.roster.robots && asked.value.0 in w.roster.teams
    then Some((asked.value.0, if asked.value.1 == "" then FreshIds.NewId(Ro.Ids(w.roster)) else asked.value.1))
    else None
  }

  /** The id is known already, to a robot of another team. */
  predicate Misdirects(w: World, act: Act, robot: string) {
    var added := Adds(w, act, robot);
    added.Some? && added.value.1 in w.sensed.round.robots && w.sensed.round.robots[added.value.1] != added.value.0
  }

  predicate Removes(act: Act, robot: string) {
    act.Asked? && act.command == RemoveRobot(robot)
  }

  // ----- What an act does to ids and teams

  /** Known ids keep their teams, and teams stay. */
  lemma {:induction false} TakingKeepsKnown(s: Si.Sensors, inputs: seq<Si.Input>)
    requires Si.Valid(s)
    ensures var t := Si.TakeAll(s, inputs);
            && s.round.robots.Keys <= t.round.robots.Keys && s.round.scores.Keys <= t.round.scores.Keys
            && forall rid | rid in s.round.robots :: t.round.robots[rid] == s.round.robots[rid]
    ensures (forall k | 0 <= k < |inputs| && inputs[k].Other? :: !inputs[k].op.AddTeam?) ==>
              Si.TakeAll(s, inputs).round.scores.Keys == s.round.scores.Keys
  {
    hide Si.Valid, Si.Take;
    if inputs != [] {
      TakingKeepsKnown(s, inputs[..|inputs| - 1]);
      InputKeepsKnown(Si.TakeAll(s, inputs[..|inputs| - 1]), inputs[|inputs| - 1]);
    }
  }

  lemma InputKeepsKnown(s: Si.Sensors, input: Si.Input)
    requires Si.Valid(s)
    ensures var t := Si.Take(s, input);
            && s.round.robots.Keys <= t.round.robots.Keys && s.round.scores.Keys <= t.round.scores.Keys
            && (forall rid | rid in s.round.robots :: t.round.robots[rid] == s.round.robots[rid])
            && ((input.Other? && input.op.AddTeam?) || t.round.scores.Keys == s.round.scores.Keys)
  {
    hide Si.Valid, R.Apply;
    InputIsOps(s, input);
    var ops := InputOps(s, input);
    if ops != [] {
      OperationKeepsKnown(s.round, ops[0]);
    }
  }

  lemma OperationKeepsKnown(s: R.State, op: R.Op)
    requires R.WellFormed(s)
    ensures var t := R.Apply(s, op);
            && s.robots.Keys <= t.robots.Keys && s.scores.Keys <= t.scores.Keys
            && (forall rid | rid in s.robots :: t.robots[rid] == s.robots[rid])
            && (op.AddTeam? || t.scores.Keys == s.scores.Keys)
  {
    hide R.Tick, R.Contact, R.Drop, R.StartRound;
    match op
    case Step => TickKeepsTeams(s);
    case Touch(rid, item) => if rid in s.robots && item < |s.items| { TouchKeepsTeams(s, rid, item); }
    case Release(rid) => DropKeepsTeams(s, rid);
    case Start(force, now) => StartKeepsTeams(s, force, now);
    case _ =>
  }

  lemma TouchKeepsTeams(s: R.State, rid: string, item: nat)
    requires R.WellFormed(s) && rid in s.robots && item < |s.items|
    ensures R.Contact(s, rid, item).scores == s.scores && R.Contact(s, rid, item).robots == s.robots
  {
  }

  lemma DropKeepsTeams(s: R.State, rid: string)
    requires R.WellFormed(s)
    ensures R.Drop(s, rid).scores == s.scores && R.Drop(s, rid).robots == s.robots
  {
  }

  lemma StartKeepsTeams(s: R.State, force: bool, now: int)
    requires R.WellFormed(s)
    ensures R.StartRound(s, force, now).scores.Keys == s.scores.Keys && R.StartRound(s, force, now).robots == s.robots
  {
  }

  lemma TickKeepsTeams(s: R.State)
    requires R.WellFormed(s)
    ensures R.Tick(s).scores.Keys == s.scores.Keys && R.Tick(s).robots == s.robots
  {
    hide R.HandleContacts, R.StopIfFinished;
    HandlingKeepsTeams(s);
    R.FinishStopsOrNot(R.HandleContacts(s));
  }

  lemma HandlingKeepsTeams(s: R.State)
    requires R.WellFormed(s)
    ensures R.HandleContacts(s).scores.Keys == s.scores.Keys && R.HandleContacts(s).robots == s.robots
  {
    hide R.MatureAll;
    PassKeepsTeams(s, Text.SortedKeys(s.contacts.Keys));
  }

  lemma {:induction false} PassKeepsTeams(s: R.State, keys: seq<string>)
    requires R.WellFormed(s)
    ensures R.MatureAll(s, keys).scores.Keys == s.scores.Keys && R.MatureAll(s, keys).robots == s.robots
  {
    if keys != [] {
      PassKeepsTeams(s, keys[..|keys| - 1]);
    }
  }

  /** The inputs of an act. */
  function ActInputs(w: World, act: Act): seq<Si.Input> {
    match act
    case Sent(m, clock) => MessageInputs(w, m, clock)
    case Asked(c, clock) => CommandInputs(w, c, clock)
    case Configured(robot, team, id) => NewRobotInputs(w, robot, team, id)
    case Passed(op) => [Si.Other(op)]
  }

  lemma DoTakes(w: World, act: Act)
    requires Messages.Valid(w)
    ensures Do(w, act).sensed == Si.TakeAll(w.sensed, ActInputs(w, act))
  {
    hide Si.Valid, Si.Take;
    if act.Passed? {
      TakeOne(w.sensed, Si.Other(act.op));
    }
  }

  lemma AgreeStays(w: World, act: Act)
    requires Messages.Valid(w) && Agree(w) && Passes(act)
    ensures Agree(Do(w, act))
  {
    hide Si.Valid, Si.TakeAll, Si.Take, R.Apply;
    DoTakes(w, act);
    TakingKeepsKnown(w.sensed, ActInputs(w, act));
    RosterTeams(w, act);
    if act.Asked? && act.command.AddTeam? {
      TakeOne(w.sensed, Si.Other(R.AddTeam(act.command.team)));
      TakeOther(w.sensed, R.AddTeam(act.command.team));
      TeamAdded(w.sensed.round, act.command.team);
    } else {
      NoTeamAdded(w, act);
    }
  }

  lemma TeamAdded(s: R.State, team: string)
    requires R.WellFormed(s)
    ensures R.Apply(s, R.AddTeam(team)).scores.Keys == s.scores.Keys + {team}
  {
  }

  lemma NoTeamAdded(w: World, act: Act)
    requires Passes(act) && !(act.Asked? && act.command.AddTeam?)
    ensures forall k | 0 <= k < |ActInputs(w, act)| && ActInputs(w, act)[k].Other? ::
              !ActInputs(w, act)[k].op.AddTeam?
  {
    if act.Sent? && act.message.RobotState? {
      Serving.RfidsFeel(w.sensed.byRfid, act.message.rid, act.message.rfids);
    }
  }

  lemma RosterTeams(w: World, act: Act)
    requires Messages.Valid(w)
    ensures Do(w, act).roster.teams ==
              w.roster.teams + if act.Asked? && act.command.AddTeam? then {act.command.team} else {}
  {
    hide Si.Valid, Si.TakeAll, Si.Take, Ro.RobotForPlayer, Ro.RobotWithoutRealRobot, FreshIds.NewId, Ro.Ids;
  }

  /** The robot keeps its place in the roster, its team and its id. */
  predicate Stays(s: Ro.State, t: Ro.State, robot: string) {
    && (robot in t.robots <==> robot in s.robots)
    && (robot in s.robots ==> t.robots[robot].team == s.robots[robot].team && t.robots[robot].id == s.robots[robot].id)
  }

  lemma MessageStays(s: Ro.State, m: Message, robot: string)
    ensures Stays(s, MessageRoster(s, m), robot)
  {
    hide Ro.RobotForPlayer, Ro.RobotWithoutRealRobot;
  }

  lemma CommandStays(s: Ro.State, c: Command, robot: string)
    requires !c.AddRobot? && c != RemoveRobot(robot)
    ensures Stays(s, CommandRoster(s, c), robot)
  {
  }

  lemma AddingStays(s: Ro.State, name: string, team: string, id: string, robot: string)
    ensures var t := Ro.WithRobot(s, name, team, id);
            if name == robot && robot !in s.robots && team in s.teams
            then robot in t.robots && t.robots[robot].team == team
                 && t.robots[robot].id == if id == "" then FreshIds.NewId(Ro.Ids(s)) else id
            else Stays(s, t, robot)
  {
    hide FreshIds.NewId, Ro.Ids;
  }

  /** What an act does to one robot's place in the roster. */
  lemma RosterRobot(w: World, act: Act, robot: string)
    requires Messages.Valid(w)
    ensures var t := Do(w, act).roster.robots;
            match Adds(w, act, robot)
            case Some((team, id)) => robot in t && t[robot].team == team && t[robot].id == id
            case None =>
              if robot in w.roster.robots && !Removes(act, robot)
              then robot in t
                   && t[robot].team == w.roster.robots[robot].team && t[robot].id == w.roster.robots[robot].id
              else robot !in t
  {
    hide Si.Valid, Si.TakeAll, Si.Take, Ro.WithRobot, MessageRoster, FreshIds.NewId, Ro.Ids;
    match act
    case Sent(m, _) => MessageStays(w.roster, m, robot);
    case Asked(AddRobot(name, team), _) => AddingStays(w.roster, name, team, "", robot);
    case Asked(c, _) => if !Removes(act, robot) { CommandStays(w.roster, c, robot); }
    case Configured(name, team, id) => AddingStays(w.roster, name, team, id, robot);
    case Passed(_) =>
  }

  // ----- The theorems

  /** A robot that is added finds its own team under its id unless the id was another team's. */
  lemma AddedToOwnTeam(w: World, act: Act, robot: string)
    requires Messages.Valid(w) && Agree(w) && Adds(w, act, robot).Some?
    ensures robot in Do(w, act).roster.robots
    ensures Do(w, act).roster.robots[robot].id in Do(w, act).sensed.round.robots
    ensures OwnTeam(Do(w, act), robot) <==> !Misdirects(w, act, robot)
  {
    hide Si.Valid, Si.TakeAll, Si.Take, R.Apply, Do, FreshIds.NewId, Ro.Ids;
    var (team, id) := Adds(w, act, robot).value;
    RosterRobot(w, act, robot);
    DoTakes(w, act);
    assert ActInputs(w, act) == [Si.Other(R.AddRobot(id, team))];
    TakeOne(w.sensed, Si.Other(R.AddRobot(id, team)));
    RobotKnown(w.sensed, id, team);
  }

  lemma RobotKnown(s: Si.Sensors, id: string, team: string)
    requires Si.Valid(s) && team in s.round.scores
    ensures var t := Si.Take(s, Si.Other(R.AddRobot(id, team))).round.robots;
            id in t && t[id] == if id in s.round.robots then s.round.robots[id] else team
  {
  }

  /** From then on nothing changes that, until the robot is removed. */
  lemma OwnTeamStays(w: World, act: Act, robot: string)
    requires Messages.Valid(w) && robot in w.roster.robots && w.roster.robots[robot].id in w.sensed.round.robots
    requires !Removes(act, robot)
    ensures var t := Do(w, act);
            && robot in t.roster.robots && t.roster.robots[robot].id in t.sensed.round.robots
            && (OwnTeam(t, robot) <==> OwnTeam(w, robot))
  {
    hide Si.Valid, Si.TakeAll, Do, ActInputs;
    RosterRobot(w, act, robot);
    DoTakes(w, act);
    TakingKeepsKnown(w.sensed, ActInputs(w, act));
  }

  lemma {:induction false} AlwaysAgree(w: World, acts: seq<Act>)
    requires Messages.Valid(w) && Agree(w) && AllPass(acts)
    ensures Agree(DoAll(w, acts))
  {
    hide Messages.Valid, Do, Agree, Passes;
    if acts != [] {
      AlwaysAgree(w, acts[..|acts| - 1]);
      AgreeStays(DoAll(w, acts[..|acts| - 1]), acts[|acts| - 1]);
    }
  }

  /**
   Over every run: a robot that was added by act k and not removed since has its messages
   count for its own team if and only if act k did not give it the id of a robot, of the
   roster or no longer, of another team.
   */
  lemma {:induction false} CountsForOwnTeam(w: World, acts: seq<Act>, k: nat, robot: string)
    requires Messages.Valid(w) && Agree(w) && AllPass(acts)
    requires k < |acts| && Adds(DoAll(w, acts[..k]), acts[k], robot).Some?
    requires forall n | k < n < |acts| :: !Removes(acts[n], robot)
    ensures var t := DoAll(w, acts);
            && robot in t.roster.robots && t.roster.robots[robot].id in t.sensed.round.robots
            && (OwnTeam(t, robot) <==> !Misdirects(DoAll(w, acts[..k]), acts[k], robot))
  {
    hide Messages.Valid, Do, Agree, Passes, Adds, Misdirects, OwnTeam, Removes;
    var n := |acts| - 1;
    if k == n {
      AlwaysAgree(w, acts[..n]);
      AddedToOwnTeam(DoAll(w, acts[..n]), acts[n], robot);
    } else {
      assert acts[..n][..k] == acts[..k];
      CountsForOwnTeam(w, acts[..n], k, robot);
      OwnTeamStays(DoAll(w, acts[..n]), acts[n], robot);
    }
  }

  /**
   How it happens: generated ids are fresh among the robots of the roster only, so the id of a
   removed robot can be generated again, and then counts for the team of the removed one.
   */
  lemma RemovedIdIsReused(w: World, gone: string, latest: string, team: string, clock: int)
    requires Messages.Valid(w) && Agree(w)
    requires gone in w.roster.robots && OwnTeam(w, gone) && w.roster.robots[gone].team != team
    requires latest !in w.roster.robots && team in w.roster.teams
    requires FreshIds.NewId(Ro.Ids(w.roster.(robots := w.roster.robots - {gone}))) == w.roster.robots[gone].id
    ensures var removed := Do(w, Asked(RemoveRobot(gone), clock));
            var t := Do(removed, Asked(AddRobot(latest, team), clock));
            latest in t.roster.robots && t.roster.robots[latest].id == w.roster.robots[gone].id && !OwnTeam(t, latest)
  {
    hide Si.Valid, Si.TakeAll, FreshIds.NewId, Ro.Ids, Agree;
    var act := Asked(RemoveRobot(gone), clock);
    var removed := Do(w, act);
    TakeNothing(w.sensed);
    AgreeStays(w, act);
    RosterRobot(removed, Asked(AddRobot(latest, team), clock), latest);
    AddedToOwnTeam(removed, Asked(AddRobot(latest, team), clock), latest);
  }

  // ----- Servers

  function AskedOrNothing(c: Option<Command>, clock: int): seq<Act> {
    if c.Some? then [Asked(c.value, clock)] else []
  }

  function ProcessedActs(s: Serving.State, tic: int, r: Serving.Reading): seq<Act>
    requires Serving.ValidState(s)
  {
    match Serving.Takes(s, tic, r)
    case Some(taken) => [Sent(taken.message, r.clock)]
    case None => []
  }

  function TickActs(s: Serving.State, tic: int, r: Serving.Reading): seq<Act>
    requires Serving.ValidState(s)
  {
    if Turns.Due(s.previousTic, tic, r.now) then
      AskedOrNothing(r.late, r.clock)
      + if Serving.FeedAgent(Serving.Received(s, r).world, r.late, r.clock).sensed.round.running
        then [Passed(R.Step)] else []
    else ProcessedActs(s, tic, r)
  }

  function TurnActs(s: Serving.State, tic: int, r: Serving.Reading): seq<Act>
    requires Serving.ValidState(s)
  {
    AskedOrNothing(r.early, r.asked) + [Passed(R.SetTime(r.now))] + TickActs(s, tic, r)
  }

  function ServedActs(s: Serving.State, tic: int, readings: seq<Serving.Reading>): seq<Act>
    requires Serving.ValidState(s)
  {
    if readings == [] then []
    else
      var most, last := readings[..|readings| - 1], readings[|readings| - 1];
      ServedActs(s, tic, most) + TurnActs(Serving.Served(s, tic, most), tic, last)
  }

  lemma DoMore(w: World, acts: seq<Act>, act: Act)
    requires Messages.Valid(w)
    ensures DoAll(w, acts + [act]) == Do(DoAll(w, acts), act) && DoAll(w, []) == w && DoAll(w, [act]) == Do(w, act)
  {
    hide Messages.Valid, Do;
    assert (acts + [act])[..|acts|] == acts;
    assert [act][..0] == [];
  }

  lemma {:induction false} DoJoined(w: World, a: seq<Act>, b: seq<Act>)
    requires Messages.Valid(w)
    ensures DoAll(w, a + b) == DoAll(DoAll(w, a), b)
  {
    hide Messages.Valid, Do;
    if b == [] {
      assert a + b == a;
    } else {
      var n := |b| - 1;
      assert a + b == a + b[..n] + [b[n]];
      DoMore(w, a + b[..n], b[n]);
      DoJoined(w, a, b[..n]);
    }
  }

  lemma FeedIsDone(w: World, c: Option<Command>, clock: int)
    requires Messages.Valid(w)
    ensures Serving.FeedAgent(w, c, clock) == DoAll(w, AskedOrNothing(c, clock))
  {
    hide Messages.Valid, Obey;
    if c.Some? {
      DoMore(w, [], Asked(c.value, clock));
    }
  }

  lemma TurnIsDone(s: Serving.State, tic: int, r: Serving.Reading)
    requires Serving.ValidState(s)
    ensures Serving.AfterTurn(s, tic, r).world == DoAll(s.world, TurnActs(s, tic, r))
  {
    hide Messages.Valid, Serving.FeedAgent, Handle, Si.Take, DoAll, AskedOrNothing, TickActs, R.WellFormed;
    var early := AskedOrNothing(r.early, r.asked);
    FeedIsDone(s.world, r.early, r.asked);
    DoMore(s.world, early, Passed(R.SetTime(r.now)));
    DoJoined(s.world, early + [Passed(R.SetTime(r.now))], TickActs(s, tic, r));
    TickIsDone(s, tic, r);
  }

  lemma TickIsDone(s: Serving.State, tic: int, r: Serving.Reading)
    requires Serving.ValidState(s)
    ensures Serving.AfterTurn(s, tic, r).world == DoAll(Serving.Received(s, r).world, TickActs(s, tic, r))
  {
    hide Messages.Valid, Serving.FeedAgent, Handle, Si.Take, DoAll, AskedOrNothing, Serving.Received, R.WellFormed;
    var w := Serving.Received(s, r).world;
    var late := AskedOrNothing(r.late, r.clock);
    FeedIsDone(w, r.late, r.clock);
    DoMore(w, late, Passed(R.Step));
    assert late + [] == late;
    if Serving.Takes(s, tic, r).Some? {
      DoMore(w, [], Sent(Serving.Takes(s, tic, r).value.message, r.clock));
    }
  }

  lemma TurnPasses(s: Serving.State, tic: int, r: Serving.Reading)
    requires Serving.ValidState(s)
    ensures AllPass(TurnActs(s, tic, r))
  {
    hide Messages.Valid, Serving.Received, Serving.FeedAgent, Serving.Takes, R.WellFormed;
  }

  /** A run of the server is a run of acts, none of which sets the round's contents by itself. */
  lemma {:induction false} ServedIsDone(s: Serving.State, tic: int, readings: seq<Serving.Reading>)
    requires Serving.ValidState(s)
    ensures Serving.Served(s, tic, readings).world == DoAll(s.world, ServedActs(s, tic, readings))
    ensures AllPass(ServedActs(s, tic, readings))
  {
    hide Messages.Valid, Do, DoAll, TurnActs, Passes, Serving.AfterTurn, R.WellFormed;
    DoMore(s.world, [], Passed(R.Step));
    if readings != [] {
      var most, last := readings[..|readings| - 1], readings[|readings| - 1];
      ServedIsDone(s, tic, most);
      TurnIsDone(Serving.Served(s, tic, most), tic, last);
      TurnPasses(Serving.Served(s, tic, most), tic, last);
      DoJoined(s.world, ServedActs(s, tic, most), TurnActs(Serving.Served(s, tic, most), tic, last));
    }
  }

  /** So it is for every robot an agent adds to a running server. */
  lemma ServedCountsForOwnTeam(s: Serving.State, tic: int, readings: seq<Serving.Reading>, k: nat, robot: string)
    requires Serving.ValidState(s) && Agree(s.world)
    requires k < |ServedActs(s, tic, readings)|
    requires Adds(DoAll(s.world, ServedActs(s, tic, readings)[..k]), ServedActs(s, tic, readings)[k], robot).Some?
    requires forall n | k < n < |ServedActs(s, tic, readings)| :: !Removes(ServedActs(s, tic, readings)[n], robot)
    ensures var acts := ServedActs(s, tic, readings);
            var t := Serving.Served(s, tic, readings).world;
            && robot in t.roster.robots
            && (OwnTeam(t, robot) <==> !Misdirects(DoAll(s.world, acts[..k]), acts[k], robot))
  {
    hide Serving.Served, ServedActs, DoAll, Adds, Removes, Misdirects, Passes, Agree;
    ServedIsDone(s, tic, readings);
    CountsForOwnTeam(s.world, ServedActs(s, tic, readings), k, robot);
  }
}
