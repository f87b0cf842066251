/** The callbacks that act on the game when a message arrives. */
module Callbacks {
  import opened Options
  import opened Objects
  import opened Game
  import R = Round
  import Ro = Roster
  import D = Detector
  import Si = Sightings

  // ----- Register

  /** The reply carries an empty id when no robot is left; the lookup of a removed robot throws. */
  datatype Registered = Registered(robotId: string, team: string) | Thrown

  class ProcessRegister {
    const game: Game

    constructor (game: Game)
      ensures this.game == game
    {
      this.game := game;
    }

    method Execute(temporaryId: string) returns (reply: Registered)
      requires game.ValidRoster()
      modifies game`registeredRobots, game`roster, game.robots.Values
      ensures game.ValidRoster() && game.roster == Ro.WithRegistration(old(game.roster), temporaryId)
      ensures game.robots == old(game.robots)
      ensures match Ro.RobotWithoutRealRobot(old(game.roster), temporaryId)
              case Registered(name) =>
                reply == Registered(old(game.roster).robots[name].id, old(game.roster).robots[name].team)
              case Refused => reply == Registered("", "")
              case Missing => reply == Thrown
    {
      hide Game.ValidRoster, Ro.RobotWithoutRealRobot, Places;
      var robot, thrown := game.GetRobotWithoutRealRobot(temporaryId);
      if thrown {
        return Thrown;
      }
      reply := Registered("", "");
      if robot != null {
        InValues(game.robots, robot.name);
        game.RobotStatus(robot.name);
        game.NoteRealRobot(robot);
        reply := Registered(robot.robotId, robot.team.name);
      }
    }
  }

  // ----- Hello

  datatype Greeting = Welcome(robot: string, team: string, id: string) | Goodbye

  class ProcessHello {
    const game: Game

    constructor (game: Game)
      ensures this.game == game
    {
      this.game := game;
    }

    /** Every robot is welcomed into the same team, whatever its own. */
    method Execute(name: string, ready: bool, now: int) returns (reply: Greeting)
      requires game.ValidRound() && game.ValidRoster()
      modifies game`players, game`roster, game.players.Values, game.robots.Values
      modifies game`isRunning, game`winner, game`time, game`startTime, game`round
      modifies game.registry.all, game.teams.Values
      ensures game.ValidRound() && game.ValidRoster()
      ensures game.roster == Ro.AfterHello(old(game.roster), name)
      ensures game.round == if Ro.HelloStarts(old(game.roster), name, ready)
                            then R.StartRound(old(game.round), true, now) else old(game.round)
      ensures reply == match Ro.Welcomed(old(game.roster), name)
                       case Some(robot) => Welcome(robot, "team_red", old(game.roster).robots[robot].id)
                       case None => Goodbye
    {
      hide Game.ValidRound, Game.ValidRoster, R.StartRound, R.WellFormed, Ro.AfterHello, Ro.Welcomed, Ro.HelloStarts,
           Ro.AvailableRobot, Places;
      StartsWhen(game.roster, name, ready);
      var robot := Greet(name);
      reply := Goodbye;
      if robot != null {
        reply := Welcome(robot.name, "team_red", robot.robotId);
        if ready {
          StartIfNobodyWaits(now);
        }
      }
    }

    method StartIfNobodyWaits(now: int)
      requires game.ValidRound() && game.ValidRoster()
      modifies game`isRunning, game`winner, game`time, game`startTime, game`round
      modifies game.registry.all, game.teams.Values
      ensures game.ValidRound() && game.ValidRoster()
      ensures game.round == if Ro.AvailableRobot(game.roster) == None
                            then R.StartRound(old(game.round), true, now) else old(game.round)
    {
      hide Game.ValidRound, Game.ValidRoster, R.StartRound, R.WellFormed, Ro.AvailableRobot, Places;
      var next := game.GetAvailableRobot();
      if next == null {
        game.Start(true, now);
      }
    }

    /** The part before the reply: the player is added and tied to its robot. */
    method Greet(name: string) returns (robot: Robot?)
      requires game.ValidRoster()
      modifies game`players, game`roster, game.players.Values, game.robots.Values
      ensures game.ValidRoster() && game.roster == Ro.AfterHello(old(game.roster), name)
      ensures robot == null <==> Ro.Welcomed(old(game.roster), name) == None
      ensures robot != null ==> Ro.Welcomed(old(game.roster), name) == Some(robot.name)
                                && robot.robotId == old(game.roster).robots[robot.name].id
    {
      hide Game.ValidRoster, Ro.RobotForPlayer, Ro.WithPlayer, Places;
      var added := game.AddPlayer(name);
      robot := game.GetRobotForPlayer(name);
      if robot != null {
        InValues(game.robots, robot.name);
        game.HoldsItsOwn(name);
        game.RobotStatus(robot.name);
        var player := game.players[name];
        game.Link(player, robot);
      }
    }
  }

  lemma StartsWhen(s: Ro.State, name: string, ready: bool)
    ensures Ro.HelloStarts(s, name, ready) <==>
              Ro.Welcomed(s, name) != None && ready && Ro.AvailableRobot(Ro.AfterHello(s, name)) == None
  {
  }

  // ----- Robot state

  ghost function Indices(items: set<Item>): set<nat> {
    set i | i in items :: i.index
  }

  lemma OneMoreIndex(items: set<Item>, item: Item)
    ensures Indices(items + {item}) == Indices(items) + {item.index}
  {
  }

  class ProcessRobotState {
    const game: Game

    constructor (game: Game)
      ensures this.game == game
    {
      this.game := game;
    }

    ghost predicate Valid()
      reads game, game.registry, game.registry.all, game.teams.Values, game.contacts.Values, game.detectors.Values
      ensures Valid() ==> Si.Valid(game.Sensed())
    {
      hide Game.ValidRound, Game.ValidDetectors, Si.Valid, Places;
      if game.ValidRound() && game.ValidDetectors() then
        game.SensedIsValid();
        true
      else false
    }

    /** A player state message is published for every visited item, or one without an item. */
    method Execute(rid: string, rfids: seq<Si.RfidReading>, colours: seq<int>) returns (visited: set<Item>)
      requires Valid()
      modifies game`contacts, game`round, game`sensors, game.registry.all, game.detectors.Values
      ensures Valid()
      ensures game.Sensed() == Si.RobotState(old(game.Sensed()), rid, rfids, colours)
      ensures Indices(visited) == Si.Visited(old(game.Sensed()), rid, rfids, colours)
    {
      hide Valid, Si.Valid, Game.ValidRound, Game.ValidDetectors, Places;
      KnownRobot(rid);
      visited := {};
      if rid !in game.robotsById {
        return;
      }
      visited := LookForRfid(rid, rfids, visited);
      visited := LookForColour(rid, colours, visited);
    }

    lemma KnownRobot(rid: string)
      requires Valid()
      ensures rid in game.robotsById <==> rid in game.round.robots
    {
    }

    method LookForRfid(rid: string, rfids: seq<Si.RfidReading>, visited: set<Item>) returns (r: set<Item>)
      requires Valid() && rid in game.robotsById
      modifies game`contacts, game`round, game.registry.all
      ensures Valid() && game.Sensed() == Si.SeeRfids(old(game.Sensed()), rid, rfids)
      ensures Indices(r) == Indices(visited) + Si.RfidItems(old(game.Sensed()), rfids)
    {
      hide Valid, Si.Valid, Si.SeeRfid, Indices, Places;
      r := visited;
      assert rfids[..0] == [];
      for n := 0 to |rfids|
        invariant Valid() && game.Sensed() == Si.SeeRfids(old(game.Sensed()), rid, rfids[..n])
        invariant Indices(r) == Indices(visited) + Si.RfidItems(old(game.Sensed()), rfids[..n])
      {
        assert rfids[..n + 1][..n] == rfids[..n];
        var item := LookForOneRfid(rid, rfids[n]);
        if item != null {
          OneMoreIndex(r, item);
          r := r + {item};
        }
      }
      assert rfids[..|rfids|] == rfids;
    }

    method LookForOneRfid(rid: string, reading: Si.RfidReading) returns (item: Item?)
      requires Valid() && rid in game.robotsById
      modifies game`contacts, game`round, game.registry.all
      ensures Valid() && game.Sensed() == Si.SeeRfid(old(game.Sensed()), rid, reading)
      ensures item == null <==> reading.rfid !in old(game.Sensed()).byRfid
      ensures item != null ==> item.index == old(game.Sensed()).byRfid[reading.rfid]
    {
      hide Valid, Si.Valid, Si.SeeRfid, Game.ValidRound, Game.ValidDetectors, R.WellFormed, R.Contact, R.Drop,
           ItemRegistry.Valid;
      ValidParts();
      game.RegistryFact();
      Si.RfidSeen(game.Sensed(), rid, reading);
      item := game.registry.GetItemByRfid(reading.rfid);
      if item != null {
        ActOnRfid(rid, item, reading.on);
      }
      ValidWhole();
    }

    method ActOnRfid(rid: string, item: Item, on: bool)
      requires game.ValidRound() && game.ValidDetectors()
      requires rid in game.robotsById && item in game.registry.all
      modifies game`contacts, game`round, game.registry.all
      ensures game.ValidRound() && game.ValidDetectors()
      ensures rid in old(game.round).robots && item.index < |old(game.round).items|
      ensures game.round == if on then R.Contact(old(game.round), rid, item.index) else R.Drop(old(game.round), rid)
    {
      hide Game.ValidRound, Game.ValidDetectors, R.WellFormed, R.Contact, R.Drop, ItemRegistry.Valid, Places;
      game.RegistryFact();
      if on {
        game.RobotIsInContactWith(rid, item);
      } else {
        game.RobotDropsContactWith(rid, item);
      }
    }

    lemma SensedConsistent(rid: string)
      requires game.ValidDetectors() && rid in game.detectors
      ensures rid in game.sensors && D.Consistent(game.sensors[rid])
    {
    }

    lemma ValidParts()
      requires Valid()
      ensures game.ValidRound() && game.ValidDetectors()
    {
    }

    lemma ValidWhole()
      requires game.ValidRound() && game.ValidDetectors()
      ensures Valid()
    {
    }

    method LookForColour(rid: string, colours: seq<int>, visited: set<Item>) returns (r: set<Item>)
      requires Valid() && rid in game.robotsById
      modifies game`contacts, game`round, game`sensors, game.registry.all, game.detectors.Values
      ensures Valid() && game.Sensed() == Si.SeeColours(old(game.Sensed()), rid, colours)
      ensures Indices(r) == Indices(visited) + Si.ColourItems(old(game.Sensed()), rid, colours)
    {
      hide Valid, Si.Valid, Si.SeeColour, Indices, Places;
      KnownDetector(rid);
      r := visited;
      assert colours[..0] == [];
      for n := 0 to |colours|
        invariant Valid() && game.Sensed() == Si.SeeColours(old(game.Sensed()), rid, colours[..n])
        invariant Indices(r) == Indices(visited) + Si.ColourItems(old(game.Sensed()), rid, colours[..n])
      {
        assert colours[..n + 1][..n] == colours[..n];
        var item := LookForOneColour(rid, colours[n]);
        if item != null {
          OneMoreIndex(r, item);
          r := r + {item};
        }
      }
      assert colours[..|colours|] == colours;
    }

    lemma KnownDetector(rid: string)
      requires Valid() && rid in game.robotsById
      ensures rid in game.Sensed().detectors
    {
    }

    method LookForOneColour(rid: string, colour: int) returns (item: Item?)
      requires Valid() && rid in game.robotsById
      modifies game`contacts, game`round, game`sensors, game.registry.all, game.detectors.Values
      ensures Valid() && game.Sensed() == Si.SeeColour(old(game.Sensed()), rid, colour)
      ensures rid in old(game.Sensed()).detectors
      ensures var found := D.Read(old(game.Sensed()).detectors[rid], colour, old(game.Sensed()).byColour).newItem;
              found == if item == null then None else Some(item.index)
    {
      hide Valid, Si.Valid, Si.SeeColour, Si.Tell, Game.ValidRound, Game.ValidDetectors, D.Read, R.WellFormed, Places;
      ValidParts();
      game.DetectorKeys();
      Si.ColourSeen(game.Sensed(), rid, colour);
      item := ReadColour(rid, colour);
      ValidWhole();
    }

    method ReadColour(rid: string, colour: int) returns (item: Item?)
      requires game.ValidRound() && game.ValidDetectors() && rid in game.robotsById
      modifies game`contacts, game`round, game`sensors, game.registry.all, game.detectors.Values
      ensures game.ValidRound() && game.ValidDetectors() && rid in old(game.sensors)
      ensures var o := D.Read(old(game.sensors)[rid], colour, Places(game.registry.byColour));
              && o.newItem == (if item == null then None else Some(item.index))
              && game.sensors == old(game.sensors)[rid := o.state]
              && game.round == Si.Tell(old(game.round), rid, o.report)
    {
      hide Si.Valid, Si.Tell, Game.ValidRound, DetectorsFit, DetectorFits, D.Read, R.WellFormed, Places;
      game.RegistryFact();
      game.DetectorKeys();
      SensedConsistent(rid);
      D.ReadChanges(game.sensors[rid], colour, Places(game.registry.byColour));
      DetectorAlone(game.detectors, game, game.robotsById, game.registry.all, game.sensors, rid);
      var detector := game.detectors[rid];
      item := detector.SetColour(colour);
      DetectorsFitAgain(game.detectors, game, game.robotsById, game.registry.all, game.sensors, rid);
      game.sensors := game.sensors[rid := detector.View()];
    }
  }
}
