/**
 The game: the maps it owns and the operations on them, each proved to perform one step
 of the Round machine on the value its objects stand for.
 */
module Game {
  import opened Options
  import opened Objects
  import Text
  import R = Round
  import Ro = Roster
  import FreshIds
  import ItemIndex
  import Matching
  import D = Detector
  import Si = Sightings

  class Game {
    const rules: R.Rules
    const registry: ItemRegistry
    var isRunning: bool
    var time: int
    var startTime: int
    var duration: int
    var winner: Option<string>
    var teams: map<string, Team>
    var robotsById: map<string, Robot>
    var contacts: map<string, Contact>
    /** The round as a value; ValidRound ties it to the fields and the objects. */
    ghost var round: R.State

    var robots: map<string, Robot>
    var players: map<string, Player>
    var registeredRobots: map<string, string>
    /** The roster as a value, tied to the objects by ValidRoster. */
    ghost var roster: Ro.State

    var detectors: map<string, FlagDetector>
    ghost var sensors: map<string, D.DetectorState>

    constructor (rules: R.Rules, registry: ItemRegistry, duration: int, now: int)
      requires registry.Valid()
      requires forall i | i in registry.all :: i.points == rules.points && i.View() == R.FRESH_ITEM
      ensures this.rules == rules && this.registry == registry
      ensures ValidRound() && round == R.NewGame(rules, duration, |registry.all|, now)
      ensures ValidRoster() && roster == Ro.EMPTY
      ensures ValidDetectors() && sensors == map[]
    {
      this.rules, this.registry, this.duration := rules, registry, duration;
      isRunning, time, startTime, winner := false, now, now, None;
      teams, robotsById, contacts := map[], map[], map[];
      round := R.NewGame(rules, duration, |registry.all|, now);
      robots, players, registeredRobots := map[], map[], map[];
      roster := Ro.EMPTY;
      detectors, sensors := map[], map[];
    }

    // ----- The round

    ghost predicate ScalarsMatch()
      reads `isRunning, `time, `startTime, `duration, `winner, `round
    {
      && round.rules == rules && round.running == isRunning && round.time == time
      && round.startTime == startTime && round.duration == duration && round.winner == winner
    }

    ghost predicate ValidRound()
      reads `isRunning, `time, `startTime, `duration, `winner, `round, `teams, `robotsById, `contacts
      reads registry, registry.all, teams.Values, contacts.Values
      ensures ValidRound() ==> R.WellFormed(round)
    {
      && R.WellFormed(round)
      && ScalarsMatch()
      && registry.Valid()
      && TeamsFit(teams, round.scores)
      && ItemsFit(registry.all, rules.points, round.items)
      && RobotsFit(robotsById, round.robots, teams)
      && ContactsFit(contacts, robotsById, registry.all, round.contacts)
    }

    ghost function Footprint(): set<object>
      reads this, registry
    {
      FootprintOf(contacts, teams, registry.all)
    }

    method SetTime(now: int)
      requires ValidRound()
      modifies `time, `round
      ensures ValidRound() && round == R.Apply(old(round), R.SetTime(now))
    {
      hide TeamsFit, ItemsFit, RobotsFit, ContactsFit, R.WellFormed;
      time := now;
      round := R.Apply(round, R.SetTime(now));
    }

    method GetSecondsLeft() returns (seconds: nat)
      requires ValidRound()
      ensures seconds == R.SecondsLeft(round)
    {
      if isRunning {
        var elapsed := time - startTime;
        seconds := (R.TotalSeconds(duration) - R.TotalSeconds(elapsed)) % R.U64;
      } else {
        seconds := R.TotalSeconds(duration) % R.U64;
      }
    }

    method SetDuration(duration: int)
      requires ValidRound()
      modifies `duration, `round
      ensures ValidRound() && round == R.Apply(old(round), R.SetDuration(duration))
    {
      hide TeamsFit, ItemsFit, RobotsFit, ContactsFit, R.WellFormed;
      this.duration := duration;
      round := R.Apply(round, R.SetDuration(duration));
    }

    method AddTeam(name: string) returns (added: bool)
      requires ValidRound() && ValidRoster()
      modifies `teams, `round, `roster
      ensures ValidRound() && round == R.Apply(old(round), R.AddTeam(name))
      ensures ValidRoster() && roster == Ro.Apply(old(roster), Ro.AddTeam(name))
      ensures added <==> name !in old(teams)
      ensures !added ==> teams == old(teams)
      ensures added ==> name in teams && fresh(teams[name]) && teams == old(teams)[name := teams[name]]
    {
      hide ValidRound, PlayersFit, RobotObjectsFit, Matching.Matched;
      Matching.ApplyKeeps(roster, Ro.AddTeam(name));
      TeamsFact();
      added := false;
      if name !in teams {
        InsertTeam(name);
        added := true;
      }
      roster := Ro.Apply(roster, Ro.AddTeam(name));
    }

    method InsertTeam(name: string)
      requires ValidRound() && name !in teams
      modifies `teams, `round
      ensures ValidRound() && round == R.Apply(old(round), R.AddTeam(name))
      ensures name in teams && fresh(teams[name]) && teams == old(teams)[name := teams[name]]
    {
      hide TeamsFit, ItemsFit, RobotsFit, ContactsFit, ItemRegistry.Valid, R.WellFormed;
      TeamsFact();
      var team := new Team(name);
      OneMoreTeam(teams, round.scores, robotsById, round.robots, team);
      teams := teams[name := team];
      round := R.Apply(round, R.AddTeam(name));
    }

    /** The agent's edit of a team's score; the neutral team, with no name, is not edited. */
    method SetTeamScore(name: string, score: nat)
      requires ValidRound()
      modifies `round, teams.Values
      ensures ValidRound() && round == R.Apply(old(round), R.SetScore(name, score))
    {
      hide ItemsFit, ContactsFit, RobotsFit, ItemRegistry.Valid;
      TeamsFact();
      if name in teams && name != "" && score < R.U32 {
        InValues(teams, name);
        teams[name].SetScore(score);
        round := R.Apply(round, R.SetScore(name, score));
      }
    }

    /** The items are created after the game, in the order of the configuration. */
    method CreateItem(kind: string, name: string, rfids: set<string>, colour: int) returns (item: Item?)
      requires ValidRound() && ValidDetectors()
      modifies registry, `round
      ensures ValidRound() && ValidDetectors()
      ensures round == if item == null then old(round) else R.WithItem(old(round))
      ensures var request := ItemIndex.Request(kind, rfids, colour);
              && registry.Keys() == ItemIndex.Create(old(registry.Keys()), request)
              && (item != null <==> ItemIndex.Accepted(old(registry.Keys()), request))
    {
      hide TeamsFit, ItemsFit, RobotsFit, ContactsFit, ItemRegistry.Valid, DetectorsFit, R.WellFormed,
           ItemIndex.Create, ItemIndex.Accepted;
      RegistryFact();
      ghost var all := registry.all;
      item := registry.CreateItem(kind, name, rfids, colour, rules.points);
      if item != null {
        OneMoreItem(all, rules.points, round.items, item, contacts, robotsById, round.contacts);
        MoreItemsFit(detectors, this, robotsById, all, item, sensors);
        round := R.WithItem(round);
      }
    }

    /** contacts.erase: the contact is destroyed with its map entry. */
    method EraseContact(rid: string)
      requires ValidRound()
      modifies `contacts, `round, registry.all
      ensures ValidRound() && round == R.Drop(old(round), rid)
      ensures contacts == old(contacts) - {rid}
    {
      hide TeamsFit, ItemsFit, RobotsFit, ContactsFit, R.WellFormed;
      ContactKeys(contacts, robotsById, registry.all, round.contacts);
      if rid in contacts {
        ContactFact(contacts, robotsById, registry.all, round.contacts, rid);
        DestroyContact(contacts[rid], registry.all, rules.points, round.items);
        ContactsFitWithout(contacts, robotsById, registry.all, round.contacts, rid);
        contacts := contacts - {rid};
        round := R.Drop(round, rid);
      } else {
        NotThere(contacts, rid);
      }
    }

    /** The new contact starts before the one it replaces is destroyed. */
    method RobotIsInContactWith(rid: string, item: Item)
      requires ValidRound() && rid in robotsById && item in registry.all
      modifies `contacts, `round, registry.all
      ensures ValidRound()
      ensures rid in old(round).robots && item.index < |old(round).items|
      ensures round == R.Contact(old(round), rid, item.index)
    {
      hide TeamsFit, ItemsFit, RobotsFit, ContactsFit, ContactFits, R.WellFormed, R.Drop;
      RobotFact(rid);
      ItemFact(item);
      ghost var goal := R.Contact(round, rid, item.index);
      var contact := ConstructContact(rid, item);
      EraseContact(rid);
      ContactsFitWith(contacts, robotsById, registry.all, round.contacts, rid, contact, goal.contacts[rid]);
      contacts := contacts[rid := contact];
      round := goal;
    }

    method ConstructContact(rid: string, item: Item) returns (contact: Contact)
      requires ValidRound() && rid in robotsById && item in registry.all
      modifies `round, item
      ensures ValidRound() && fresh(contact)
      ensures rid in old(round).robots && item.index < |old(round).items|
      ensures round == Started(old(round), rid, item.index)
      ensures ContactFits(contact, robotsById[rid], registry.all,
                          R.ContactState(round.robots[rid], item.index, time + rules.timeToCapture))
    {
      hide TeamsFit, ItemsFit, RobotsFit, ContactsFit, ContactFits, R.WellFormed;
      RobotFact(rid);
      ItemFact(item);
      contact := NewContact(time, rules.timeToCapture, robotsById[rid], item,
                            registry.all, rules.points, round.items);
      round := Started(round, rid, item.index);
    }

    lemma RobotFact(rid: string)
      requires ValidRound() && rid in robotsById
      ensures rid in round.robots && robotsById[rid].team.name == round.robots[rid]
    {
    }

    lemma RegistryFact()
      requires ValidRound()
      ensures registry.Valid() && forall i | i in registry.all :: i.index < |round.items|
      ensures round.robots.Keys == robotsById.Keys
    {
    }

    lemma KeysFact()
      requires ValidRound()
      ensures round.contacts.Keys == contacts.Keys
    {
    }

    lemma TeamsFact()
      requires ValidRound()
      ensures round.scores.Keys == teams.Keys && round.rules == rules
      ensures forall t | t in teams :: teams[t].name == t && teams[t].score == round.scores[t]
    {
    }

    lemma ItemFact(item: Item)
      requires ValidRound() && item in registry.all
      ensures item.index < |round.items| == |registry.all| && registry.all[item.index] == item
    {
    }

    method RobotDropsContactWith(rid: string, item: Item)
      requires ValidRound()
      modifies `contacts, `round, registry.all
      ensures ValidRound() && round == R.Drop(old(round), rid)
    {
      EraseContact(rid);
    }

    /** One turn of the loop over the contacts: step one, and erase it if it has matured. */
    method HandleContact(rid: string) returns (signal: StepSignal)
      requires ValidRound() && rid in contacts
      modifies `contacts, `round, Footprint()
      ensures ValidRound() && round == R.Mature(old(round), rid)
      ensures signal != LOGIC_ERROR
      ensures contacts == old(contacts) || contacts == old(contacts) - {rid}
      ensures Footprint() <= old(Footprint())
    {
      hide TeamsFit, ItemsFit, RobotsFit, ContactsFit, ContactFits, R.WellFormed, R.Mature,
           CapturedItem, CapturedScore, ItemRegistry.Valid, FootprintOf;
      ghost var goal := R.Mature(round, rid);
      ghost var others := contacts - {rid};
      LiveContact(rid);
      InFootprint(rid);
      FootprintShrinks(contacts, teams, registry.all, rid);
      MaturePieces(round, rid);
      signal := StepAndDestroy(contacts[rid], time, registry.all, teams, rules.points, round.items, round.scores,
                               others, robotsById, round.contacts - {rid});
      if signal == SILENCEIKILLU {
        contacts := contacts - {rid};
        round := goal;
      } else {
        StillFits(contacts[rid], robotsById[rid], registry.all, round.contacts[rid]);
        ContactsFitAgain(contacts, robotsById, registry.all, round.contacts, rid);
      }
    }

    lemma InFootprint(rid: string)
      requires ValidRound() && rid in contacts
      ensures contacts[rid] in Footprint() && contacts[rid].item in Footprint()
      ensures contacts[rid].robot.team in Footprint()
    {
      LiveContact(rid);
      InValues(contacts, rid);
    }

    /** Everything a turn of the loop needs to know of the contact. */
    lemma LiveContact(rid: string)
      requires ValidRound() && rid in contacts
      ensures rid in round.contacts && rid in robotsById && !contacts[rid].finished
      ensures Fits(contacts[rid], robotsById[rid], registry.all, round.contacts[rid])
      ensures contacts[rid].item in registry.all && contacts[rid] !in (contacts - {rid}).Values
      ensures var team := contacts[rid].robot.team;
              team.name in teams && teams[team.name] == team && team in teams.Values
      ensures ContactsFit(contacts - {rid}, robotsById, registry.all, round.contacts - {rid})
    {
      ContactFact(contacts, robotsById, registry.all, round.contacts, rid);
      ContactAlone(contacts, robotsById, registry.all, round.contacts, round.robots, teams, rid);
      ContactsFitWithout(contacts, robotsById, registry.all, round.contacts, rid);
      InValues(teams, contacts[rid].robot.team.name);
    }

    /** The iteration visits each robot id once, in order; erasing does not disturb it. */
    method HandleContacts()
      requires ValidRound()
      modifies `contacts, `round, Footprint()
      ensures ValidRound() && round == R.HandleContacts(old(round))
      ensures Footprint() <= old(Footprint())
    {
      hide FootprintOf, ValidRound, R.Mature, R.MatureAll, R.WellFormed, Text.Increasing;
      KeysFact();
      var keys := Text.SortedKeys(contacts.Keys);
      Text.IncreasingDistinct(keys);
      PassBegins(round, keys);
      for n := 0 to |keys|
        invariant ValidRound() && round == R.MatureAll(old(round), keys[..n])
        invariant Footprint() <= old(Footprint())
        invariant forall k | n <= k < |keys| :: keys[k] in contacts
      {
        PassGoesOn(old(round), keys, n);
        var signal := HandleContact(keys[n]);
      }
      assert keys[..|keys|] == keys;
    }

    method Stop()
      requires ValidRound()
      modifies `isRunning, `round, registry.all
      ensures ValidRound() && round == R.StopRound(old(round))
    {
      hide TeamsFit, ItemsFit, RobotsFit, ContactsFit, R.WellFormed;
      if isRunning {
        isRunning := false;
        round := R.StopRound(round);
        ResetItems(registry, rules.points, old(round).items);
      }
    }

    /** Starting the video of each robot has no effect on the round. */
    method Start(forceStop: bool, startTime: int)
      requires ValidRound()
      modifies `isRunning, `winner, `time, `startTime, `round, registry.all, teams.Values
      ensures ValidRound() && round == R.StartRound(old(round), forceStop, startTime)
    {
      hide ValidRound, R.WellFormed, R.ResetScores, R.StopRound;
      if forceStop {
        ForgetRound();
        Stop();
      }
      if !IsRunning() {
        Begin(startTime);
      }
    }

    predicate IsRunning()
      requires ValidRound()
      reads this, registry, registry.all, teams.Values, contacts.Values
      ensures IsRunning() == round.running
    {
      isRunning
    }

    /** No winner and no points. */
    method ForgetRound()
      requires ValidRound()
      modifies `winner, `round, teams.Values
      ensures ValidRound() && R.WellFormed(old(round).(winner := None))
      ensures round == R.ResetScores(old(round).(winner := None))
    {
      hide TeamsFit, ItemsFit, RobotsFit, ContactsFit, ItemRegistry.Valid, R.WellFormed;
      ForgottenWinner(round);
      winner := None;
      ResetScores(teams, round.scores);
      round := R.ResetScores(round.(winner := None));
    }

    method Begin(startTime: int)
      requires ValidRound()
      modifies `isRunning, `time, `startTime, `round
      ensures ValidRound() && round == old(round).(running := true, startTime := startTime, time := startTime)
    {
      hide TeamsFit, ItemsFit, RobotsFit, ContactsFit, ItemRegistry.Valid;
      this.startTime := startTime;
      time := this.startTime;
      isRunning := true;
      round := round.(running := true, startTime := startTime, time := startTime);
    }

    method StopIfGameIsFinished()
      requires ValidRound()
      modifies `isRunning, `winner, `round, registry.all
      ensures ValidRound() && round == R.StopIfFinished(old(round))
    {
      hide ValidRound, R.WellFormed;
      var secondsLeft := GetSecondsLeft();
      if secondsLeft <= 0 {
        Stop();
      } else {
        var winningTeams := WinningTeams();
        if winningTeams == [] {
          // nobody has won yet
        } else if |winningTeams| == 1 {
          NameWinner(winningTeams[0]);
          Stop();
        } else {
          Stop();
        }
      }
    }

    method NameWinner(team: string)
      requires ValidRound()
      modifies `winner, `round
      ensures ValidRound() && round == old(round).(winner := Some(team))
    {
      hide TeamsFit, ItemsFit, RobotsFit, ContactsFit;
      winner := Some(team);
      round := round.(winner := winner);
    }

    method WinningTeams() returns (winners: seq<string>)
      requires ValidRound()
      ensures winners == Text.SortedKeys(R.Leaders(round)) && Text.Increasing(winners)
      ensures forall t :: t in winners <==> t in round.scores && round.scores[t] >= rules.scoreToWin
    {
      hide ValidRound, Text.Increasing;
      TeamsFact();
      var keys := Text.SortedKeys(teams.Keys);
      winners := [];
      Text.EmptyIncreasing();
      for n := 0 to |keys|
        invariant forall t :: t in winners <==> t in keys[..n] && round.scores[t] >= rules.scoreToWin
        invariant Text.Increasing(winners)
      {
        assert keys[..n + 1] == keys[..n] + [keys[n]];
        if teams[keys[n]].score >= rules.scoreToWin {
          Text.IncreasingExtends(winners, keys, n);
          winners := winners + [teams[keys[n]].name];
        }
      }
      Text.SortedIsUnique(winners, R.Leaders(round));
    }

    method Step()
      requires ValidRound()
      modifies `contacts, `round, `isRunning, `winner, Footprint()
      ensures ValidRound() && round == R.Apply(old(round), R.Step)
    {
      hide FootprintOf, ValidRound, R.WellFormed, R.HandleContacts, R.StopIfFinished;
      HandleContacts();
      ItemsInFootprint(contacts, teams, registry.all);
      StopIfGameIsFinished();
    }

    // ----- The roster

    /** Besides fitting the objects, the roster is always matched one to one. */
    ghost predicate ValidRoster()
      reads `robots, `players, `registeredRobots, `roster, `teams
      reads robots.Values, players.Values, set r | r in robots.Values && r.player != null :: r.player
    {
      && Matching.Matched(roster)
      && roster.registered == registeredRobots
      && roster.teams == teams.Keys
      && PlayersFit(players, roster.players)
      && RobotObjectsFit(robots, roster.robots, players)
    }

    lemma RobotStatus(r: string)
      requires ValidRoster() && r in robots
      ensures r in roster.robots
      ensures robots[r].GetHasPlayer() <==> Ro.HasPlayer(roster, r)
      ensures robots[r].GetIsAvailable() <==> Ro.Available(roster, r)
      ensures robots[r].hasRealRobot <==> !Ro.Unregistered(roster, r)
      ensures robots[r].GetPlayer() != null ==> forall p :: robots[r].GetPlayer().name == p <==> Ro.HeldBy(roster, r, p)
      ensures robots[r].GetPlayer() == null ==> forall p :: !Ro.HeldBy(roster, r, p)
      ensures robots[r].name == r && robots[r].robotId == roster.robots[r].id
      ensures robots[r].serial == roster.robots[r].serial && robots[r].team.name == roster.robots[r].team
    {
      assert RobotObjectFits(robots[r], r, roster.robots[r], players);
    }

    lemma RosterKeys()
      requires ValidRoster()
      ensures roster.robots.Keys == robots.Keys && roster.players.Keys == players.Keys
      ensures roster.teams == teams.Keys && roster.registered == registeredRobots
    {
    }

    /** The first robot in name order that no real robot stands for yet. */
    method FirstUnregisteredRobot() returns (robot: Robot?)
      requires ValidRoster()
      ensures robot == null <==> Text.FirstOf(Ro.UnregisteredRobots(roster)) == None
      ensures robot != null ==> robot.name in robots && robots[robot.name] == robot
                                && Text.FirstOf(Ro.UnregisteredRobots(roster)) == Some(robot.name)
    {
      hide ValidRoster, Ro.Unregistered, Text.Increasing;
      RosterKeys();
      var keys := Text.SortedKeys(robots.Keys);
      var n := 0;
      while n < |keys| && robots[keys[n]].hasRealRobot
        invariant n <= |keys|
        invariant forall m | 0 <= m < n :: !Ro.Unregistered(roster, keys[m])
      {
        RobotStatus(keys[n]);
        n := n + 1;
      }
      robot := null;
      if n < |keys| {
        RobotStatus(keys[n]);
        robot := robots[keys[n]];
        FirstIsUnregistered(roster, keys, n);
      } else {
        NoneIsUnregistered(roster, keys);
      }
    }

    method GetRobotWithoutRealRobot(temporaryId: string) returns (robot: Robot?, thrown: bool)
      requires ValidRoster()
      modifies `registeredRobots, `roster
      ensures ValidRoster()
      ensures match Ro.RobotWithoutRealRobot(old(roster), temporaryId)
              case Registered(name) =>
                && robot != null && !thrown && name in robots && robots[name] == robot && robot.name == name
                && roster == old(roster).(registered := old(roster).registered[temporaryId := name])
              case Refused => robot == null && !thrown && roster == old(roster)
              case Missing => robot == null && thrown && roster == old(roster)
    {
      hide ValidRoster, Ro.UnregisteredRobots, Text.FirstOf;
      RosterKeys();
      robot, thrown := null, false;
      if temporaryId in registeredRobots {
        var name := registeredRobots[temporaryId];
        if name in robots {
          RobotStatus(name);
          robot := robots[name];
          RegisteredAgain(roster.registered, temporaryId);
        } else {
          thrown := true;
        }
      } else {
        robot := FirstUnregisteredRobot();
        if robot != null {
          NoteRegistration(temporaryId, robot.name);
        }
      }
    }

    method NoteRegistration(temporaryId: string, name: string)
      requires ValidRoster()
      modifies `registeredRobots, `roster
      ensures ValidRoster() && roster == old(roster).(registered := old(roster).registered[temporaryId := name])
    {
      hide PlayersFit, RobotObjectsFit;
      registeredRobots := registeredRobots[temporaryId := name];
      roster := roster.(registered := registeredRobots);
    }

    method GetAvailableRobot() returns (robot: Robot?)
      requires ValidRoster()
      ensures robot == null <==> Ro.AvailableRobot(roster) == None
      ensures robot != null ==> robot.name in robots && robots[robot.name] == robot
                                && Ro.AvailableRobot(roster) == Some(robot.name)
    {
      hide ValidRoster, Ro.Available, Text.Increasing;
      RosterKeys();
      var keys := Text.SortedKeys(robots.Keys);
      var n := 0;
      while n < |keys| && !robots[keys[n]].GetIsAvailable()
        invariant n <= |keys|
        invariant forall m | 0 <= m < n :: !Ro.Available(roster, keys[m])
      {
        RobotStatus(keys[n]);
        n := n + 1;
      }
      robot := null;
      if n < |keys| {
        RobotStatus(keys[n]);
        robot := robots[keys[n]];
        FirstIsAvailable(roster, keys, n);
      } else {
        NoneIsAvailable(roster, keys);
      }
    }

    /** The robot that holds the player, the last in order if there were several, or an available one. */
    method GetRobotForPlayer(player: string) returns (robot: Robot?)
      requires ValidRoster()
      ensures robot == null <==> Ro.RobotForPlayer(roster, player) == None
      ensures robot != null ==> robot.name in robots && robots[robot.name] == robot
                                && Ro.RobotForPlayer(roster, player) == Some(robot.name)
    {
      hide ValidRoster, Ro.HeldBy, Text.Increasing, Ro.AvailableRobot;
      RosterKeys();
      var keys := Text.SortedKeys(robots.Keys);
      robot := null;
      ghost var found := -1;
      for n := 0 to |keys|
        invariant -1 <= found < n
        invariant robot == null <==> found == -1
        invariant robot != null ==> robot == robots[keys[found]] && robot.name == keys[found]
                                    && Ro.HeldBy(roster, keys[found], player)
        invariant forall m | found < m < n :: !Ro.HeldBy(roster, keys[m], player)
      {
        RobotStatus(keys[n]);
        var itsPlayer := robots[keys[n]].GetPlayer();
        if itsPlayer != null && itsPlayer.name == player {
          robot := robots[keys[n]];
          found := n;
        }
      }
      LastHolder(roster, keys, found, player);
      if robot == null {
        robot := GetAvailableRobot();
      }
    }

    /** A Hello ties the player and the robot to each other. */
    method Link(player: Player, robot: Robot)
      requires ValidRoster()
      requires player.name in players && players[player.name] == player
      requires robot.name in robots && robots[robot.name] == robot
      requires forall r | Ro.HeldBy(roster, r, player.name) :: r == robot.name
      modifies `roster, player`robot, robot`player
      ensures player.name in old(roster).players && robot.name in old(roster).robots
      ensures ValidRoster() && roster == Ro.Link(old(roster), player.name, robot.name)
    {
      hide PlayersFit, RobotObjectsFit, Matching.Matched, Ro.HeldBy;
      RosterKeys();
      PlayerFact(players, roster.players, player.name);
      RobotStatus(robot.name);
      Matching.LinkKeeps(roster, player.name, robot.name);
      PointToRobot(player, robot, robots, roster.robots, players, roster.players);
      PointToPlayer(robot, player, robots, roster.robots, players);
      roster := Ro.Link(roster, player.name, robot.name);
    }

    method AddPlayer(name: string) returns (added: bool)
      requires ValidRoster()
      modifies `players, `roster
      ensures ValidRoster() && roster == Ro.WithPlayer(old(roster), name)
      ensures added && name in players && players[name].name == name && players[name].alive
      ensures name in old(players) ==> players == old(players)
      ensures name !in old(players) ==> fresh(players[name]) && players == old(players)[name := players[name]]
    {
      hide PlayersFit, RobotObjectsFit, Matching.Matched;
      Matching.WithPlayerKeeps(roster, name);
      Matching.NewSerial(roster);
      RosterKeys();
      added := false;
      if name in players {
        PlayerFact(players, roster.players, name);
        added := true;
      } else {
        var player := new Player(name, roster.next);
        NewPlayerFits(robots, roster.robots, players, roster.players, player);
        players := players[name := player];
        roster := Ro.WithPlayer(roster, name);
        added := true;
      }
    }

    /** Erasing the only owner of a player destroys it. */
    method RemovePlayer(name: string) returns (removed: bool)
      requires ValidRoster()
      modifies `players, `roster, players.Values
      ensures ValidRoster() && roster == Ro.Apply(old(roster), Ro.RemovePlayer(name))
      ensures removed <==> name in old(players)
      ensures players == old(players) - {name}
    {
      hide PlayersFit, RobotObjectsFit, Matching.Matched;
      Matching.ApplyKeeps(roster, Ro.RemovePlayer(name));
      RosterKeys();
      removed := false;
      if name in players {
        InValues(players, name);
        PlayerFact(players, roster.players, name);
        DestroyPlayer(players[name], robots, roster.robots, players, roster.players);
        players := players - {name};
        removed := true;
      } else {
        NotThere(players, name);
        NotThere(roster.players, name);
      }
      roster := Ro.Apply(roster, Ro.RemovePlayer(name));
    }

    /** Only the map by name lets go of the robot. */
    method RemoveRobot(name: string) returns (removed: bool)
      requires ValidRoster()
      modifies `robots, `roster
      ensures ValidRoster() && roster == Ro.Apply(old(roster), Ro.RemoveRobot(name))
      ensures removed <==> name in old(robots)
      ensures robots == old(robots) - {name}
    {
      hide PlayersFit, RobotObjectsFit, Matching.Matched;
      Matching.ApplyKeeps(roster, Ro.RemoveRobot(name));
      RosterKeys();
      removed := false;
      if name in robots {
        RobotObjectsFitWithout(robots, roster.robots, players, name);
        robots := robots - {name};
        removed := true;
      } else {
        NotThere(robots, name);
        NotThere(roster.robots, name);
      }
      roster := Ro.Apply(roster, Ro.RemoveRobot(name));
    }

    /** The part of a registration after the robot has been chosen. */
    method NoteRealRobot(robot: Robot)
      requires ValidRoster() && robot.name in robots && robots[robot.name] == robot
      modifies `roster, robot`hasRealRobot
      ensures robot.name in old(roster).robots
      ensures ValidRoster()
      ensures roster == Ro.Apply(old(roster), Ro.SetRegistered(robot.name, true))
    {
      hide PlayersFit, RobotObjectsFit, Matching.Matched, RobotObjectFits;
      Matching.ApplyKeeps(roster, Ro.SetRegistered(robot.name, true));
      RosterKeys();
      SetHasReal(robot, true, robots, roster.robots, players);
      roster := Ro.Apply(roster, Ro.SetRegistered(robot.name, true));
    }

    lemma HoldsItsOwn(player: string)
      requires ValidRoster() && player in players && Ro.RobotForPlayer(roster, player).Some?
      ensures forall r | Ro.HeldBy(roster, r, player) :: r == Ro.RobotForPlayer(roster, player).value
    {
      hide PlayersFit, RobotObjectsFit, Matching.Matched;
      RosterKeys();
      Matching.HelloLinksRight(roster, player);
    }

    /** The agent's register and unregister commands. */
    method SetRegistered(name: string, hasReal: bool)
      requires ValidRoster()
      modifies `roster, robots.Values
      ensures ValidRoster() && roster == Ro.Apply(old(roster), Ro.SetRegistered(name, hasReal))
    {
      hide PlayersFit, RobotObjectsFit, Matching.Matched, RobotObjectFits;
      Matching.ApplyKeeps(roster, Ro.SetRegistered(name, hasReal));
      RosterKeys();
      if name in robots {
        RobotStatus(name);
        InValues(robots, name);
        SetHasReal(robots[name], hasReal, robots, roster.robots, players);
      }
      roster := Ro.Apply(roster, Ro.SetRegistered(name, hasReal));
    }

    /** Neither map of robots is changed where the key is already there. */
    method AddRobot(name: string, team: string, givenId: string) returns (added: bool)
      requires ValidRound() && ValidRoster() && ValidDetectors()
      requires givenId == "" ==> |robots| < R.U32
      modifies `robots, `robotsById, `detectors, `round, `roster, `sensors
      ensures ValidRound() && ValidRoster() && ValidDetectors()
      ensures added <==> name !in old(robots) && team in teams
      ensures roster == Ro.Apply(old(roster), Ro.AddRobot(name, team, givenId))
      ensures added ==> name in roster.robots
                        && round == R.Apply(old(round), R.AddRobot(roster.robots[name].id, team))
                        && sensors == WithDetector(old(sensors), roster.robots[name].id)
      ensures !added ==> round == old(round) && sensors == old(sensors)
                         && robots == old(robots) && detectors == old(detectors)
      ensures added ==> name in robots && fresh(robots[name]) && robots == old(robots)[name := robots[name]]
      ensures forall d | d in detectors.Values :: d in old(detectors.Values) || fresh(d)
    {
      hide ValidRound, ValidRoster, ValidDetectors, FreshIds.NewId, Ro.Ids, Ro.WithRobot, R.Apply, WithDetector,
           R.WellFormed;
      RosterKeys();
      TeamsFact();
      DetectorKeys();
      added := false;
      if name !in robots {
        var robotId := givenId;
        if robotId == "" {
          robotId := GetNewRobotId();
        }
        if team in teams {
          MakeRobot(name, robotId, team, givenId);
          added := true;
        }
      }
      NothingAdded(roster, name, team, givenId);
    }

    method MakeRobot(name: string, robotId: string, team: string, ghost givenId: string)
      requires ValidRound() && ValidRoster() && ValidDetectors()
      requires name !in robots && team in teams
      requires robotId == if givenId == "" then FreshIds.NewId(Ro.Ids(roster)) else givenId
      modifies `robots, `robotsById, `detectors, `round, `roster, `sensors
      ensures ValidRound() && ValidRoster() && ValidDetectors()
      ensures roster == Ro.WithRobot(old(roster), name, team, givenId)
      ensures name in roster.robots && roster.robots[name].id == robotId
      ensures round == R.Apply(old(round), R.AddRobot(robotId, team))
      ensures sensors == WithDetector(old(sensors), robotId)
      ensures name in robots && fresh(robots[name]) && robots == old(robots)[name := robots[name]]
      ensures forall d | d in detectors.Values :: d in old(detectors.Values) || fresh(d)
    {
      hide ValidRound, ValidRoster, ValidDetectors, FreshIds.NewId, Ro.Ids, Ro.WithRobot, R.Apply, WithDetector,
           R.WellFormed;
      RosterKeys();
      TeamsFact();
      var robot := new Robot(name, robotId, teams[team], roster.next);
      InsertRobot(robot, team, givenId);
      InsertRobotById(robot);
    }

    method InsertRobot(robot: Robot, ghost team: string, ghost givenId: string)
      requires ValidRoster() && robot.name !in robots && robot.serial == roster.next && robot.player == null
      requires team in teams && robot.team.name == team && !robot.hasRealRobot
      requires robot.robotId == if givenId == "" then FreshIds.NewId(Ro.Ids(roster)) else givenId
      modifies `robots, `roster
      ensures ValidRoster() && roster == Ro.WithRobot(old(roster), robot.name, team, givenId)
      ensures robot.name in roster.robots && roster.robots[robot.name].id == robot.robotId
      ensures robots == old(robots)[robot.name := robot]
    {
      hide PlayersFit, RobotObjectsFit, Matching.Matched, FreshIds.NewId, Ro.Ids;
      Matching.WithRobotKeeps(roster, robot.name, team, givenId);
      RosterKeys();
      RobotObjectsFitWith(robots, roster.robots, players, robot);
      robots := robots[robot.name := robot];
      roster := Ro.WithRobot(roster, robot.name, team, givenId);
    }

    method InsertRobotById(robot: Robot)
      requires ValidRound() && ValidDetectors()
      requires robot.team.name in teams && teams[robot.team.name] == robot.team
      modifies `robotsById, `detectors, `round, `sensors
      ensures ValidRound() && ValidDetectors()
      ensures round == R.Apply(old(round), R.AddRobot(robot.robotId, robot.team.name))
      ensures sensors == WithDetector(old(sensors), robot.robotId)
      ensures forall d | d in detectors.Values :: d in old(detectors.Values) || fresh(d)
    {
      hide ValidRound, DetectorsFit, R.WellFormed, R.Apply;
      DetectorKeys();
      TeamsFact();
      if robot.robotId !in robotsById {
        KnowRobotById(robot);
      } else {
        KnownAlready(round, robot.robotId, robot.team.name);
      }
      InsertDetector(robot, old(robotsById));
    }

    /** A detector is made in any case, and kept if the robot has none. */
    method InsertDetector(robot: Robot, ghost known: map<string, Robot>)
      requires DetectorsFit(detectors, this, known, registry.all, sensors)
      requires detectors.Keys == known.Keys == sensors.Keys
      requires robotsById == if robot.robotId in known then known else known[robot.robotId := robot]
      modifies `detectors, `sensors
      ensures ValidDetectors()
      ensures sensors == WithDetector(old(sensors), robot.robotId)
      ensures forall d | d in detectors.Values :: d in old(detectors.Values) || fresh(d)
    {
      hide DetectorsFit;
      var detector := new FlagDetector(this, robot);
      if robot.robotId !in detectors {
        DetectorsFitWith(detectors, this, known, registry.all, sensors, robot, detector);
        detectors := detectors[robot.robotId := detector];
        sensors := sensors[robot.robotId := D.INITIAL];
      }
    }

    method KnowRobotById(robot: Robot)
      requires ValidRound() && robot.robotId !in robotsById
      requires robot.team.name in teams && teams[robot.team.name] == robot.team
      modifies `robotsById, `round
      ensures ValidRound() && robotsById == old(robotsById)[robot.robotId := robot]
      ensures round == R.Apply(old(round), R.AddRobot(robot.robotId, robot.team.name))
    {
      hide TeamsFit, ItemsFit, RobotsFit, ContactsFit, ItemRegistry.Valid, R.WellFormed;
      TeamsFact();
      OneMoreRobot(robotsById, round.robots, teams, contacts, registry.all, round.contacts, robot);
      robotsById := robotsById[robot.robotId := robot];
      round := R.Apply(round, R.AddRobot(robot.robotId, robot.team.name));
    }

    // ----- The detectors

    ghost predicate ValidDetectors()
      reads `detectors, `sensors, `robotsById, registry`all, detectors.Values
    {
      DetectorsFit(detectors, this, robotsById, registry.all, sensors)
    }

    lemma DetectorKeys()
      requires ValidRound() && ValidDetectors()
      ensures sensors.Keys == detectors.Keys == robotsById.Keys == round.robots.Keys
    {
    }

    ghost function Sensed(): Si.Sensors
      reads this, registry
    {
      Si.Sensors(round, sensors, Places(registry.byRfid), Places(registry.byColour))
    }

    lemma SensedIsValid()
      requires ValidRound() && ValidDetectors()
      ensures Si.Valid(Sensed())
    {
    }

    /**
     Candidates are tried in turn against every robot's id. The 32-bit index cannot wrap
     with fewer than 2^32 robots, and by then at most one candidate more than there are
     robots has been tried.
     */
    method GetNewRobotId() returns (id: string)
      requires ValidRoster() && |robots| < R.U32
      ensures id == FreshIds.NewId(Ro.Ids(roster))
      ensures exists k :: 0 <= k <= |robots| && id == FreshIds.IdOf(k)
    {
      hide ValidRoster, FreshIds.IdOf, FreshIds.NewId, Ro.Ids;
      RosterKeys();
      var index := 0;
      var alreadyThere := true;
      id := "";
      ghost var last := 0;
      IdsAreFew(roster, 0);
      while alreadyThere
        invariant alreadyThere ==> 0 <= index <= |robots| && TakenBefore(roster, index)
        invariant !alreadyThere ==> 0 <= last <= |robots| && id == FreshIds.IdOf(last) && id !in Ro.Ids(roster)
                                    && TakenBefore(roster, last)
        decreases alreadyThere, |robots| - index
      {
        last := index;
        id := FreshIds.IdOf(index);
        alreadyThere := IdIsUsed(id);
        index := (index + 1) % R.U32;
        if alreadyThere {
          IdsAreFew(roster, last + 1);
        }
      }
      FreshIds.LeastIsUnique(Ro.Ids(roster), last);
    }

    method IdIsUsed(id: string) returns (used: bool)
      requires ValidRoster()
      ensures used <==> id in Ro.Ids(roster)
    {
      hide ValidRoster, Text.Increasing;
      RosterKeys();
      var keys := Text.SortedKeys(robots.Keys);
      used := false;
      for n := 0 to |keys|
        invariant !used && forall m | 0 <= m < n :: roster.robots[keys[m]].id != id
      {
        RobotStatus(keys[n]);
        if robots[keys[n]].robotId == id {
          used := true;
          return;
        }
      }
      forall r | r in roster.robots ensures roster.robots[r].id != id {
        assert r in keys;
      }
    }
  }

  class FlagDetector {
    const contactHandler: Game
    const robot: Robot
    var colourCode: int
    var state: D.Place
    var lastItem: Item?

    constructor (contactHandler: Game, robot: Robot)
      ensures this.contactHandler == contactHandler && this.robot == robot
      ensures View() == D.INITIAL && lastItem == null
    {
      this.contactHandler, this.robot := contactHandler, robot;
      colourCode, state, lastItem := D.FRONTIER_COLOUR, D.OUTSIDE, null;
    }

    ghost function View(): D.DetectorState
      reads this
    {
      D.DetectorState(state, colourCode, if lastItem == null then None else Some(lastItem.index))
    }

    method SetColour(colour: int) returns (newItem: Item?)
      requires contactHandler.ValidRound() && robot.robotId in contactHandler.robotsById
      requires lastItem == null || lastItem in contactHandler.registry.all
      modifies this, contactHandler`contacts, contactHandler`round, contactHandler.registry.all
      ensures contactHandler.ValidRound()
      ensures lastItem == null || lastItem in contactHandler.registry.all
      ensures var o := D.Read(old(View()), colour, Places(contactHandler.registry.byColour));
              && View() == o.state
              && (newItem == null <==> o.newItem == None)
              && (newItem != null ==> o.newItem == Some(newItem.index) && newItem in contactHandler.registry.all)
              && contactHandler.round == Si.Tell(old(contactHandler.round), robot.robotId, o.report)
    {
      hide Game.ValidRound, R.WellFormed, Si.Tell, D.Lookup, D.Leave, Places;
      Si.TellAll(contactHandler.round, robot.robotId);
      var itemChanged := false;
      match state {
        case OUTSIDE =>
          if colour == D.FRONTIER_COLOUR {
            state := D.FRONTIER;
          }
        case FRONTIER => itemChanged := LeaveFrontier(colour);
        case UNKNOWN_FROM_FRONTIER => itemChanged := LeaveUnknown(colour);
        case INSIDE =>
          if colour == D.FRONTIER_COLOUR {
            Leave();
          } else if colour != colourCode {
            state := D.TRANSITION_FROM_INSIDE;
          }
        case TRANSITION_FROM_INSIDE =>
          if colour == colourCode {
            if lastItem != null {
              state := D.INSIDE;
            }
          } else if colour == D.FRONTIER_COLOUR {
            Leave();
          }
      }
      newItem := if itemChanged then lastItem else null;
    }

    method LeaveFrontier(colour: int) returns (itemChanged: bool)
      requires contactHandler.ValidRound() && robot.robotId in contactHandler.robotsById && state == D.FRONTIER
      requires lastItem == null || lastItem in contactHandler.registry.all
      modifies this, contactHandler`contacts, contactHandler`round, contactHandler.registry.all
      ensures contactHandler.ValidRound()
      ensures lastItem == null || lastItem in contactHandler.registry.all
      ensures var o := D.Read(old(View()), colour, Places(contactHandler.registry.byColour));
              && View() == o.state
              && o.newItem == (if itemChanged then View().lastItem else None) && (itemChanged ==> lastItem != null)
              && contactHandler.round == Si.Tell(old(contactHandler.round), robot.robotId, o.report)
    {
      hide Game.ValidRound, R.WellFormed, Si.Tell, D.Lookup, D.Leave, Places, ItemRegistry.Valid;
      Si.TellAll(contactHandler.round, robot.robotId);
      contactHandler.RegistryFact();
      LookUp(contactHandler.registry.byColour, colour);
      itemChanged := false;
      var item := contactHandler.registry.GetItemByColour(colour);
      if item != null {
        state := D.INSIDE;
        colourCode := colour;
        itemChanged := true;
        Enter(item);
      } else {
        state := D.UNKNOWN_FROM_FRONTIER;
      }
    }

    method LeaveUnknown(colour: int) returns (itemChanged: bool)
      requires contactHandler.ValidRound() && robot.robotId in contactHandler.robotsById
      requires state == D.UNKNOWN_FROM_FRONTIER
      requires lastItem == null || lastItem in contactHandler.registry.all
      modifies this, contactHandler`contacts, contactHandler`round, contactHandler.registry.all
      ensures contactHandler.ValidRound()
      ensures lastItem == null || lastItem in contactHandler.registry.all
      ensures var o := D.Read(old(View()), colour, Places(contactHandler.registry.byColour));
              && View() == o.state
              && o.newItem == (if itemChanged then View().lastItem else None) && (itemChanged ==> lastItem != null)
              && contactHandler.round == Si.Tell(old(contactHandler.round), robot.robotId, o.report)
    {
      hide Game.ValidRound, R.WellFormed, Si.Tell, D.Lookup, D.Leave, Places, ItemRegistry.Valid;
      Si.TellAll(contactHandler.round, robot.robotId);
      contactHandler.RegistryFact();
      LookUp(contactHandler.registry.byColour, colour);
      itemChanged := false;
      var item := contactHandler.registry.GetItemByColour(colour);
      if item != null {
        colourCode := colour;
        if lastItem == null {
          itemChanged := true;
          Enter(item);
        }
        state := D.INSIDE;
      }
    }

    method Enter(item: Item)
      requires contactHandler.ValidRound() && robot.robotId in contactHandler.robotsById
      requires item in contactHandler.registry.all
      modifies `lastItem, contactHandler`contacts, contactHandler`round, contactHandler.registry.all
      ensures contactHandler.ValidRound() && lastItem == item
      ensures contactHandler.round == Si.Tell(old(contactHandler.round), robot.robotId, D.InContact(item.index))
    {
      hide Game.ValidRound, R.WellFormed, R.Contact, R.Apply, Si.Tell, ItemRegistry.Valid;
      Si.TellAll(contactHandler.round, robot.robotId);
      contactHandler.RegistryFact();
      lastItem := item;
      contactHandler.RobotIsInContactWith(robot.robotId, item);
    }

    method Leave()
      requires contactHandler.ValidRound()
      modifies this, contactHandler`contacts, contactHandler`round, contactHandler.registry.all
      ensures contactHandler.ValidRound() && lastItem == null
      ensures View() == D.Leave(old(View())).state
      ensures contactHandler.round == Si.Tell(old(contactHandler.round), robot.robotId, D.Leave(old(View())).report)
    {
      hide Game.ValidRound, R.WellFormed, R.Drop, R.Apply, Si.Tell;
      Si.TellAll(contactHandler.round, robot.robotId);
      state := D.FRONTIER;
      colourCode := D.FRONTIER_COLOUR;
      if lastItem != null {
        contactHandler.RobotDropsContactWith(robot.robotId, lastItem);
      }
      lastItem := null;
    }
  }

  lemma KnownAlready(s: R.State, rid: string, team: string)
    requires R.WellFormed(s) && rid in s.robots
    ensures R.Apply(s, R.AddRobot(rid, team)) == s
  {
  }

  lemma LookUp(index: map<int, Item>, colour: int)
    ensures D.Lookup(Places(index), colour) == if colour in index then Some(index[colour].index) else None
  {
  }

  /** A detector of the game's, under its robot's id. */
  ghost predicate DetectorFits(d: FlagDetector, game: Game, robot: Robot, rid: string, all: seq<Item>,
                               value: D.DetectorState)
    reads d
  {
    && d.contactHandler == game && d.robot == robot && robot.robotId == rid
    && d.View() == value && D.Consistent(value)
    && (d.lastItem == null || d.lastItem in all)
  }

  ghost predicate DetectorsFit(detectors: map<string, FlagDetector>, game: Game, robots: map<string, Robot>,
                               all: seq<Item>, values: map<string, D.DetectorState>)
    reads detectors.Values
  {
    && values.Keys == detectors.Keys == robots.Keys
    && forall rid | rid in detectors :: DetectorFits(detectors[rid], game, robots[rid], rid, all, values[rid])
  }

  lemma DetectorsFitWith(detectors: map<string, FlagDetector>, game: Game, robots: map<string, Robot>,
                         all: seq<Item>, values: map<string, D.DetectorState>, robot: Robot, d: FlagDetector)
    requires DetectorsFit(detectors, game, robots, all, values) && robot.robotId !in robots
    requires d.contactHandler == game && d.robot == robot && d.View() == D.INITIAL && d.lastItem == null
    ensures var rid := robot.robotId;
            DetectorsFit(detectors[rid := d], game, robots[rid := robot], all, values[rid := D.INITIAL])
  {
  }

  /** No two entries share a detector: each knows its robot, and the robot its id. */
  lemma DetectorAlone(detectors: map<string, FlagDetector>, game: Game, robots: map<string, Robot>,
                      all: seq<Item>, values: map<string, D.DetectorState>, rid: string)
    requires DetectorsFit(detectors, game, robots, all, values) && rid in detectors
    ensures detectors[rid] in detectors.Values && detectors[rid] !in (detectors - {rid}).Values
    ensures rid in values && rid in robots && DetectorFits(detectors[rid], game, robots[rid], rid, all, values[rid])
    ensures detectors[rid].contactHandler == game && detectors[rid].robot.robotId == rid
    ensures detectors[rid].View() == values[rid] && (detectors[rid].lastItem == null || detectors[rid].lastItem in all)
    ensures DetectorsFit(detectors - {rid}, game, robots - {rid}, all, values - {rid})
  {
    forall k | k in detectors && k != rid ensures detectors[k] != detectors[rid] {
      assert DetectorFits(detectors[k], game, robots[k], k, all, values[k]);
    }
  }

  lemma DetectorsFitAgain(detectors: map<string, FlagDetector>, game: Game, robots: map<string, Robot>,
                          all: seq<Item>, values: map<string, D.DetectorState>, rid: string)
    requires DetectorsFit(detectors - {rid}, game, robots - {rid}, all, values - {rid})
    requires rid in detectors && rid in robots && rid in values
    requires detectors[rid].contactHandler == game && detectors[rid].robot == robots[rid] && robots[rid].robotId == rid
    requires D.Consistent(detectors[rid].View())
    requires detectors[rid].lastItem == null || detectors[rid].lastItem in all
    ensures DetectorsFit(detectors, game, robots, all, values[rid := detectors[rid].View()])
  {
    assert values.Keys == (values - {rid}).Keys + {rid};
    assert detectors.Keys == (detectors - {rid}).Keys + {rid};
    assert robots.Keys == (robots - {rid}).Keys + {rid};
    forall k | k in detectors
      ensures DetectorFits(detectors[k], game, robots[k], k, all, values[rid := detectors[rid].View()][k])
    {
      assert k != rid ==> k in detectors - {rid};
    }
  }

  lemma MoreItemsFit(detectors: map<string, FlagDetector>, game: Game, robots: map<string, Robot>,
                     all: seq<Item>, item: Item, values: map<string, D.DetectorState>)
    requires DetectorsFit(detectors, game, robots, all, values)
    ensures DetectorsFit(detectors, game, robots, all + [item], values)
  {
  }

  /** A robot whose id is not new is left with the detector that is already there. */
  ghost function WithDetector(sensors: map<string, D.DetectorState>, rid: string): map<string, D.DetectorState> {
    if rid in sensors then sensors else sensors[rid := D.INITIAL]
  }

  /** Without an addition the roster stays as it is. */
  lemma NothingAdded(s: Ro.State, name: string, team: string, givenId: string)
    ensures name in s.robots || team !in s.teams ==> Ro.WithRobot(s, name, team, givenId) == s
  {
  }

  lemma ForgottenWinner(s: R.State)
    requires R.WellFormed(s)
    ensures R.WellFormed(s.(winner := None))
  {
  }

  lemma FirstIsAvailable(s: Ro.State, keys: seq<string>, n: nat)
    requires keys == Text.SortedKeys(s.robots.Keys) && n < |keys|
    requires Ro.Available(s, keys[n]) && forall m | 0 <= m < n :: !Ro.Available(s, keys[m])
    ensures Ro.AvailableRobot(s) == Some(keys[n])
  {
    var left := Ro.AvailableRobots(s);
    assert keys[n] in left;
    forall k | k in left ensures k == keys[n] || Text.Less(keys[n], k) {
      assert k in keys;
    }
    Text.LeastIsUnique(keys[n], Ro.AvailableRobot(s).value, left);
  }

  lemma NoneIsAvailable(s: Ro.State, keys: seq<string>)
    requires keys == Text.SortedKeys(s.robots.Keys)
    requires forall m | 0 <= m < |keys| :: !Ro.Available(s, keys[m])
    ensures Ro.AvailableRobot(s) == None
  {
    forall k ensures !Ro.Available(s, k) {
      if k in s.robots {
        assert k in keys;
      }
    }
  }

  lemma LastHolder(s: Ro.State, keys: seq<string>, found: int, player: string)
    requires keys == Text.SortedKeys(s.robots.Keys) && -1 <= found < |keys|
    requires found >= 0 ==> Ro.HeldBy(s, keys[found], player)
    requires forall m | found < m < |keys| :: !Ro.HeldBy(s, keys[m], player)
    ensures Ro.RobotForPlayer(s, player) == if found == -1 then Ro.AvailableRobot(s) else Some(keys[found])
  {
    var holders := Ro.Holders(s, player);
    forall k | k in holders ensures found >= 0 && (k == keys[found] || Text.Less(k, keys[found])) {
      assert k in keys;
    }
    if found >= 0 {
      assert keys[found] in holders;
      var last := Text.LastOf(holders).value;
      if last != keys[found] {
        Text.LessAsymmetric(last, keys[found]);
      }
    }
  }

  lemma FirstIsUnregistered(s: Ro.State, keys: seq<string>, n: nat)
    requires keys == Text.SortedKeys(s.robots.Keys) && n < |keys|
    requires Ro.Unregistered(s, keys[n]) && forall m | 0 <= m < n :: !Ro.Unregistered(s, keys[m])
    ensures Text.FirstOf(Ro.UnregisteredRobots(s)) == Some(keys[n])
  {
    var left := Ro.UnregisteredRobots(s);
    assert keys[n] in left;
    forall k | k in left ensures k == keys[n] || Text.Less(keys[n], k) {
      assert k in keys;
    }
    Text.LeastIsUnique(keys[n], Text.FirstOf(left).value, left);
  }

  lemma NoneIsUnregistered(s: Ro.State, keys: seq<string>)
    requires keys == Text.SortedKeys(s.robots.Keys)
    requires forall m | 0 <= m < |keys| :: !Ro.Unregistered(s, keys[m])
    ensures Text.FirstOf(Ro.UnregisteredRobots(s)) == None
  {
    forall k ensures !Ro.Unregistered(s, k) {
      if k in s.robots {
        assert k in keys;
      }
    }
  }

  lemma RegisteredAgain(registered: map<string, string>, id: string)
    requires id in registered
    ensures registered[id := registered[id]] == registered
  {
  }

  ghost predicate TakenBefore(s: Ro.State, n: nat) {
    forall j | 0 <= j < n :: FreshIds.IdOf(j) in Ro.Ids(s)
  }

  lemma IdsAreFew(s: Ro.State, n: nat)
    requires TakenBefore(s, n)
    ensures n <= |s.robots|
  {
    FreshIds.TakenIdsAreFew(Ro.Ids(s), n);
    IdsPerRobot(s, s.robots.Keys);
    assert Ro.Ids(s) == set k | k in s.robots.Keys :: s.robots[k].id;
  }

  lemma {:induction false} IdsPerRobot(s: Ro.State, names: set<string>)
    requires names <= s.robots.Keys
    ensures |set k | k in names :: s.robots[k].id| <= |names|
  {
    if names != {} {
      var name :| name in names;
      var rest := names - {name};
      IdsPerRobot(s, rest);
      assert (set k | k in names :: s.robots[k].id) == (set k | k in rest :: s.robots[k].id) + {s.robots[name].id};
    }
  }
}
