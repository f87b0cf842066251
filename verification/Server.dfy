/** The server: a game, its channels and the callbacks that act on the messages. */
module Server {
  import opened Options
  import opened Messages
  import opened Serving
  import opened Objects
  import opened Game
  import opened Callbacks
  import R = Round
  import Ro = Roster
  import Ch = Channels
  import Si = Sightings
  import FreshIds
  import Text

  lemma HandleHello(w: World, player: string, ready: bool, clock: int)
    requires Messages.Valid(w)
    ensures Handle(w, Hello(player, ready), clock) ==
              World(w.sensed.(round := if Ro.HelloStarts(w.roster, player, ready)
                                       then R.StartRound(w.sensed.round, true, clock) else w.sensed.round),
                    Ro.AfterHello(w.roster, player))
  {
    hide R.StartRound, Ro.AfterHello, Ro.HelloStarts, Si.Valid, Si.TakeAll, Si.Take, R.WellFormed;
    TakeNothing(w.sensed);
    TakeOne(w.sensed, Si.Other(R.Start(true, clock)));
    TakeOther(w.sensed, R.Start(true, clock));
    StartIsOp(w.sensed.round, clock);
  }

  lemma StartIsOp(s: R.State, clock: int)
    requires R.WellFormed(s)
    ensures R.Apply(s, R.Start(true, clock)) == R.StartRound(s, true, clock)
  {
    hide R.StartRound;
  }

  /** Registrations and messages that do nothing leave round and detectors alone. */
  lemma HandleQuietly(w: World, m: Message, clock: int)
    requires Messages.Valid(w) && (m.Register? || m.OtherMessage?)
    ensures Handle(w, m, clock) ==
              w.(roster := if m.Register? then Ro.WithRegistration(w.roster, m.temporaryId) else w.roster)
  {
    hide Ro.WithRegistration, Si.Valid, Si.TakeAll, R.WellFormed;
    TakeNothing(w.sensed);
  }

  /** The operation of the round behind a command that has one. */
  function RoundOp(c: Command, clock: int): R.Op
    requires c.StartGame? || c.StopGame? || c.SetDuration? || c.SetScore?
  {
    match c
    case StartGame => R.Start(true, clock)
    case StopGame => R.Stop
    case SetDuration(seconds) => R.SetDuration(seconds * R.SECOND)
    case SetScore(team, score) => R.SetScore(team, score)
  }

  lemma StopIsOp(s: R.State)
    requires R.WellFormed(s)
    ensures R.Apply(s, R.Stop) == R.StopRound(s)
  {
    hide R.StopRound;
  }

  lemma FewerKeys<V>(m: map<string, V>, key: string)
    ensures |m - {key}| <= |m|
  {
    assert (m - {key}).Keys <= m.Keys;
    Text.SubsetSize((m - {key}).Keys, m.Keys);
  }

  predicate RosterOnly(c: Command) {
    c.AddPlayer? || c.RemovePlayer? || c.RemoveRobot? || c.SetRegistered?
  }

  lemma ObeyRound(w: World, c: Command, clock: int)
    requires Messages.Valid(w) && (c.StartGame? || c.StopGame? || c.SetDuration? || c.SetScore?)
    ensures Obey(w, c, clock) == WithRound(w, R.Apply(w.sensed.round, RoundOp(c, clock)))
  {
    hide Si.Valid, Si.TakeAll, Si.Take, R.WellFormed, R.Apply;
    TakeOne(w.sensed, Si.Other(RoundOp(c, clock)));
    TakeOther(w.sensed, RoundOp(c, clock));
  }

  lemma ObeyRoster(w: World, c: Command, clock: int)
    requires Messages.Valid(w) && RosterOnly(c)
    ensures Obey(w, c, clock) == w.(roster := CommandRoster(w.roster, c))
  {
    hide Si.Valid, Si.TakeAll, R.WellFormed, CommandRoster;
    TakeNothing(w.sensed);
  }

  lemma ObeyTeam(w: World, team: string, clock: int)
    requires Messages.Valid(w)
    ensures Obey(w, AddTeam(team), clock) ==
              WithRound(w, R.Apply(w.sensed.round, R.AddTeam(team))).(roster := Ro.Apply(w.roster, Ro.AddTeam(team)))
  {
    hide Si.Valid, Si.TakeAll, Si.Take, R.WellFormed, R.Apply, Ro.Apply;
    TakeOne(w.sensed, Si.Other(R.AddTeam(team)));
    TakeOther(w.sensed, R.AddTeam(team));
  }

  /** A robot that is really added enters the round and gets a detector unless its id is known. */
  lemma ObeyRobot(w: World, robot: string, team: string, clock: int)
    requires Messages.Valid(w) && w.sensed.detectors.Keys == w.sensed.round.robots.Keys
    requires team in w.roster.teams ==> team in w.sensed.round.scores
    ensures var added := robot !in w.roster.robots && team in w.roster.teams;
            var id := FreshIds.NewId(Ro.Ids(w.roster));
            Obey(w, AddRobot(robot, team), clock) ==
              World(if added
                    then w.sensed.(round := R.Apply(w.sensed.round, R.AddRobot(id, team)),
                                   detectors := WithDetector(w.sensed.detectors, id))
                    else w.sensed,
                    Ro.Apply(w.roster, Ro.AddRobot(robot, team, "")))
  {
    hide Si.Valid, Si.TakeAll, R.WellFormed, R.Apply, Ro.Apply, FreshIds.NewId, Ro.Ids;
    var op := R.AddRobot(FreshIds.NewId(Ro.Ids(w.roster)), team);
    TakeNothing(w.sensed);
    TakeOne(w.sensed, Si.Other(op));
    Si.RobotsAfter(w.sensed.round, op);
  }

  class Server {
    const game: Game
    const inbox: Ch.Inbox<Message>
    const hello: ProcessHello
    const register: ProcessRegister
    const robotState: ProcessRobotState
    const ticDuration: int
    var previousTic: int

    constructor (game: Game, ticDuration: int, now: int)
      requires game.ValidRound() && game.ValidRoster() && game.ValidDetectors()
      ensures Valid() && this.game == game && this.ticDuration == ticDuration
      ensures View() == State(World(game.Sensed(), game.roster), Ch.State(Ch.PUBLISH, [], []), now)
    {
      hide ValidGame, Game.ValidRound, Game.ValidRoster, Game.ValidDetectors, Messages.Valid, R.WellFormed, Places;
      this.game, this.ticDuration, previousTic := game, ticDuration, now;
      inbox := new Ch.Inbox();
      hello := new ProcessHello(game);
      register := new ProcessRegister(game);
      robotState := new ProcessRobotState(game);
      new;
      ValidWhole();
    }

    ghost predicate ValidGame()
      reads game, game.registry, game.registry.all, game.teams.Values, game.contacts.Values, game.detectors.Values
      reads game.robots.Values, game.players.Values, set r | r in game.robots.Values && r.player != null :: r.player
      ensures ValidGame() ==> Messages.Valid(TheWorld())
    {
      hide Game.ValidRound, Game.ValidRoster, Game.ValidDetectors, Places;
      if game.ValidRound() && game.ValidRoster() && game.ValidDetectors() then
        game.SensedIsValid();
        true
      else false
    }

    lemma ValidParts()
      requires ValidGame()
      ensures game.ValidRound() && game.ValidRoster() && game.ValidDetectors()
    {
    }

    lemma ValidWhole()
      requires game.ValidRound() && game.ValidRoster() && game.ValidDetectors()
      ensures ValidGame()
    {
    }

    ghost predicate Valid()
      reads inbox.channels, game, game.registry, game.registry.all
      reads game.teams.Values, game.contacts.Values, game.detectors.Values
      reads game.robots.Values, game.players.Values, set r | r in game.robots.Values && r.player != null :: r.player
      ensures Valid() ==> ValidGame() && inbox.Valid()
    {
      && ValidGame() && inbox.Valid()
      && hello.game == game && register.game == game && robotState.game == game
    }

    ghost function TheWorld(): World
      reads game, game.registry
    {
      World(game.Sensed(), game.roster)
    }

    ghost function View(): State
      requires inbox.Valid()
      reads this, inbox, inbox.channels, game, game.registry
    {
      State(TheWorld(), inbox.View(), previousTic)
    }

    /** Everything a message or a tick may change. */
    ghost function GameObjects(): set<object>
      reads game`teams, game`contacts, game`detectors, game`robots, game`players, game.registry`all
    {
      RoundObjects() + RosterObjects()
    }

    ghost function RoundObjects(): (objects: set<object>)
      reads game`teams, game`contacts, game`detectors, game.registry`all
      ensures inbox !in objects && inbox.channels !in objects && this !in objects
    {
      {game} + FootprintOf(game.contacts, game.teams, game.registry.all)
      + (set d | d in game.detectors.Values :: d as object)
    }

    ghost function RosterObjects(): (objects: set<object>)
      reads game`robots, game`players
      ensures inbox !in objects && inbox.channels !in objects && this !in objects
    {
      (set r | r in game.robots.Values :: r as object) + (set p | p in game.players.Values :: p as object)
    }

    lemma InGame()
      ensures game in GameObjects()
      ensures forall i | i in game.registry.all :: i in GameObjects()
      ensures forall t | t in game.teams.Values :: t in GameObjects()
      ensures forall c | c in game.contacts.Values :: c in GameObjects()
      ensures forall d | d in game.detectors.Values :: d in GameObjects()
      ensures forall r | r in game.robots.Values :: r in GameObjects()
      ensures forall p | p in game.players.Values :: p in GameObjects()
    {
    }

    lemma NotInGame()
      ensures inbox !in GameObjects() && inbox.channels !in GameObjects() && this !in GameObjects()
    {
    }

    method Process(m: Message, clock: int) returns (thrown: bool)
      requires Valid()
      modifies GameObjects()
      ensures Valid()
      ensures thrown <==> Throws(old(TheWorld()), m)
      ensures TheWorld() == Handle(old(TheWorld()), m, clock)
    {
      hide Valid, GameObjects, Messages.Valid, R.WellFormed, R.StartRound, Si.RobotState, Ro.WithRegistration,
           Ro.AfterHello, Ro.HelloStarts, Ro.RobotWithoutRealRobot, Handle, Places;
      InGame();
      thrown := false;
      match m
      case Hello(player, ready) => ProcessHelloMessage(player, ready, clock);
      case Register(temporaryId) => thrown := ProcessRegisterMessage(temporaryId, clock);
      case RobotState(rid, rfids, colours) => ProcessRobotStateMessage(rid, rfids, colours, clock);
      case OtherMessage => HandleQuietly(TheWorld(), m, clock);
    }

    method ProcessHelloMessage(player: string, ready: bool, clock: int)
      requires Valid()
      modifies game`players, game`roster, game.players.Values, game.robots.Values
      modifies game`isRunning, game`winner, game`time, game`startTime, game`round
      modifies game.registry.all, game.teams.Values
      ensures Valid()
      ensures TheWorld() == Handle(old(TheWorld()), Hello(player, ready), clock)
    {
      hide ValidGame, Game.ValidRound, Game.ValidRoster, Game.ValidDetectors, Messages.Valid, R.WellFormed,
           R.StartRound, Ro.AfterHello, Ro.HelloStarts, Handle, Places;
      HandleHello(TheWorld(), player, ready, clock);
      ValidParts();
      ServeHello(player, ready, clock);
      ValidWhole();
    }

    method ServeHello(player: string, ready: bool, clock: int)
      requires game.ValidRound() && game.ValidRoster() && game.ValidDetectors() && hello.game == game
      modifies game`players, game`roster, game.players.Values, game.robots.Values
      modifies game`isRunning, game`winner, game`time, game`startTime, game`round
      modifies game.registry.all, game.teams.Values
      ensures game.ValidRound() && game.ValidRoster() && game.ValidDetectors()
      ensures game.roster == Ro.AfterHello(old(game.roster), player)
      ensures game.round == if Ro.HelloStarts(old(game.roster), player, ready)
                            then R.StartRound(old(game.round), true, clock) else old(game.round)
    {
      hide Game.ValidRound, Game.ValidRoster, Game.ValidDetectors, R.WellFormed, R.StartRound,
           Ro.AfterHello, Ro.HelloStarts, Places;
      var reply := hello.Execute(player, ready, clock);
    }

    method ProcessRegisterMessage(temporaryId: string, ghost clock: int) returns (thrown: bool)
      requires Valid()
      modifies game`registeredRobots, game`roster, game.robots.Values
      ensures Valid()
      ensures thrown <==> Throws(old(TheWorld()), Register(temporaryId))
      ensures TheWorld() == Handle(old(TheWorld()), Register(temporaryId), clock)
    {
      hide ValidGame, Game.ValidRound, Game.ValidRoster, Game.ValidDetectors, Messages.Valid, R.WellFormed,
           R.StartRound, Ro.WithRegistration, Ro.RobotWithoutRealRobot, Handle, Places;
      HandleQuietly(TheWorld(), Register(temporaryId), clock);
      ValidParts();
      var reply := register.Execute(temporaryId);
      ValidWhole();
      thrown := reply == Thrown;
    }

    method ProcessRobotStateMessage(rid: string, rfids: seq<Si.RfidReading>, colours: seq<int>, ghost clock: int)
      requires Valid()
      modifies game`contacts, game`round, game`sensors, game.registry.all, game.detectors.Values
      ensures Valid()
      ensures TheWorld() == Handle(old(TheWorld()), RobotState(rid, rfids, colours), clock)
    {
      hide ValidGame, Game.ValidRound, Game.ValidRoster, Game.ValidDetectors, Messages.Valid, R.WellFormed,
           R.StartRound, Si.RobotState, Si.Valid, Handle, Places;
      RobotStateIsInputs(TheWorld(), RobotState(rid, rfids, colours), clock);
      ValidParts();
      var visited := robotState.Execute(rid, rfids, colours);
      ValidWhole();
    }

    // ----- Agents' commands

    /** What has been added to the game is new. */
    method FeedAgentProxy(command: Option<Command>, clock: int)
      requires Valid() && |game.robots| < R.U32
      modifies GameObjects()
      ensures Valid() && TheWorld() == FeedAgent(old(TheWorld()), command, clock)
      ensures fresh(GameObjects() - old(GameObjects())) && |game.robots| <= |old(game.robots)| + 1
    {
      hide Valid, GameObjects, Messages.Valid, R.WellFormed, Obey, Places;
      if command.Some? {
        ObeyCommand(command.value, clock);
      }
    }

    method ObeyCommand(c: Command, clock: int)
      requires Valid() && |game.robots| < R.U32
      modifies GameObjects()
      ensures Valid() && TheWorld() == Obey(old(TheWorld()), c, clock)
      ensures fresh(GameObjects() - old(GameObjects())) && |game.robots| <= |old(game.robots)| + 1
    {
      hide Valid, GameObjects, Messages.Valid, R.WellFormed, Obey, Places;
      InGame();
      if c.AddPlayer? || c.RemovePlayer? {
        ObeyOnPlayers(c, clock);
      } else if c.RemoveRobot? {
        ObeyRemoveRobot(c.robot, clock);
      } else if c.SetRegistered? {
        ObeySetRegistered(c.robot, c.hasReal, clock);
      } else if c.AddTeam? {
        ObeyAddTeam(c.team, clock);
      } else if c.AddRobot? {
        ObeyAddRobot(c.robot, c.team, clock);
      } else {
        ObeyOnRound(c, clock);
      }
    }

    method ObeyOnRound(c: Command, clock: int)
      requires Valid() && (c.StartGame? || c.StopGame? || c.SetDuration? || c.SetScore?)
      modifies game`isRunning, game`winner, game`time, game`startTime, game`duration, game`round
      modifies game.registry.all, game.teams.Values
      ensures Valid() && TheWorld() == Obey(old(TheWorld()), c, clock)
      ensures GameObjects() == old(GameObjects()) && game.robots == old(game.robots)
    {
      hide ValidGame, Game.ValidRound, Game.ValidRoster, Game.ValidDetectors, Messages.Valid, R.WellFormed, R.Apply,
           GameObjects, Obey, Places;
      ObeyRound(TheWorld(), c, clock);
      ValidParts();
      ActOnRound(c, clock);
      ValidWhole();
    }

    method ActOnRound(c: Command, clock: int)
      requires game.ValidRound() && game.ValidRoster() && game.ValidDetectors()
      requires c.StartGame? || c.StopGame? || c.SetDuration? || c.SetScore?
      modifies game`isRunning, game`winner, game`time, game`startTime, game`duration, game`round
      modifies game.registry.all, game.teams.Values
      ensures game.ValidRound() && game.ValidRoster() && game.ValidDetectors()
      ensures game.round == R.Apply(old(game.round), RoundOp(c, clock))
    {
      hide Game.ValidRound, Game.ValidRoster, Game.ValidDetectors, R.WellFormed, R.Apply, R.StartRound, R.StopRound,
           Places;
      match c
      case StartGame =>
        StartIsOp(game.round, clock);
        game.Start(true, clock);
      case StopGame =>
        StopIsOp(game.round);
        game.Stop();
      case SetDuration(seconds) => game.SetDuration(seconds * R.SECOND);
      case SetScore(team, score) => game.SetTeamScore(team, score);
    }

    method ObeyOnPlayers(c: Command, clock: int)
      requires Valid() && (c.AddPlayer? || c.RemovePlayer?)
      modifies game`players, game`roster, game.players.Values
      ensures Valid() && TheWorld() == Obey(old(TheWorld()), c, clock)
      ensures fresh(GameObjects() - old(GameObjects())) && game.robots == old(game.robots)
    {
      hide ValidGame, Game.ValidRound, Game.ValidRoster, Game.ValidDetectors, Messages.Valid, R.WellFormed,
           CommandRoster, Obey, RoundObjects, Places;
      ObeyRoster(TheWorld(), c, clock);
      ValidParts();
      ActOnPlayers(c);
      ValidWhole();
    }

    method ActOnPlayers(c: Command)
      requires game.ValidRound() && game.ValidRoster() && game.ValidDetectors() && (c.AddPlayer? || c.RemovePlayer?)
      modifies game`players, game`roster, game.players.Values
      ensures game.ValidRound() && game.ValidRoster() && game.ValidDetectors()
      ensures game.roster == CommandRoster(old(game.roster), c)
      ensures forall p | p in game.players.Values :: p in old(game.players.Values) || fresh(p)
    {
      hide Game.ValidRound, Game.ValidRoster, Game.ValidDetectors, R.WellFormed, Places;
      if c.AddPlayer? {
        var added := game.AddPlayer(c.player);
      } else {
        var removed := game.RemovePlayer(c.player);
      }
    }

    method ObeyRemoveRobot(robot: string, clock: int)
      requires Valid()
      modifies game`robots, game`roster
      ensures Valid() && TheWorld() == Obey(old(TheWorld()), RemoveRobot(robot), clock)
      ensures fresh(GameObjects() - old(GameObjects())) && |game.robots| <= |old(game.robots)|
    {
      hide ValidGame, Game.ValidRound, Game.ValidRoster, Game.ValidDetectors, Messages.Valid, R.WellFormed,
           CommandRoster, Obey, RoundObjects, Places;
      ObeyRoster(TheWorld(), RemoveRobot(robot), clock);
      ValidParts();
      FewerKeys(game.robots, robot);
      RemoveNamed(robot);
      ValidWhole();
      assert forall r | r in game.robots.Values :: r in old(game.robots.Values);
    }

    method ObeySetRegistered(robot: string, hasReal: bool, clock: int)
      requires Valid()
      modifies game`roster, game.robots.Values
      ensures Valid() && TheWorld() == Obey(old(TheWorld()), SetRegistered(robot, hasReal), clock)
      ensures GameObjects() == old(GameObjects()) && game.robots == old(game.robots)
    {
      hide ValidGame, Game.ValidRound, Game.ValidRoster, Game.ValidDetectors, Messages.Valid, R.WellFormed,
           CommandRoster, Obey, GameObjects, Places;
      ObeyRoster(TheWorld(), SetRegistered(robot, hasReal), clock);
      ValidParts();
      MarkNamed(robot, hasReal);
      ValidWhole();
    }

    method RemoveNamed(robot: string)
      requires game.ValidRound() && game.ValidRoster() && game.ValidDetectors()
      modifies game`robots, game`roster
      ensures game.ValidRound() && game.ValidRoster() && game.ValidDetectors()
      ensures game.roster == CommandRoster(old(game.roster), RemoveRobot(robot))
      ensures game.robots == old(game.robots) - {robot}
    {
      hide Game.ValidRound, Game.ValidRoster, Game.ValidDetectors, R.WellFormed, Places;
      var removed := game.RemoveRobot(robot);
    }

    method MarkNamed(robot: string, hasReal: bool)
      requires game.ValidRound() && game.ValidRoster() && game.ValidDetectors()
      modifies game`roster, game.robots.Values
      ensures game.ValidRound() && game.ValidRoster() && game.ValidDetectors()
      ensures game.roster == CommandRoster(old(game.roster), SetRegistered(robot, hasReal))
    {
      hide Game.ValidRound, Game.ValidRoster, Game.ValidDetectors, R.WellFormed, Places;
      game.SetRegistered(robot, hasReal);
    }

    method ObeyAddTeam(team: string, clock: int)
      requires Valid()
      modifies game`teams, game`round, game`roster
      ensures Valid() && TheWorld() == Obey(old(TheWorld()), AddTeam(team), clock)
      ensures fresh(GameObjects() - old(GameObjects())) && game.robots == old(game.robots)
    {
      hide ValidGame, Game.ValidRound, Game.ValidRoster, Game.ValidDetectors, Messages.Valid, R.WellFormed, R.Apply,
           Ro.Apply, Obey, RosterObjects, Places;
      ObeyTeam(TheWorld(), team, clock);
      ValidParts();
      var added := game.AddTeam(team);
      ValidWhole();
      assert forall t | t in game.teams.Values :: t in old(game.teams.Values) || fresh(t);
    }

    method ObeyAddRobot(robot: string, team: string, clock: int)
      requires Valid() && |game.robots| < R.U32
      modifies game`robots, game`robotsById, game`detectors, game`round, game`roster, game`sensors
      ensures Valid() && TheWorld() == Obey(old(TheWorld()), AddRobot(robot, team), clock)
      ensures fresh(GameObjects() - old(GameObjects())) && |game.robots| <= |old(game.robots)| + 1
    {
      hide ValidGame, Game.ValidRound, Game.ValidRoster, Game.ValidDetectors, Messages.Valid, R.WellFormed, R.Apply,
           Obey, FootprintOf, WithDetector, FreshIds.NewId, Ro.Ids, Places;
      ValidParts();
      game.TeamsFact();
      game.RosterKeys();
      game.DetectorKeys();
      ObeyRobot(TheWorld(), robot, team, clock);
      var added := game.AddRobot(robot, team, "");
      ValidWhole();
      assert forall r | r in game.robots.Values :: r in old(game.robots.Values) || fresh(r);
    }

    // ----- Turns

    /** One turn of the loop. */
    method TakeTurn(r: Reading) returns (processed: bool, thrown: bool)
      requires Valid() && |game.robots| + 1 < R.U32
      modifies `previousTic, inbox, inbox.channels
      modifies GameObjects()
      ensures Valid()
      ensures Turned(old(View()), ticDuration, r, View(), processed, thrown)
    {
      hide Valid, GameObjects, Messages.Valid, R.WellFormed, Received, Turned, Places;
      NotInGame();
      ghost var s := View();
      Meet(r);
      NotInGame();
      if r.now - previousTic < ticDuration {
        processed, thrown := ServeTurn(r, s);
      } else {
        processed, thrown := false, false;
        TickTurn(r, s);
      }
    }

    method ServeTurn(r: Reading, ghost s: State) returns (processed: bool, thrown: bool)
      requires Valid() && ValidState(s) && View() == Received(s, r) && r.now - s.previousTic < ticDuration
      modifies inbox`puller, inbox`replier, inbox.channels, GameObjects()
      ensures Valid() && Turned(s, ticDuration, r, View(), processed, thrown)
    {
      hide Valid, GameObjects, ValidState, R.WellFormed, Handle, Received, Turned, Ch.AfterTaking, Ch.AfterCall,
           Ch.TakenBy, Throws, Places;
      NotInGame();
      processed, thrown := Serve(r.clock);
      MessageTurns(s, ticDuration, r, View(), processed, thrown);
    }

    method TickTurn(r: Reading, ghost s: State)
      requires Valid() && ValidState(s) && View() == Received(s, r) && r.now - s.previousTic >= ticDuration
      requires |game.robots| < R.U32
      modifies `previousTic, GameObjects()
      ensures Valid() && Turned(s, ticDuration, r, View(), false, false)
    {
      hide Valid, GameObjects, ValidState, R.WellFormed, Ticked, FeedAgent, Received, Turned, Places;
      NotInGame();
      FeedAndTick(r.late, r.clock);
      NoteTic(r.now);
      TickTurns(s, ticDuration, r, View());
    }

    method FeedAndTick(command: Option<Command>, clock: int)
      requires Valid() && |game.robots| < R.U32
      modifies GameObjects()
      ensures Valid() && TheWorld() == Ticked(FeedAgent(old(TheWorld()), command, clock))
    {
      hide Valid, GameObjects, Messages.Valid, R.WellFormed, Ticked, FeedAgent, Places;
      FeedAgentProxy(command, clock);
      InGame();
      TickIfRunning();
    }

    method NoteTic(now: int)
      requires Valid()
      modifies `previousTic
      ensures Valid() && previousTic == now && TheWorld() == old(TheWorld()) && inbox.View() == old(inbox.View())
    {
      hide ValidGame, Places;
      previousTic := now;
    }

    method Meet(r: Reading)
      requires Valid() && |game.robots| < R.U32
      modifies inbox`puller, inbox`replier, GameObjects()
      ensures Valid() && View() == Received(old(View()), r)
      ensures fresh(GameObjects() - old(GameObjects())) && |game.robots| <= |old(game.robots)| + 1
    {
      hide Valid, GameObjects, Messages.Valid, R.WellFormed, FeedAgent, Received, Places;
      ghost var s := View();
      FeedEarly(r.early, r.asked);
      InGame();
      ReceiveAll(r);
      ReceivedIs(s, r, View());
    }

    /** The channels and the previous tic are none of the agent's. */
    method FeedEarly(command: Option<Command>, clock: int)
      requires Valid() && |game.robots| < R.U32
      modifies GameObjects()
      ensures Valid() && TheWorld() == FeedAgent(old(TheWorld()), command, clock)
      ensures inbox.View() == old(inbox.View()) && previousTic == old(previousTic)
      ensures fresh(GameObjects() - old(GameObjects())) && |game.robots| <= |old(game.robots)| + 1
    {
      hide Valid, GameObjects, Messages.Valid, R.WellFormed, FeedAgent, Places;
      NotInGame();
      FeedAgentProxy(command, clock);
    }

    method ReceiveAll(r: Reading)
      requires Valid()
      modifies inbox`puller, inbox`replier, game`time, game`round
      ensures Valid() && TheWorld() == TakeInto(old(TheWorld()), Si.Other(R.SetTime(r.now)))
      ensures inbox.View() == Ch.Run(old(inbox.View()), Arrivals(r.arrivals))
      ensures GameObjects() == old(GameObjects()) && game.robots == old(game.robots)
    {
      hide Valid, GameObjects, Messages.Valid, R.WellFormed, Ch.Run, TakeInto, Places;
      Arrive(r.arrivals);
      ReadClock(r.now);
    }

    method Serve(clock: int) returns (processed: bool, thrown: bool)
      requires Valid()
      modifies inbox`puller, inbox`replier, inbox.channels
      modifies GameObjects()
      ensures Valid()
      ensures inbox.View() == if thrown then Ch.AfterTaking(old(inbox.View())) else Ch.AfterCall(old(inbox.View()))
      ensures match Ch.TakenBy(old(inbox.View()))
              case Some(taken) => processed && (thrown <==> Throws(old(TheWorld()), taken.message))
                                  && TheWorld() == Handle(old(TheWorld()), taken.message, clock)
              case None => !processed && !thrown && TheWorld() == old(TheWorld())
    {
      hide Valid, GameObjects, Messages.Valid, R.WellFormed, Handle, Throws, Ch.AfterTaking, Ch.TakenBy, Places;
      processed, thrown := false, false;
      NotInGame();
      InGame();
      var taken := NextMessage();
      if taken.Some? {
        processed := true;
        thrown := Process(taken.value.message, clock);
      }
      if !thrown {
        PermuteChannels();
      }
    }

    method NextMessage() returns (taken: Option<Ch.Taken<Message>>)
      requires Valid()
      modifies inbox`puller, inbox`replier
      ensures Valid() && TheWorld() == old(TheWorld())
      ensures inbox.View() == Ch.AfterTaking(old(inbox.View())) && taken == Ch.TakenBy(old(inbox.View()))
      ensures inbox.View().first == old(inbox.View()).first
    {
      hide ValidGame, Ch.TakenBy, Places;
      taken := inbox.TakeMessageIfAvailable();
    }

    method PermuteChannels()
      requires Valid()
      modifies inbox.channels
      ensures Valid() && TheWorld() == old(TheWorld())
      ensures inbox.View() == old(inbox.View()).(first := Ch.Other(old(inbox.View()).first))
    {
      hide ValidGame, Places;
      var more := inbox.NextPermutation();
    }

    method Arrive(arrivals: seq<Ch.Taken<Message>>)
      requires Valid()
      modifies inbox`puller, inbox`replier
      ensures Valid() && TheWorld() == old(TheWorld())
      ensures inbox.View() == Ch.Run(old(inbox.View()), Arrivals(arrivals))
    {
      hide ValidGame, Ch.Step, Places;
      for n := 0 to |arrivals|
        invariant inbox.Valid()
        invariant inbox.View() == Ch.Run(old(inbox.View()), Arrivals(arrivals[..n]))
      {
        var before := Arrivals(arrivals[..n]);
        assert Arrivals(arrivals[..n + 1]) == before + [Ch.Arrive(arrivals[n].channel, arrivals[n].message)];
        assert Arrivals(arrivals[..n + 1])[..n] == before;
        inbox.Arrives(arrivals[n].channel, arrivals[n].message);
      }
      assert arrivals[..|arrivals|] == arrivals;
    }

    method ReadClock(now: int)
      requires Valid()
      modifies game`time, game`round
      ensures Valid()
      ensures TheWorld() == TakeInto(old(TheWorld()), Si.Other(R.SetTime(now)))
      ensures GameObjects() == old(GameObjects()) && game.robots == old(game.robots)
    {
      hide ValidGame, Game.ValidRound, Game.ValidRoster, Game.ValidDetectors, R.WellFormed, R.Apply, Si.Take, Si.Valid,
           GameObjects, Places;
      ValidParts();
      TakeOther(game.Sensed(), R.SetTime(now));
      game.SetTime(now);
      ValidWhole();
    }

    method TickIfRunning()
      requires Valid()
      modifies game`contacts, game`round, game`isRunning, game`winner
      modifies game.registry.all, game.teams.Values, game.contacts.Values
      ensures Valid()
      ensures TheWorld() == Ticked(old(TheWorld()))
    {
      hide ValidGame, Game.ValidRound, Game.ValidRoster, Game.ValidDetectors, R.WellFormed, R.Tick, R.Apply, Si.Take,
           Si.Valid, Places;
      ValidParts();
      TakeOther(game.Sensed(), R.Step);
      R.StepIsTick(game.round);
      TickGame();
      ValidWhole();
    }

    method TickGame()
      requires game.ValidRound() && game.ValidRoster() && game.ValidDetectors()
      modifies game`contacts, game`round, game`isRunning, game`winner
      modifies game.registry.all, game.teams.Values, game.contacts.Values
      ensures game.ValidRound() && game.ValidRoster() && game.ValidDetectors()
      ensures game.round == if old(game.round).running then R.Tick(old(game.round)) else old(game.round)
    {
      hide Game.ValidRound, Game.ValidRoster, Game.ValidDetectors, R.WellFormed, R.Tick, Places;
      R.StepIsTick(game.round);
      if game.IsRunning() {
        game.Step();
      }
    }
  }
}
