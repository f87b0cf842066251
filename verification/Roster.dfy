/**
 Robots, players and registrations as a state machine over values. Objects are told
 apart by serial numbers, so a weak pointer to a player is a name with a serial, and it
 has expired once the players' map no longer holds that very object.
 */
module Roster {
  import opened Options
  import Text
  import FreshIds

  datatype PlayerRef = PlayerRef(name: string, serial: nat)

  datatype RobotState = RobotState(serial: nat, id: string, team: string, hasReal: bool, player: Option<PlayerRef>)

  datatype PlayerState = PlayerState(serial: nat, robot: Option<nat>)

  datatype State = State(
    teams: set<string>,
    robots: map<string, RobotState>,     // by robot name
    players: map<string, PlayerState>,   // by player name
    registered: map<string, string>,     // temporary id -> robot name
    next: nat)                           // the next unused serial

  datatype Op =
    | AddTeam(team: string)
    | AddPlayer(player: string)
    | RemovePlayer(player: string)
    | AddRobot(robot: string, team: string, id: string)
    | RemoveRobot(robot: string)
    | Register(temporaryId: string)
    | SetRegistered(robot: string, hasReal: bool)
    | Hello(player: string)

  predicate Live(s: State, p: PlayerRef) {
    p.name in s.players && s.players[p.name].serial == p.serial
  }

  predicate HasPlayer(s: State, robot: string) {
    robot in s.robots && s.robots[robot].player.Some? && Live(s, s.robots[robot].player.value)
  }

  predicate Available(s: State, robot: string) {
    robot in s.robots && s.robots[robot].hasReal && !HasPlayer(s, robot)
  }

  predicate HeldBy(s: State, robot: string, player: string) {
    HasPlayer(s, robot) && s.robots[robot].player.value.name == player
  }

  predicate Unregistered(s: State, robot: string) {
    robot in s.robots && !s.robots[robot].hasReal
  }

  function AvailableRobots(s: State): (robots: set<string>)
    ensures forall r :: r in robots <==> Available(s, r)
  {
    set r | r in s.robots && Available(s, r)
  }

  function Holders(s: State, player: string): (robots: set<string>)
    ensures forall r :: r in robots <==> HeldBy(s, r, player)
  {
    set r | r in s.robots && HeldBy(s, r, player)
  }

  function UnregisteredRobots(s: State): (robots: set<string>)
    ensures forall r :: r in robots <==> Unregistered(s, r)
  {
    set r | r in s.robots && Unregistered(s, r)
  }

  /** The first available robot in name order. */
  function AvailableRobot(s: State): Option<string> {
    Text.FirstOf(AvailableRobots(s))
  }

  /** The search for the player's own robot runs to the end, so its last match counts. */
  function RobotForPlayer(s: State, player: string): (r: Option<string>)
    ensures r.Some? ==> r.value in s.robots
  {
    var own := Text.LastOf(Holders(s, player));
    if own.Some? then own else AvailableRobot(s)
  }

  // ----- Operations

  function WithPlayer(s: State, player: string): (r: State)
    ensures player in r.players && r.robots == s.robots
  {
    if player in s.players then s
    else s.(players := s.players[player := PlayerState(s.next, None)], next := s.next + 1)
  }

  function Ids(s: State): set<string> {
    set k | k in s.robots :: s.robots[k].id
  }

  function WithRobot(s: State, robot: string, team: string, id: string): State {
    if robot in s.robots || team !in s.teams then s
    else
      var newId := if id == "" then FreshIds.NewId(Ids(s)) else id;
      s.(robots := s.robots[robot := RobotState(s.next, newId, team, false, None)], next := s.next + 1)
  }

  /** The map lookup throws when the robot registered under the id is gone. */
  datatype Registration = Registered(robot: string) | Refused | Missing

  function RobotWithoutRealRobot(s: State, temporaryId: string): (r: Registration)
    ensures r.Registered? ==> r.robot in s.robots
  {
    if temporaryId in s.registered then
      if s.registered[temporaryId] in s.robots then Registered(s.registered[temporaryId]) else Missing
    else match Text.FirstOf(UnregisteredRobots(s))
      case Some(robot) => Registered(robot)
      case None => Refused
  }

  function WithRegistration(s: State, temporaryId: string): State {
    match RobotWithoutRealRobot(s, temporaryId)
    case Registered(robot) =>
      s.(registered := s.registered[temporaryId := robot],
         robots := s.robots[robot := s.robots[robot].(hasReal := true)])
    case _ => s
  }

  function Link(s: State, player: string, robot: string): State
    requires player in s.players && robot in s.robots
  {
    s.(players := s.players[player := s.players[player].(robot := Some(s.robots[robot].serial))],
       robots := s.robots[robot := s.robots[robot].(
                   player := Some(PlayerRef(player, s.players[player].serial)))])
  }

  /** The robot a Hello is welcomed with, if any. */
  function Welcomed(s: State, player: string): (r: Option<string>)
    ensures r.Some? ==> r.value in s.robots
  {
    RobotForPlayer(WithPlayer(s, player), player)
  }

  function AfterHello(s: State, player: string): State {
    var known := WithPlayer(s, player);
    match RobotForPlayer(known, player)
    case Some(robot) => Link(known, player, robot)
    case None => known
  }

  /** A welcomed player that says it is ready starts the game when no robot waits for a player. */
  predicate HelloStarts(s: State, player: string, ready: bool) {
    Welcomed(s, player).Some? && ready && AvailableRobot(AfterHello(s, player)).None?
  }

  function Apply(s: State, op: Op): State {
    match op
    case AddTeam(team) => s.(teams := s.teams + {team})
    case AddPlayer(player) => WithPlayer(s, player)
    case RemovePlayer(player) => s.(players := s.players - {player})
    case AddRobot(robot, team, id) => WithRobot(s, robot, team, id)
    case RemoveRobot(robot) => s.(robots := s.robots - {robot})
    case Register(temporaryId) => WithRegistration(s, temporaryId)
    case SetRegistered(robot, hasReal) =>
      if robot in s.robots then s.(robots := s.robots[robot := s.robots[robot].(hasReal := hasReal)]) else s
    case Hello(player) => AfterHello(s, player)
  }

  function Run(s: State, ops: seq<Op>): State {
    if ops == [] then s
    else Apply(Run(s, ops[..|ops| - 1]), ops[|ops| - 1])
  }

  const EMPTY := State({}, map[], map[], map[], 0)
}
