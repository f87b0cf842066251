/**
 What every operation of the roster does, in plain terms: who is added, removed, registered
 and welcomed, and with which robot.
 */
module RosterEffects {
  import opened Options
  import opened Roster
  import FreshIds
  import Text

  /** A robot is free for a player when it is registered and points to no player object that is still there. */
  predicate IsFree(s: State, r: string) {
    && r in s.robots && s.robots[r].hasReal
    && (s.robots[r].player.Some? ==>
          !(s.robots[r].player.value.name in s.players
            && s.players[s.robots[r].player.value.name].serial == s.robots[r].player.value.serial))
  }

  /** A robot holds the player when it points to the very object that the players' map holds. */
  predicate Holding(s: State, r: string, player: string) {
    && r in s.robots && player in s.players
    && s.robots[r].player == Some(PlayerRef(player, s.players[player].serial))
  }

  lemma FreeMeansAvailable(s: State, r: string)
    ensures IsFree(s, r) <==> Available(s, r)
    ensures forall player :: Holding(s, r, player) <==> HeldBy(s, r, player)
  {
  }

  /** The robot that is offered is the first free one in name order. */
  lemma Offering(s: State)
    ensures match AvailableRobot(s)
            case Some(first) => IsFree(s, first) && forall r | IsFree(s, r) :: r == first || Text.Less(first, r)
            case None => forall r :: !IsFree(s, r)
  {
    forall r ensures IsFree(s, r) <==> r in AvailableRobots(s) {
      FreeMeansAvailable(s, r);
    }
  }

  /** A player is offered the robot that holds it, the last in name order if several do, or else a free one. */
  lemma Choosing(s: State, player: string)
    ensures if exists r :: Holding(s, r, player)
            then RobotForPlayer(s, player).Some? && Holding(s, RobotForPlayer(s, player).value, player)
                 && forall r | Holding(s, r, player) ::
                      r == RobotForPlayer(s, player).value || Text.Less(r, RobotForPlayer(s, player).value)
            else RobotForPlayer(s, player) == AvailableRobot(s)
  {
    forall r ensures Holding(s, r, player) <==> r in Holders(s, player) {
      FreeMeansAvailable(s, r);
    }
    if r :| Holding(s, r, player) {
      assert r in Holders(s, player);
    }
  }

  /** A player that is new gets an object of its own, without a robot; a known one stays as it is. */
  lemma AddingPlayer(s: State, player: string)
    ensures var t := Apply(s, AddPlayer(player));
            if player in s.players then t == s
            else t == s.(players := s.players[player := PlayerState(s.next, None)], next := s.next + 1)
  {
  }

  /** What is removed is gone from its map, and from no other. */
  lemma Removing(s: State, name: string)
    ensures Apply(s, RemovePlayer(name)) == s.(players := s.players - {name})
    ensures Apply(s, RemoveRobot(name)) == s.(robots := s.robots - {name})
  {
  }

  /** A robot is added to a team that there is, under a name that is new, unregistered and without a player. */
  lemma AddingRobot(s: State, robot: string, team: string, id: string)
    ensures var t := Apply(s, AddRobot(robot, team, id));
            if robot in s.robots || team !in s.teams then t == s
            else
              && robot in t.robots
              && (id != "" ==> t.robots[robot].id == id)
              && (id == "" ==> exists k: nat :: t.robots[robot].id == FreshIds.IdOf(k) && IdsTakenBefore(s, k)
                                                && !IdTaken(s, FreshIds.IdOf(k)))
              && t.robots[robot] == RobotState(s.next, t.robots[robot].id, team, false, None)
              && t == s.(robots := s.robots[robot := t.robots[robot]], next := s.next + 1)
  {
    if robot !in s.robots && team in s.teams && id == "" {
      var k :| 0 <= k <= |Ids(s)| && FreshIds.NewId(Ids(s)) == FreshIds.IdOf(k)
               && forall j | 0 <= j < k :: FreshIds.IdOf(j) in Ids(s);
      forall j | 0 <= j < k ensures IdTaken(s, FreshIds.IdOf(j)) {
        assert FreshIds.IdOf(j) in Ids(s);
      }
    }
  }

  ghost predicate IdTaken(s: State, id: string) {
    exists r :: r in s.robots && s.robots[r].id == id
  }

  ghost predicate IdsTakenBefore(s: State, k: nat) {
    forall j | 0 <= j < k :: IdTaken(s, FreshIds.IdOf(j))
  }

  /** Agents add teams, and mark robots as registered or not. */
  lemma Marking(s: State, name: string, hasReal: bool)
    ensures Apply(s, AddTeam(name)) == s.(teams := s.teams + {name})
    ensures Apply(s, SetRegistered(name, hasReal)) ==
              if name in s.robots then s.(robots := s.robots[name := s.robots[name].(hasReal := hasReal)]) else s
  {
  }

  /** The first unregistered robot in name order. */
  ghost predicate FirstUnregistered(s: State, robot: string) {
    && robot in s.robots && !s.robots[robot].hasReal
    && forall r | r in s.robots && !s.robots[r].hasReal :: r == robot || Text.Less(robot, r)
  }

  /**
   A known id gets its robot, or throws when that robot is gone; a new one gets the first
   unregistered robot, or is refused when all are registered.
   */
  lemma Registering(s: State, id: string)
    ensures match RobotWithoutRealRobot(s, id)
            case Registered(robot) =>
              && robot in s.robots
              && (if id in s.registered then robot == s.registered[id] else FirstUnregistered(s, robot))
            case Missing => id in s.registered && s.registered[id] !in s.robots
            case Refused => id !in s.registered && forall r | r in s.robots :: s.robots[r].hasReal
    ensures var t := Apply(s, Register(id));
            match RobotWithoutRealRobot(s, id)
            case Registered(robot) =>
              t == s.(registered := s.registered[id := robot],
                      robots := s.robots[robot := s.robots[robot].(hasReal := true)])
            case _ => t == s
  {
    if id !in s.registered {
      var left := UnregisteredRobots(s);
      assert forall r :: r in left <==> r in s.robots && !s.robots[r].hasReal;
      assert Text.FirstOf(left).None? ==> left == {};
    }
  }

  /**
   A Hello makes the player known; if there is a robot for it the two point to each other
   from then on, and nothing else changes.
   */
  lemma Greeting(s: State, player: string)
    ensures var known := Apply(s, AddPlayer(player));
            var t := Apply(s, Hello(player));
            && Welcomed(s, player) == RobotForPlayer(known, player)
            && player in known.players
            && match Welcomed(s, player)
               case None => t == known
               case Some(robot) =>
                 t == known.(
                   players := known.players[player := PlayerState(known.players[player].serial,
                                                                  Some(known.robots[robot].serial))],
                   robots := known.robots[robot := known.robots[robot].(
                               player := Some(PlayerRef(player, known.players[player].serial)))])
  {
    hide RobotForPlayer;
  }

  /** The game is started by a ready player that is welcomed, once no robot is free any more. */
  lemma StartingByHello(s: State, player: string, ready: bool)
    ensures HelloStarts(s, player, ready) <==>
              ready && Welcomed(s, player) != None && forall r :: !IsFree(Apply(s, Hello(player)), r)
  {
    hide AfterHello, Welcomed, AvailableRobot, IsFree;
    Offering(AfterHello(s, player));
    HelloIs(s, player);
  }

  lemma HelloIs(s: State, player: string)
    ensures Apply(s, Hello(player)) == AfterHello(s, player)
  {
    hide AfterHello;
  }
}
