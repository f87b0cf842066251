/** Players and robots stay matched one to one, whatever comes and goes. */
module Matching {
  import opened Options
  import opened Roster
  import Text
  import FreshIds

  /** Serials are unique, and a robot that holds a live player is the robot it points to. */
  ghost predicate Matched(s: State) {
    && (forall r | r in s.robots :: s.robots[r].serial < s.next)
    && (forall p | p in s.players :: s.players[p].serial < s.next)
    && (forall r | r in s.robots && s.robots[r].player.Some? :: s.robots[r].player.value.serial < s.next)
    && (forall r, r' | r in s.robots && r' in s.robots && r != r' :: s.robots[r].serial != s.robots[r'].serial)
    && (forall r | HasPlayer(s, r) ::
          s.players[s.robots[r].player.value.name].robot == Some(s.robots[r].serial))
  }

  /** A live player is held by one robot at most. */
  lemma HeldByOne(s: State, r: string, r': string, player: string)
    requires Matched(s) && HeldBy(s, r, player) && HeldBy(s, r', player)
    ensures r == r'
  {
  }

  lemma NewSerial(s: State)
    requires Matched(s)
    ensures forall r | r in s.robots && s.robots[r].player.Some? :: s.robots[r].player.value.serial != s.next
  {
  }

  lemma LinkKeeps(s: State, player: string, robot: string)
    requires Matched(s) && player in s.players && robot in s.robots
    requires forall r | HeldBy(s, r, player) :: r == robot
    ensures Matched(Link(s, player, robot))
    ensures HeldBy(Link(s, player, robot), robot, player)
  {
    var t := Link(s, player, robot);
    forall r | HasPlayer(t, r)
      ensures t.players[t.robots[r].player.value.name].robot == Some(t.robots[r].serial)
    {
      if r != robot {
        assert HasPlayer(s, r);
        assert s.robots[r].player.value.name == player ==> HeldBy(s, r, player);
      }
    }
  }

  lemma WithPlayerKeeps(s: State, player: string)
    requires Matched(s)
    ensures Matched(WithPlayer(s, player))
    ensures forall r :: HasPlayer(WithPlayer(s, player), r) <==> HasPlayer(s, r)
  {
    var t := WithPlayer(s, player);
    forall r ensures HasPlayer(t, r) <==> HasPlayer(s, r) {
    }
  }

  lemma HelloLinksRight(s: State, player: string)
    requires Matched(s) && player in s.players
    requires RobotForPlayer(s, player).Some?
    ensures forall r | HeldBy(s, r, player) :: r == RobotForPlayer(s, player).value
  {
    var robot := RobotForPlayer(s, player).value;
    forall r | HeldBy(s, r, player) ensures r == robot {
      assert r in Holders(s, player);
      HeldByOne(s, r, robot, player);
    }
  }

  lemma HelloKeeps(s: State, player: string)
    requires Matched(s)
    ensures Matched(AfterHello(s, player))
    ensures Welcomed(s, player).Some? ==> HeldBy(AfterHello(s, player), Welcomed(s, player).value, player)
  {
    hide Matched, RobotForPlayer;
    WithPlayerKeeps(s, player);
    var known := WithPlayer(s, player);
    if Welcomed(s, player).Some? {
      HelloLinksRight(known, player);
      LinkKeeps(known, player, Welcomed(s, player).value);
    }
  }

  lemma ApplyKeeps(s: State, op: Op)
    requires Matched(s)
    ensures Matched(Apply(s, op))
  {
    hide Matched, WithRegistration, WithPlayer, AfterHello;
    match op
    case Hello(player) => HelloKeeps(s, player);
    case AddPlayer(player) => WithPlayerKeeps(s, player);
    case Register(temporaryId) => RegisterKeeps(s, temporaryId);
    case AddRobot(robot, team, id) => WithRobotKeeps(s, robot, team, id);
    case _ => OthersKeep(s, op);
  }

  lemma WithRobotKeeps(s: State, robot: string, team: string, id: string)
    requires Matched(s)
    ensures Matched(WithRobot(s, robot, team, id))
  {
    hide FreshIds.NewId, Ids;
    forall r | HasPlayer(WithRobot(s, robot, team, id), r) ensures HasPlayer(s, r) {
    }
  }

  lemma OthersKeep(s: State, op: Op)
    requires Matched(s) && (op.RemovePlayer? || op.RemoveRobot? || op.SetRegistered? || op.AddTeam?)
    ensures Matched(Apply(s, op))
  {
    forall r | HasPlayer(Apply(s, op), r) ensures HasPlayer(s, r) {
    }
  }

  lemma RegisterKeeps(s: State, temporaryId: string)
    requires Matched(s)
    ensures Matched(WithRegistration(s, temporaryId))
  {
    hide RobotWithoutRealRobot;
    forall r | HasPlayer(WithRegistration(s, temporaryId), r) ensures HasPlayer(s, r) {
    }
  }

  /** The matching survives every run of every operation. */
  lemma {:induction false} AlwaysMatched(s: State, ops: seq<Op>)
    requires Matched(s)
    ensures Matched(Run(s, ops))
  {
    hide Matched, Apply;
    if ops != [] {
      AlwaysMatched(s, ops[..|ops| - 1]);
      ApplyKeeps(Run(s, ops[..|ops| - 1]), ops[|ops| - 1]);
    }
  }

  /** What AlwaysMatched means for a server from its start. */
  lemma OneRobotPerPlayer(ops: seq<Op>, r: string, r': string, player: string)
    requires HeldBy(Run(EMPTY, ops), r, player) && HeldBy(Run(EMPTY, ops), r', player)
    ensures r == r'
    ensures Run(EMPTY, ops).players[player].robot == Some(Run(EMPTY, ops).robots[r].serial)
  {
    hide Run;
    AlwaysMatched(EMPTY, ops);
    HeldByOne(Run(EMPTY, ops), r, r', player);
  }

  lemma HelloChanges(s: State, player: string, r: string)
    requires Matched(s)
    ensures var t := AfterHello(s, player);
            && t.robots.Keys == s.robots.Keys
            && (r in s.robots ==> t.robots[r].serial == s.robots[r].serial
                                  && t.robots[r].hasReal == s.robots[r].hasReal && t.robots[r].id == s.robots[r].id)
            && (forall p | p in s.players :: p in t.players && t.players[p].serial == s.players[p].serial)
            && (Some(r) != Welcomed(s, player) && r in s.robots ==> t.robots[r] == s.robots[r])
  {
    hide RobotForPlayer;
  }

  lemma HoldSurvives(s: State, op: Op, robot: string, player: string)
    requires Matched(s) && HeldBy(s, robot, player)
    requires op != RemoveRobot(robot) && op != RemovePlayer(player)
    ensures HeldBy(Apply(s, op), robot, player)
    ensures Apply(s, op).robots[robot].serial == s.robots[robot].serial
  {
    hide AfterHello, WithRegistration, WithRobot, WithPlayer, Matched;
    match op
    case Hello(other) => HelloLeavesHold(s, other, robot, player);
    case Register(temporaryId) => RegisterLeavesHold(s, temporaryId, robot, player);
    case AddRobot(name, team, id) => AddRobotLeavesHold(s, name, team, id, robot, player);
    case AddPlayer(other) => AddPlayerLeavesHold(s, other, robot, player);
    case _ =>
  }

  lemma HelloLeavesHold(s: State, other: string, robot: string, player: string)
    requires Matched(s) && HeldBy(s, robot, player)
    ensures var t := AfterHello(s, other);
            HeldBy(t, robot, player) && t.robots[robot].serial == s.robots[robot].serial
  {
    hide AfterHello;
    HelloChanges(s, other, robot);
    WithPlayerKeeps(s, other);
    if Welcomed(s, other) == Some(robot) {
      OwnRobotOnly(s, other, robot, player);
      HelloKeeps(s, other);
    }
  }

  lemma RegisterLeavesHold(s: State, temporaryId: string, robot: string, player: string)
    requires HeldBy(s, robot, player)
    ensures var t := WithRegistration(s, temporaryId);
            HeldBy(t, robot, player) && t.robots[robot].serial == s.robots[robot].serial
  {
    hide RobotWithoutRealRobot;
  }

  lemma AddRobotLeavesHold(s: State, name: string, team: string, id: string, robot: string, player: string)
    requires HeldBy(s, robot, player)
    ensures var t := WithRobot(s, name, team, id);
            HeldBy(t, robot, player) && t.robots[robot].serial == s.robots[robot].serial
  {
    hide FreshIds.NewId, Ids;
  }

  lemma AddPlayerLeavesHold(s: State, other: string, robot: string, player: string)
    requires HeldBy(s, robot, player)
    ensures var t := WithPlayer(s, other);
            HeldBy(t, robot, player) && t.robots[robot].serial == s.robots[robot].serial
  {
  }

  /** A robot that holds a live player welcomes only that player. */
  lemma OwnRobotOnly(s: State, other: string, robot: string, player: string)
    requires Matched(s) && HeldBy(s, robot, player) && Welcomed(s, other) == Some(robot)
    ensures other == player
  {
    WithPlayerKeeps(s, other);
    assert HasPlayer(WithPlayer(s, other), robot);
  }

  /**
   A player once welcomed keeps its robot: as long as neither is removed, whatever else
   happens, a repeated Hello is welcomed with the very same robot.
   */
  lemma {:induction false} RepeatedHello(s: State, ops: seq<Op>, player: string, robot: string)
    requires Matched(s) && Welcomed(s, player) == Some(robot)
    requires RemoveRobot(robot) !in ops && RemovePlayer(player) !in ops
    ensures var t := Run(AfterHello(s, player), ops);
            && HeldBy(t, robot, player)
            && Welcomed(t, player) == Some(robot)
            && t.robots[robot].serial == s.robots[robot].serial
  {
    hide Apply, Matched, Welcomed, AfterHello, HeldBy;
    HelloKeeps(s, player);
    HelloChanges(s, player, robot);
    StaysHeld(AfterHello(s, player), ops, player, robot);
    var t := Run(AfterHello(s, player), ops);
    AlwaysMatched(AfterHello(s, player), ops);
    HolderWelcomes(t, player, robot);
    WelcomedHere(s, player, robot);
  }

  lemma WelcomedHere(s: State, player: string, robot: string)
    requires Welcomed(s, player) == Some(robot)
    ensures robot in s.robots
  {
  }

  lemma {:induction false} StaysHeld(s: State, ops: seq<Op>, player: string, robot: string)
    requires Matched(s) && HeldBy(s, robot, player)
    requires RemoveRobot(robot) !in ops && RemovePlayer(player) !in ops
    ensures HeldBy(Run(s, ops), robot, player)
    ensures Run(s, ops).robots[robot].serial == s.robots[robot].serial
  {
    hide Apply, Matched;
    if ops != [] {
      StaysHeld(s, ops[..|ops| - 1], player, robot);
      AlwaysMatched(s, ops[..|ops| - 1]);
      HoldSurvives(Run(s, ops[..|ops| - 1]), ops[|ops| - 1], robot, player);
    }
  }

  lemma HolderWelcomes(s: State, player: string, robot: string)
    requires Matched(s) && HeldBy(s, robot, player)
    ensures Welcomed(s, player) == Some(robot)
  {
    WithPlayerKeeps(s, player);
    var known := WithPlayer(s, player);
    assert HeldBy(known, robot, player);
    assert robot in Holders(known, player);
    HeldByOne(known, Text.LastOf(Holders(known, player)).value, robot, player);
  }

  /** A welcomed ready Hello starts the game exactly when every registered robot has a player. */
  lemma StartsWhenAllAreTaken(s: State, player: string)
    ensures var t := AfterHello(s, player);
            HelloStarts(s, player, true) <==>
              Welcomed(s, player).Some? && forall r | r in t.robots && t.robots[r].hasReal :: HasPlayer(t, r)
  {
    hide AfterHello, Welcomed;
    var t := AfterHello(s, player);
    if AvailableRobot(t).None? {
      forall r | r in t.robots && t.robots[r].hasReal ensures HasPlayer(t, r) {
        assert r !in AvailableRobots(t);
      }
    } else {
      assert AvailableRobot(t).value in AvailableRobots(t);
    }
  }

  // ----- Robot ids

  ghost predicate DistinctIds(s: State) {
    forall r, r' | r in s.robots && r' in s.robots && r != r' :: s.robots[r].id != s.robots[r'].id
  }

  /**
   Adding a robot keeps the ids distinct exactly when it is not given an id in use. Agents give
   none, and a configuration's are distinct.
   */
  lemma AddRobotKeepsIdsDistinct(s: State, robot: string, team: string, id: string)
    requires DistinctIds(s)
    ensures DistinctIds(WithRobot(s, robot, team, id)) <==>
              !(robot !in s.robots && team in s.teams && id != "" && id in Ids(s))
  {
    var t := WithRobot(s, robot, team, id);
    if robot !in s.robots && team in s.teams {
      assert forall r | r in s.robots :: s.robots[r].id in Ids(s) && t.robots[r] == s.robots[r];
      if id != "" && id in Ids(s) {
        var r :| r in s.robots && s.robots[r].id == id;
        assert t.robots[r].id == t.robots[robot].id;
      }
    }
  }

  /** No robot of the history is given an explicit id that is in use at the time. */
  ghost predicate UnusedIdsOnly(s: State, ops: seq<Op>) {
    forall k | 0 <= k < |ops| && ops[k].AddRobot? && ops[k].id != "" :: ops[k].id !in Ids(Run(s, ops[..k]))
  }

  lemma {:induction false} IdsStayDistinct(s: State, ops: seq<Op>)
    requires DistinctIds(s) && UnusedIdsOnly(s, ops)
    ensures DistinctIds(Run(s, ops))
  {
    if ops != [] {
      var n := |ops| - 1;
      forall k | 0 <= k < n && ops[..n][k].AddRobot? && ops[..n][k].id != ""
        ensures ops[..n][k].id !in Ids(Run(s, ops[..n][..k]))
      {
        assert ops[..n][..k] == ops[..k];
      }
      IdsStayDistinct(s, ops[..n]);
      IdsAfter(Run(s, ops[..n]), ops[n]);
    }
  }

  lemma IdsAfter(s: State, op: Op)
    requires DistinctIds(s) && (op.AddRobot? && op.id != "" ==> op.id !in Ids(s))
    ensures DistinctIds(Apply(s, op))
  {
    hide WithRobot, RobotForPlayer, RobotWithoutRealRobot;
    if op.AddRobot? {
      AddRobotKeepsIdsDistinct(s, op.robot, op.team, op.id);
    }
  }
}
