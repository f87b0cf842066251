/** How many robots a sequence of Hellos, or of registrations, hands out, and to whom. */
module Allocation {
  import opened Options
  import opened Roster
  import Matching
  import FreshIds
  import Text

  /** The distinct names of a sequence, in order of first appearance. */
  function Arrivals(names: seq<string>): (r: seq<string>)
    ensures forall n :: n in r <==> n in names
    ensures forall i, j | 0 <= i < j < |r| :: r[i] != r[j]
  {
    if names == [] then []
    else
      var most := names[..|names| - 1];
      var last := names[|names| - 1];
      assert names == most + [last];
      if last in most then Arrivals(most) else Arrivals(most) + [last]
  }

  /** Handing out in name order: once the first m are gone the first left is the next. */
  lemma FirstOfTheRest(free: seq<string>, m: nat, left: set<string>)
    requires Text.Increasing(free) && m <= |free|
    requires forall k :: k in left <==> k in free && k !in free[..m]
    ensures Text.FirstOf(left) == if m < |free| then Some(free[m]) else None
  {
    SplitAt(free, m);
    if m < |free| {
      assert free[m] in free[m..];
      forall k | k in left ensures k == free[m] || Text.Less(free[m], k) {
        assert k in free[m..];
      }
      Text.LeastIsUnique(free[m], Text.FirstOf(left).value, left);
    } else {
      assert free[..m] == free;
    }
  }

  lemma SplitAt(free: seq<string>, m: nat)
    requires Text.Increasing(free) && m <= |free|
    ensures forall k | k in free :: k in free[..m] <==> k !in free[m..]
  {
    Text.IncreasingDistinct(free);
    forall k | k in free ensures k in free[..m] <==> k !in free[m..] {
      assert free == free[..m] + free[m..];
      if k in free[..m] && k in free[m..] {
        assert false;
      }
    }
  }

  function Least(a: nat, b: nat): nat {
    if a < b then a else b
  }

  // ----- Registrations

  /** The ids that register, among operations that leave registrations and robots alone. */
  predicate RegistersOrLeaves(op: Op) {
    op.Register? || op.Hello? || op.AddPlayer? || op.RemovePlayer? || op.AddTeam?
  }

  function IdsOf(ops: seq<Op>): seq<string> {
    if ops == [] then []
    else
      var last := ops[|ops| - 1];
      IdsOf(ops[..|ops| - 1]) + if last.Register? then [last.temporaryId] else []
  }

  function FreeRobots(s: State): seq<string> {
    Text.SortedKeys(UnregisteredRobots(s))
  }

  /** The first m of the free robots have become registered, and the others are as they were. */
  ghost predicate Marked(s: State, t: State, free: seq<string>, m: nat)
    requires m <= |free|
  {
    && t.robots.Keys == s.robots.Keys
    && forall r | r in s.robots ::
         && t.robots[r].hasReal == (s.robots[r].hasReal || r in free[..m])
         && t.robots[r].serial == s.robots[r].serial
  }

  /** The first arrivals are registered to the first free robots, and nobody else is. */
  ghost predicate Assigned(s: State, t: State, arrivals: seq<string>, free: seq<string>) {
    var m := Least(|arrivals|, |free|);
    && (forall i | 0 <= i < m :: arrivals[i] in t.registered && t.registered[arrivals[i]] == free[i])
    && (forall i | m <= i < |arrivals| :: arrivals[i] !in t.registered)
    && (forall id | id !in arrivals :: id in t.registered <==> id in s.registered)
  }

  ghost predicate RegisteredInOrder(s: State, t: State, arrivals: seq<string>, free: seq<string>) {
    Assigned(s, t, arrivals, free) && Marked(s, t, free, Least(|arrivals|, |free|))
  }

  lemma NextFree(s: State, t: State, m: nat)
    requires m <= |FreeRobots(s)| && Marked(s, t, FreeRobots(s), m)
    ensures var free := FreeRobots(s);
            Text.FirstOf(UnregisteredRobots(t)) == if m < |free| then Some(free[m]) else None
  {
    var free := FreeRobots(s);
    forall k ensures k in UnregisteredRobots(t) <==> k in free && k !in free[..m] {
      assert k in free <==> k in UnregisteredRobots(s);
    }
    FirstOfTheRest(free, m, UnregisteredRobots(t));
  }

  lemma MarkOne(s: State, t: State, free: seq<string>, m: nat, u: State)
    requires m < |free| && free[m] in s.robots && Marked(s, t, free, m)
    requires u.robots == t.robots[free[m] := t.robots[free[m]].(hasReal := true)]
    ensures Marked(s, u, free, m + 1)
  {
    assert free[..m + 1] == free[..m] + [free[m]];
  }

  lemma RegisterOne(s: State, t: State, arrivals: seq<string>, id: string)
    requires RegisteredInOrder(s, t, arrivals, FreeRobots(s)) && id !in s.registered && id !in arrivals
    ensures RegisteredInOrder(s, WithRegistration(t, id), arrivals + [id], FreeRobots(s))
  {
    hide UnregisteredRobots, Marked, FreeRobots;
    var free := FreeRobots(s);
    var m := Least(|arrivals|, |free|);
    var u := WithRegistration(t, id);
    NextFree(s, t, m);
    if m < |free| {
      FreeExists(s, m);
      MarkOne(s, t, free, m, u);
      assert u.registered == t.registered[id := free[m]];
    } else {
      assert u == t;
    }
  }

  lemma FreeExists(s: State, m: nat)
    requires m < |FreeRobots(s)|
    ensures FreeRobots(s)[m] in s.robots
  {
    assert FreeRobots(s)[m] in UnregisteredRobots(s);
  }

  lemma RegisterAgain(s: State, t: State, arrivals: seq<string>, id: string)
    requires RegisteredInOrder(s, t, arrivals, FreeRobots(s)) && id in arrivals
    ensures WithRegistration(t, id) == t
  {
    hide UnregisteredRobots, FreeRobots;
    var free := FreeRobots(s);
    var m := Least(|arrivals|, |free|);
    var i :| 0 <= i < |arrivals| && arrivals[i] == id;
    NextFree(s, t, m);
    if i < m {
      FreeExists(s, i);
      assert free[i] in free[..m];
      assert t.robots[free[i] := t.robots[free[i]].(hasReal := true)] == t.robots;
      assert t.registered[id := free[i]] == t.registered;
    }
  }

  lemma LeavesRobots(t: State, op: Op)
    requires RegistersOrLeaves(op) && !op.Register?
    ensures var u := Apply(t, op);
            && u.registered == t.registered && u.robots.Keys == t.robots.Keys
            && forall r | r in t.robots ::
                 u.robots[r].hasReal == t.robots[r].hasReal && u.robots[r].serial == t.robots[r].serial
  {
    hide RobotForPlayer, RobotWithoutRealRobot;
  }

  lemma LeaveOne(s: State, t: State, arrivals: seq<string>, op: Op)
    requires RegisteredInOrder(s, t, arrivals, FreeRobots(s)) && RegistersOrLeaves(op) && !op.Register?
    ensures RegisteredInOrder(s, Apply(t, op), arrivals, FreeRobots(s))
  {
    hide FreeRobots, Apply;
    LeavesRobots(t, op);
  }

  /**
   From any state, however often each of k new temporary ids registers, and whatever players
   come, go and say hello in between, exactly the first min(k, n) of the n unregistered robots
   are registered, in name order, to the ids in order of arrival; the later ids are refused.
   */
  lemma {:induction false} RegistrationsAreHandedOutInOrder(s: State, ops: seq<Op>)
    requires forall k | 0 <= k < |ops| :: RegistersOrLeaves(ops[k])
    requires forall id | id in IdsOf(ops) :: id !in s.registered
    ensures RegisteredInOrder(s, Run(s, ops), Arrivals(IdsOf(ops)), FreeRobots(s))
  {
    hide RegisteredInOrder, Apply, FreeRobots;
    if ops == [] {
      NothingRegistered(s);
    } else {
      var most := ops[..|ops| - 1];
      RegistrationsAreHandedOutInOrder(s, most);
      RegisterOrLeaveOne(s, Run(s, most), IdsOf(most), ops[|ops| - 1]);
    }
  }

  /** One operation more. */
  lemma RegisterOrLeaveOne(s: State, t: State, ids: seq<string>, op: Op)
    requires RegistersOrLeaves(op) && (op.Register? ==> op.temporaryId !in s.registered)
    requires RegisteredInOrder(s, t, Arrivals(ids), FreeRobots(s))
    ensures var more := ids + if op.Register? then [op.temporaryId] else [];
            RegisteredInOrder(s, Apply(t, op), Arrivals(more), FreeRobots(s))
  {
    hide RegisteredInOrder, WithRegistration, Apply, FreeRobots;
    if !op.Register? {
      assert ids + [] == ids;
      LeaveOne(s, t, Arrivals(ids), op);
    } else {
      assert (ids + [op.temporaryId])[..|ids|] == ids;
      RegisterIsWithRegistration(t, op.temporaryId);
      if op.temporaryId in ids {
        RegisterAgain(s, t, Arrivals(ids), op.temporaryId);
      } else {
        RegisterOne(s, t, Arrivals(ids), op.temporaryId);
      }
    }
  }

  lemma RegisterIsWithRegistration(t: State, temporaryId: string)
    ensures Apply(t, Register(temporaryId)) == WithRegistration(t, temporaryId)
  {
    hide WithRegistration;
  }

  lemma NothingRegistered(s: State)
    ensures RegisteredInOrder(s, s, [], FreeRobots(s))
  {
  }

  // ----- Registrations among everything else

  /** Every registered id names its own robot, which is marked as registered. */
  ghost predicate Injective(s: State) {
    && (forall id | id in s.registered :: s.registered[id] in s.robots && s.robots[s.registered[id]].hasReal)
    && (forall a, b | a in s.registered && b in s.registered && a != b :: s.registered[a] != s.registered[b])
  }

  /** Operations that neither remove nor unregister a robot. */
  predicate KeepsRobots(op: Op) {
    !op.RemoveRobot? && (op.SetRegistered? ==> op.hasReal)
  }

  lemma KeepsInjective(s: State, op: Op)
    requires Injective(s) && KeepsRobots(op)
    ensures var t := Apply(s, op);
            && Injective(t)
            && (forall id | id in s.registered ::
                  && id in t.registered && t.registered[id] == s.registered[id]
                  && t.robots[t.registered[id]].serial == s.robots[s.registered[id]].serial)
  {
    hide RobotWithoutRealRobot, WithRobot, AfterHello;
    match op
    case Register(id) => RegisterKeepsInjective(s, id);
    case Hello(player) => HelloKeepsRobots(s, player);
    case AddRobot(robot, team, id) => WithRobotKeepsRobots(s, robot, team, id);
    case _ =>
  }

  lemma WithRobotKeepsRobots(s: State, robot: string, team: string, id: string)
    ensures var t := WithRobot(s, robot, team, id);
            t.registered == s.registered && forall r | r in s.robots :: r in t.robots && t.robots[r] == s.robots[r]
  {
  }

  lemma HelloKeepsRobots(s: State, player: string)
    ensures var t := AfterHello(s, player);
            && t.registered == s.registered
            && (forall r | r in s.robots ::
                  && r in t.robots
                  && t.robots[r].hasReal == s.robots[r].hasReal && t.robots[r].serial == s.robots[r].serial)
  {
    hide RobotForPlayer;
  }

  lemma RegisterKeepsInjective(s: State, id: string)
    requires Injective(s)
    ensures var t := WithRegistration(s, id);
            && Injective(t)
            && (forall k | k in s.registered ::
                  && k in t.registered && t.registered[k] == s.registered[k]
                  && t.robots[t.registered[k]].serial == s.robots[s.registered[k]].serial)
  {
    var t := WithRegistration(s, id);
    if id !in s.registered && id in t.registered {
      assert Unregistered(s, t.registered[id]);
    }
  }

  lemma {:induction false} RegistrationsAreStable(s: State, ops: seq<Op>)
    requires Injective(s) && forall k | 0 <= k < |ops| :: KeepsRobots(ops[k])
    ensures var t := Run(s, ops);
            && Injective(t)
            && (forall id | id in s.registered ::
                  && id in t.registered && t.registered[id] == s.registered[id]
                  && t.robots[t.registered[id]].serial == s.robots[s.registered[id]].serial)
  {
    hide Apply, Injective;
    if ops != [] {
      RegistrationsAreStable(s, ops[..|ops| - 1]);
      KeepsInjective(Run(s, ops[..|ops| - 1]), ops[|ops| - 1]);
    }
  }

  // ----- When two ids share a robot

  ghost predicate DistinctRegistrations(s: State) {
    forall a, b | a in s.registered && b in s.registered && a != b :: s.registered[a] != s.registered[b]
  }

  /** A new id is given the robot that another id already names. */
  ghost predicate Shares(s: State, id: string) {
    id !in s.registered && exists k :: k in s.registered && Text.FirstOf(UnregisteredRobots(s)) == Some(s.registered[k])
  }

  /**
   Registering keeps the registrations distinct if and only if the first unregistered robot
   is not one that a registered id names. Such a robot may have been unregistered by an
   agent, or removed and then added again.
   */
  lemma RegisteringKeepsDistinct(s: State, id: string)
    requires DistinctRegistrations(s)
    ensures DistinctRegistrations(WithRegistration(s, id)) <==> !Shares(s, id)
  {
    hide UnregisteredRobots;
    var t := WithRegistration(s, id);
    if Shares(s, id) {
      var k :| k in s.registered && Text.FirstOf(UnregisteredRobots(s)) == Some(s.registered[k]);
      assert t.registered[k] == t.registered[id];
    } else if id in s.registered {
      assert t.registered == s.registered;
    }
  }

  /** A registration is never taken back or changed. */
  lemma RegistrationsStay(s: State, op: Op, id: string)
    requires id in s.registered
    ensures id in Apply(s, op).registered && Apply(s, op).registered[id] == s.registered[id]
  {
    hide RobotForPlayer, FreshIds.NewId, Ids;
  }

  lemma OthersKeepDistinct(s: State, op: Op)
    requires !op.Register?
    ensures Apply(s, op).registered == s.registered
  {
    hide RobotForPlayer, FreshIds.NewId, Ids;
  }

  lemma SharingStays(s: State, op: Op)
    requires !DistinctRegistrations(s)
    ensures !DistinctRegistrations(Apply(s, op))
  {
    hide Apply;
    var a, b :| a in s.registered && b in s.registered && a != b && s.registered[a] == s.registered[b];
    RegistrationsStay(s, op, a);
    RegistrationsStay(s, op, b);
  }

  ghost predicate SharedAt(s: State, ops: seq<Op>, k: nat)
    requires k < |ops|
  {
    ops[k].Register? && Shares(Run(s, ops[..k]), ops[k].temporaryId)
  }

  /** Over every run whatever: the ids have robots of their own if and only if none was given a named one. */
  lemma {:induction false} RegistrationsStayDistinct(s: State, ops: seq<Op>)
    requires DistinctRegistrations(s)
    ensures DistinctRegistrations(Run(s, ops)) <==> forall k | 0 <= k < |ops| :: !SharedAt(s, ops, k)
  {
    hide Apply, DistinctRegistrations, Shares;
    if ops != [] {
      var n := |ops| - 1;
      RegistrationsStayDistinct(s, ops[..n]);
      assert forall k | 0 <= k < n :: ops[..n][..k] == ops[..k];
      assert forall k | 0 <= k < n :: SharedAt(s, ops, k) <==> SharedAt(s, ops[..n], k);
      DistinctNext(Run(s, ops[..n]), ops[n]);
      assert SharedAt(s, ops, n) <==> ops[n].Register? && Shares(Run(s, ops[..n]), ops[n].temporaryId);
    }
  }

  lemma DistinctNext(s: State, op: Op)
    ensures DistinctRegistrations(Apply(s, op)) <==>
              DistinctRegistrations(s) && !(op.Register? && Shares(s, op.temporaryId))
  {
    hide WithRegistration, AfterHello, WithRobot, Shares, DistinctRegistrations;
    if !DistinctRegistrations(s) {
      SharingStays(s, op);
    } else if op.Register? {
      RegisteringKeepsDistinct(s, op.temporaryId);
    } else {
      OthersKeepDistinct(s, op);
      SameDistinct(s, Apply(s, op));
    }
  }

  lemma SameDistinct(s: State, t: State)
    requires s.registered == t.registered
    ensures DistinctRegistrations(s) <==> DistinctRegistrations(t)
  {
  }

  /** A registered robot that has come to be unregistered is named again once it comes first. */
  lemma NamedRobotFirst(s: State, u: State, known: string, latest: string)
    requires Injective(s) && known in s.registered && latest !in s.registered && u.registered == s.registered
    requires UnregisteredRobots(u) == UnregisteredRobots(s) + {s.registered[known]}
    ensures !DistinctRegistrations(WithRegistration(u, latest)) <==>
              forall r | Unregistered(s, r) :: Text.Less(s.registered[known], r)
  {
    var robot := s.registered[known];
    var first := Text.FirstOf(UnregisteredRobots(u)).value;
    RegisteringKeepsDistinct(u, latest);
    if forall r | Unregistered(s, r) :: Text.Less(robot, r) {
      Text.LeastIsUnique(first, robot, UnregisteredRobots(u));
      assert u.registered[known] == first;
    }
  }

  /** In particular after an agent has unregistered a robot. */
  lemma UnregisteringSharesRobots(s: State, known: string, latest: string)
    requires Injective(s) && known in s.registered && latest !in s.registered
    ensures var robot := s.registered[known];
            var u := Apply(s, SetRegistered(robot, false));
            !DistinctRegistrations(WithRegistration(u, latest)) <==>
              forall r | Unregistered(s, r) :: Text.Less(robot, r)
  {
    hide WithRegistration;
    var u := Apply(s, SetRegistered(s.registered[known], false));
    assert UnregisteredRobots(u) == UnregisteredRobots(s) + {s.registered[known]};
    NamedRobotFirst(s, u, known, latest);
  }

  /** And after a registered robot has been removed and one of its name added. */
  lemma ReplacingSharesRobots(s: State, known: string, latest: string, team: string, id: string)
    requires Injective(s) && known in s.registered && latest !in s.registered && team in s.teams
    ensures var robot := s.registered[known];
            var u := Apply(Apply(s, RemoveRobot(robot)), AddRobot(robot, team, id));
            !DistinctRegistrations(WithRegistration(u, latest)) <==>
              forall r | Unregistered(s, r) :: Text.Less(robot, r)
  {
    hide FreshIds.NewId, Ids, WithRegistration;
    var robot := s.registered[known];
    var u := Apply(Apply(s, RemoveRobot(robot)), AddRobot(robot, team, id));
    assert UnregisteredRobots(u) == UnregisteredRobots(s) + {robot};
    NamedRobotFirst(s, u, known, latest);
  }

  // ----- Hellos

  /** The players that say hello, among operations that make no robot available or unavailable. */
  predicate GreetsOrAdds(op: Op) {
    op.Hello? || op.AddPlayer? || op.AddTeam? || op.AddRobot?
  }

  function NamesOf(ops: seq<Op>): seq<string> {
    if ops == [] then []
    else
      var last := ops[|ops| - 1];
      NamesOf(ops[..|ops| - 1]) + if last.Hello? then [last.player] else []
  }

  function WaitingRobots(s: State): seq<string> {
    Text.SortedKeys(AvailableRobots(s))
  }

  /**
   The first m of the waiting robots have got a player, and no other robot has changed; new
   ones are neither registered nor held.
   */
  ghost predicate Taken(s: State, t: State, waiting: seq<string>, m: nat)
    requires m <= |waiting|
  {
    && s.robots.Keys <= t.robots.Keys
    && (forall r | r in s.robots :: t.robots[r].hasReal == s.robots[r].hasReal)
    && (forall r | r in s.robots && r !in waiting[..m] :: t.robots[r] == s.robots[r])
    && (forall r | r in s.robots :: HasPlayer(t, r) <==> HasPlayer(s, r) || r in waiting[..m])
    && (forall r | r in t.robots && r !in s.robots :: !t.robots[r].hasReal && t.robots[r].player == None)
  }

  /** The first arrivals hold the first waiting robots, one each; the later ones hold none. */
  ghost predicate Seated(t: State, arrivals: seq<string>, waiting: seq<string>) {
    var m := Least(|arrivals|, |waiting|);
    && (forall i | 0 <= i < |arrivals| :: arrivals[i] in t.players)
    && (forall i | 0 <= i < m :: HeldBy(t, waiting[i], arrivals[i]))
    && (forall i, r | m <= i < |arrivals| && r in t.robots :: !HeldBy(t, r, arrivals[i]))
  }

  ghost predicate HeldInOrder(s: State, t: State, arrivals: seq<string>, waiting: seq<string>) {
    Seated(t, arrivals, waiting) && Taken(s, t, waiting, Least(|arrivals|, |waiting|))
  }

  ghost predicate HoldsNone(s: State, player: string) {
    forall r | r in s.robots :: !HeldBy(s, r, player)
  }

  lemma NextWaiting(s: State, t: State, m: nat)
    requires m <= |WaitingRobots(s)| && Taken(s, t, WaitingRobots(s), m)
    ensures var waiting := WaitingRobots(s);
            AvailableRobot(t) == if m < |waiting| then Some(waiting[m]) else None
  {
    var waiting := WaitingRobots(s);
    forall k ensures k in AvailableRobots(t) <==> k in waiting && k !in waiting[..m] {
      assert k in waiting <==> k in AvailableRobots(s);
    }
    FirstOfTheRest(waiting, m, AvailableRobots(t));
  }

  lemma WaitingExists(s: State, m: nat)
    requires m < |WaitingRobots(s)|
    ensures WaitingRobots(s)[m] in s.robots && Available(s, WaitingRobots(s)[m])
  {
    assert WaitingRobots(s)[m] in AvailableRobots(s);
  }

  lemma WaitingIncreases(s: State)
    ensures Text.Increasing(WaitingRobots(s))
  {
  }

  /** A player that holds a robot changes nothing by saying hello again. */
  lemma HelloTwice(t: State, player: string, robot: string)
    requires Matching.Matched(t) && HeldBy(t, robot, player)
    ensures AfterHello(t, player) == t
  {
    hide Welcomed, RobotForPlayer;
    Matching.HolderWelcomes(t, player, robot);
    WelcomedBy(t, player);
    assert WithPlayer(t, player) == t;
    assert t.robots[robot := t.robots[robot].(player := Some(PlayerRef(player, t.players[player].serial)))] == t.robots;
    assert t.players[player := t.players[player].(robot := Some(t.robots[robot].serial))] == t.players;
  }

  lemma WelcomedBy(t: State, player: string)
    ensures Welcomed(t, player) == RobotForPlayer(WithPlayer(t, player), player)
  {
  }

  lemma HelloInVain(t: State, player: string)
    requires player in t.players && HoldsNone(t, player) && AvailableRobot(t) == None
    ensures AfterHello(t, player) == t
  {
    assert Holders(t, player) == {};
  }

  /** A player without a robot is given the first one that waits. */
  lemma FirstHello(t: State, player: string)
    requires Matching.Matched(t) && HoldsNone(t, player)
    ensures Welcomed(t, player) == AvailableRobot(t)
    ensures var u := AfterHello(t, player);
            && player in u.players
            && (AvailableRobot(t).None? ==> u == WithPlayer(t, player))
            && (AvailableRobot(t).Some? ==> u == Link(WithPlayer(t, player), player, AvailableRobot(t).value))
  {
    hide Matching.Matched;
    Matching.WithPlayerKeeps(t, player);
    var known := WithPlayer(t, player);
    assert Holders(known, player) == {} by {
      forall r | r in known.robots ensures !HeldBy(known, r, player) {
        assert !HeldBy(t, r, player);
        assert HasPlayer(known, r) <==> HasPlayer(t, r);
      }
    }
    assert AvailableRobots(known) == AvailableRobots(t);
  }

  lemma HelloOne(s: State, t: State, arrivals: seq<string>, name: string)
    requires Matching.Matched(t) && HeldInOrder(s, t, arrivals, WaitingRobots(s))
    requires HoldsNone(s, name) && name !in arrivals
    ensures HeldInOrder(s, AfterHello(t, name), arrivals + [name], WaitingRobots(s))
  {
    hide WaitingRobots, Matching.Matched, AvailableRobot, Taken, Seated, AfterHello, WithPlayer, Link;
    var waiting := WaitingRobots(s);
    var m := Least(|arrivals|, |waiting|);
    var u := AfterHello(t, name);
    NewcomerHoldsNone(s, t, arrivals, waiting, name);
    NextWaiting(s, t, m);
    FirstHello(t, name);
    Matching.WithPlayerKeeps(t, name);
    if m < |waiting| {
      WaitingExists(s, m);
      TakeOne(s, t, waiting, m, name);
      WaitingIncreases(s);
      SeatOne(s, t, arrivals, waiting, name);
    } else {
      KnowOne(s, t, arrivals, waiting, name);
    }
  }

  lemma NewcomerHoldsNone(s: State, t: State, arrivals: seq<string>, waiting: seq<string>, name: string)
    requires HeldInOrder(s, t, arrivals, waiting) && HoldsNone(s, name) && name !in arrivals
    ensures HoldsNone(t, name)
  {
    var m := Least(|arrivals|, |waiting|);
    forall r | r in t.robots ensures !HeldBy(t, r, name) {
      if r in waiting[..m] {
        var i :| 0 <= i < m && waiting[i] == r;
        assert HeldBy(t, r, arrivals[i]);
      } else {
        assert !HeldBy(s, r, name);
        assert HasPlayer(t, r) <==> HasPlayer(s, r);
      }
    }
  }

  lemma LinkTakes(s: State, player: string, robot: string)
    requires player in s.players && robot in s.robots
    ensures var t := Link(s, player, robot);
            && t.robots.Keys == s.robots.Keys
            && HeldBy(t, robot, player)
            && t.robots[robot].hasReal == s.robots[robot].hasReal
            && (forall r | r in s.robots && r != robot :: t.robots[r] == s.robots[r])
            && (forall r | r in s.robots && r != robot :: HasPlayer(t, r) <==> HasPlayer(s, r))
  {
  }

  lemma TakeOne(s: State, t: State, waiting: seq<string>, m: nat, name: string)
    requires Matching.Matched(t) && m < |waiting| && waiting[m] in s.robots && Taken(s, t, waiting, m)
    ensures Taken(s, Link(WithPlayer(t, name), name, waiting[m]), waiting, m + 1)
    ensures HeldBy(Link(WithPlayer(t, name), name, waiting[m]), waiting[m], name)
  {
    hide Matching.Matched, Link, HasPlayer, HeldBy;
    Matching.WithPlayerKeeps(t, name);
    var known := WithPlayer(t, name);
    assert waiting[..m + 1] == waiting[..m] + [waiting[m]];
    LinkTakes(known, name, waiting[m]);
  }

  lemma SeatOne(s: State, t: State, arrivals: seq<string>, waiting: seq<string>, name: string)
    requires Matching.Matched(t) && Seated(t, arrivals, waiting) && |arrivals| < |waiting|
    requires waiting[|arrivals|] in t.robots && Text.Increasing(waiting)
    requires HeldBy(Link(WithPlayer(t, name), name, waiting[|arrivals|]), waiting[|arrivals|], name)
    ensures Seated(Link(WithPlayer(t, name), name, waiting[|arrivals|]), arrivals + [name], waiting)
  {
    hide Matching.Matched;
    Matching.WithPlayerKeeps(t, name);
    Text.IncreasingDistinct(waiting);
    var known := WithPlayer(t, name);
    var u := Link(known, name, waiting[|arrivals|]);
    forall i | 0 <= i < |arrivals| ensures HeldBy(u, waiting[i], arrivals[i]) {
      assert HasPlayer(known, waiting[i]);
    }
  }

  lemma KnowOne(s: State, t: State, arrivals: seq<string>, waiting: seq<string>, name: string)
    requires Matching.Matched(t) && HeldInOrder(s, t, arrivals, waiting) && |waiting| <= |arrivals|
    requires HoldsNone(t, name)
    ensures HeldInOrder(s, WithPlayer(t, name), arrivals + [name], waiting)
  {
    hide Matching.Matched;
    Matching.WithPlayerKeeps(t, name);
    var u := WithPlayer(t, name);
    forall r | r in u.robots ensures !HeldBy(u, r, name) {
      assert !HeldBy(t, r, name);
      assert HasPlayer(u, r) <==> HasPlayer(t, r);
    }
    forall i, r | |waiting| <= i < |arrivals| && r in u.robots ensures !HeldBy(u, r, arrivals[i]) {
      assert HasPlayer(u, r) <==> HasPlayer(t, r);
    }
    forall i | 0 <= i < |waiting| ensures HeldBy(u, waiting[i], arrivals[i]) {
      assert HasPlayer(u, waiting[i]) <==> HasPlayer(t, waiting[i]);
    }
  }

  lemma HelloAgain(s: State, t: State, arrivals: seq<string>, name: string)
    requires Matching.Matched(t) && HeldInOrder(s, t, arrivals, WaitingRobots(s)) && name in arrivals
    ensures AfterHello(t, name) == t
  {
    hide WaitingRobots, AvailableRobot, AfterHello, Taken, Matching.Matched;
    var waiting := WaitingRobots(s);
    var m := Least(|arrivals|, |waiting|);
    var i :| 0 <= i < |arrivals| && arrivals[i] == name;
    if i < m {
      HelloTwice(t, name, waiting[i]);
    } else {
      NextWaiting(s, t, m);
      HelloInVain(t, name);
    }
  }

  lemma AddOne(s: State, t: State, arrivals: seq<string>, waiting: seq<string>, op: Op)
    requires Matching.Matched(t) && HeldInOrder(s, t, arrivals, waiting) && GreetsOrAdds(op) && !op.Hello?
    ensures HeldInOrder(s, Apply(t, op), arrivals, waiting)
  {
    hide Matching.Matched, HeldInOrder, WithPlayer, WithRobot;
    match op
    case AddPlayer(player) => AddPlayerOne(s, t, arrivals, waiting, player);
    case AddRobot(robot, team, id) => AddRobotOne(s, t, arrivals, waiting, robot, team, id);
    case AddTeam(team) => AddTeamOne(s, t, arrivals, waiting, team);
  }

  /** The same robots held by the same players, and perhaps more that nobody holds. */
  ghost predicate Unmoved(t: State, u: State) {
    && t.robots.Keys <= u.robots.Keys && t.players.Keys <= u.players.Keys
    && (forall r | r in t.robots :: u.robots[r] == t.robots[r] && (HasPlayer(u, r) <==> HasPlayer(t, r)))
    && (forall r | r in u.robots && r !in t.robots :: !u.robots[r].hasReal && u.robots[r].player == None)
  }

  lemma UnmovedKeepsOrder(s: State, t: State, u: State, arrivals: seq<string>, waiting: seq<string>)
    requires HeldInOrder(s, t, arrivals, waiting) && Unmoved(t, u)
    ensures HeldInOrder(s, u, arrivals, waiting)
  {
    hide HasPlayer;
    var m := Least(|arrivals|, |waiting|);
    forall i | 0 <= i < m ensures HeldBy(u, waiting[i], arrivals[i]) {
      assert HeldBy(t, waiting[i], arrivals[i]);
      HeldExists(t, waiting[i], arrivals[i]);
    }
    forall i, r | m <= i < |arrivals| && r in u.robots ensures !HeldBy(u, r, arrivals[i]) {
      if r in t.robots {
        assert !HeldBy(t, r, arrivals[i]);
      } else {
        NobodyHolds(u, r, arrivals[i]);
      }
    }
  }

  lemma HeldExists(t: State, robot: string, player: string)
    requires HeldBy(t, robot, player)
    ensures robot in t.robots
  {
  }

  lemma NobodyHolds(t: State, robot: string, player: string)
    requires robot in t.robots && t.robots[robot].player == None
    ensures !HeldBy(t, robot, player)
  {
  }

  lemma AddPlayerOne(s: State, t: State, arrivals: seq<string>, waiting: seq<string>, player: string)
    requires Matching.Matched(t) && HeldInOrder(s, t, arrivals, waiting)
    ensures HeldInOrder(s, WithPlayer(t, player), arrivals, waiting)
  {
    hide Matching.Matched, HeldInOrder, HasPlayer;
    Matching.WithPlayerKeeps(t, player);
    UnmovedKeepsOrder(s, t, WithPlayer(t, player), arrivals, waiting);
  }

  lemma AddRobotOne(s: State, t: State, arrivals: seq<string>, waiting: seq<string>,
                    robot: string, team: string, id: string)
    requires HeldInOrder(s, t, arrivals, waiting)
    ensures HeldInOrder(s, WithRobot(t, robot, team, id), arrivals, waiting)
  {
    hide HeldInOrder, FreshIds.NewId, Ids;
    UnmovedKeepsOrder(s, t, WithRobot(t, robot, team, id), arrivals, waiting);
  }

  lemma AddTeamOne(s: State, t: State, arrivals: seq<string>, waiting: seq<string>, team: string)
    requires HeldInOrder(s, t, arrivals, waiting)
    ensures HeldInOrder(s, t.(teams := t.teams + {team}), arrivals, waiting)
  {
    hide HeldInOrder;
    UnmovedKeepsOrder(s, t, t.(teams := t.teams + {team}), arrivals, waiting);
  }

  /**
   From any reachable state, however often each of k players without a robot says hello, and
   whatever teams, players and robots are added in between, exactly the first min(k, n) of
   the n waiting robots get a player, in name order, by order of arrival; everything about
   the other robots is as before.
   */
  lemma {:induction false} RobotsAreHandedOutInOrder(s: State, ops: seq<Op>)
    requires Matching.Matched(s) && forall k | 0 <= k < |ops| :: GreetsOrAdds(ops[k])
    requires forall n | n in NamesOf(ops) :: HoldsNone(s, n)
    ensures HeldInOrder(s, Run(s, ops), Arrivals(NamesOf(ops)), WaitingRobots(s))
  {
    hide HeldInOrder, Apply, WaitingRobots, Matching.Matched, HoldsNone;
    if ops == [] {
      NobodySeated(s);
    } else {
      var most := ops[..|ops| - 1];
      RobotsAreHandedOutInOrder(s, most);
      Matching.AlwaysMatched(s, most);
      GreetOrAddOne(s, Run(s, most), NamesOf(most), ops[|ops| - 1]);
    }
  }

  /** One operation more. */
  lemma GreetOrAddOne(s: State, t: State, names: seq<string>, op: Op)
    requires Matching.Matched(t) && GreetsOrAdds(op) && (op.Hello? ==> HoldsNone(s, op.player))
    requires HeldInOrder(s, t, Arrivals(names), WaitingRobots(s))
    ensures var more := names + if op.Hello? then [op.player] else [];
            HeldInOrder(s, Apply(t, op), Arrivals(more), WaitingRobots(s))
  {
    hide HeldInOrder, AfterHello, Apply, WaitingRobots, Matching.Matched, HoldsNone;
    if !op.Hello? {
      assert names + [] == names;
      AddOne(s, t, Arrivals(names), WaitingRobots(s), op);
    } else {
      assert (names + [op.player])[..|names|] == names;
      HelloIsAfterHello(t, op.player);
      if op.player in names {
        HelloAgain(s, t, Arrivals(names), op.player);
      } else {
        HelloOne(s, t, Arrivals(names), op.player);
      }
    }
  }

  lemma HelloIsAfterHello(t: State, player: string)
    ensures Apply(t, Hello(player)) == AfterHello(t, player)
  {
    hide AfterHello;
  }

  lemma NobodySeated(s: State)
    ensures HeldInOrder(s, s, [], WaitingRobots(s))
  {
  }
}
