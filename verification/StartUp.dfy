/**
 A server as it is configured: its items, its teams, and its robots with the ids of the
 configuration. It meets all that the theorems about running servers assume of their start.
 */
module StartUp {
  import opened Options
  import opened Messages
  import opened Addressing
  import R = Round
  import Ro = Roster
  import D = Detector
  import Si = Sightings
  import ItemIndex
  import Channels
  import FreshIds
  import Lifecycle
  import Matching
  import Scores
  import Serving
  import Witness

  datatype RobotEntry = RobotEntry(id: string, name: string, team: string)

  /** The game with its items, which could as well come last. */
  function NewWorld(rules: R.Rules, duration: int, now: int, items: seq<ItemIndex.Request>): World {
    var index := ItemIndex.CreateAll(items);
    World(Si.Sensors(R.NewGame(rules, duration, |index.all|, now), map[], index.byRfid, index.byColour), Ro.EMPTY)
  }

  function TeamActs(teams: seq<string>): seq<Act> {
    seq(|teams|, k requires 0 <= k < |teams| => Asked(AddTeam(teams[k]), 0))
  }

  function RobotActs(robots: seq<RobotEntry>): seq<Act> {
    seq(|robots|, k requires 0 <= k < |robots| => Addressing.Configured(robots[k].name, robots[k].team, robots[k].id))
  }

  /** The robots are the entries of a map by id, and no id is empty. */
  ghost predicate ProperRobots(robots: seq<RobotEntry>) {
    && (forall k | 0 <= k < |robots| :: robots[k].id != "")
    && (forall j, k | 0 <= j < k < |robots| :: robots[j].id != robots[k].id)
  }

  lemma NewWorldIsValid(rules: R.Rules, duration: int, now: int, items: seq<ItemIndex.Request>)
    ensures Messages.Valid(NewWorld(rules, duration, now, items))
  {
    var index := ItemIndex.CreateAll(items);
    forall rfid | rfid in index.byRfid ensures index.byRfid[rfid] < |index.all| {
      ItemIndex.IndexesAgreeWithScans(items, rfid, 0);
    }
    ItemIndex.IndexesAgreeWithScans(items, "", 0);
  }

  /** Nothing has happened yet. */
  ghost predicate Untouched(w: World) {
    var s := w.sensed.round;
    && !s.running && s.winner == None && s.contacts == map[] && s.log == []
    && (forall i | 0 <= i < |s.items| :: s.items[i] == R.FRESH_ITEM)
    && (forall t | t in s.scores :: s.scores[t] == 0)
    && (forall rid | rid in w.sensed.detectors :: w.sensed.detectors[rid] == D.INITIAL)
  }

  /** An act of the configuration. */
  predicate SetsUp(act: Act) {
    act.Configured? || (act.Asked? && act.command.AddTeam?)
  }

  lemma StaysUntouched(w: World, act: Act)
    requires Messages.Valid(w) && Untouched(w) && SetsUp(act)
    ensures Untouched(Do(w, act))
  {
    hide Si.Valid, Si.Take, Do, FreshIds.NewId, Ro.Ids, Untouched;
    DoTakes(w, act);
    var inputs := ActInputs(w, act);
    TakeNothing(w.sensed);
    if inputs != [] {
      TakeOne(w.sensed, inputs[0]);
      assert inputs == [inputs[0]];
      TakenUntouched(w, Do(w, act), inputs[0].op);
    } else {
      SameUntouched(w, Do(w, act));
    }
  }

  lemma SameUntouched(w: World, v: World)
    requires Untouched(w) && v.sensed == w.sensed
    ensures Untouched(v)
  {
  }

  lemma TakenUntouched(w: World, v: World, op: R.Op)
    requires Messages.Valid(w) && Untouched(w) && (op.AddTeam? || op.AddRobot?)
    requires v.sensed == Si.Take(w.sensed, Si.Other(op))
    ensures Untouched(v)
  {
    hide Si.Valid;
  }

  lemma MatchedStays(w: World, act: Act)
    requires Messages.Valid(w) && Matching.Matched(w.roster) && SetsUp(act)
    ensures Matching.Matched(Do(w, act).roster)
  {
    hide Si.Valid, Si.TakeAll, Matching.Matched, Ro.WithRobot;
    if act.Configured? {
      Matching.WithRobotKeeps(w.roster, act.robot, act.team, act.id);
    } else {
      Matching.ApplyKeeps(w.roster, Ro.AddTeam(act.command.team));
    }
  }

  /** All of it. */
  ghost predicate Fresh(w: World) {
    Untouched(w) && Agree(w) && Matching.Matched(w.roster)
  }

  lemma {:induction false} SettingUpKeepsFresh(w: World, acts: seq<Act>)
    requires Messages.Valid(w) && Fresh(w) && forall k | 0 <= k < |acts| :: SetsUp(acts[k])
    ensures Fresh(DoAll(w, acts))
  {
    hide Messages.Valid, Do, Untouched, Agree, Matching.Matched;
    if acts != [] {
      var most, last := acts[..|acts| - 1], acts[|acts| - 1];
      SettingUpKeepsFresh(w, most);
      StaysUntouched(DoAll(w, most), last);
      AgreeStays(DoAll(w, most), last);
      MatchedStays(DoAll(w, most), last);
    }
  }

  // ----- Ids

  /** Robots already added have the ids of entries already read. */
  ghost predicate IdsFrom(s: Ro.State, robots: seq<RobotEntry>) {
    forall r | r in s.robots :: exists k :: 0 <= k < |robots| && robots[k].id == s.robots[r].id
  }

  lemma {:induction false} ConfiguredIdsDistinct(w: World, robots: seq<RobotEntry>)
    requires Messages.Valid(w) && w.roster.robots == map[] && ProperRobots(robots)
    ensures var s := DoAll(w, RobotActs(robots)).roster;
            Matching.DistinctIds(s) && IdsFrom(s, robots)
  {
    hide Messages.Valid, Do, Matching.DistinctIds, Ro.Ids;
    if robots == [] {
      assert RobotActs(robots) == [];
      NoRobots(w.roster);
    } else {
      var n := |robots| - 1;
      var most, last := robots[..n], robots[n];
      ConfiguredIdsDistinct(w, most);
      assert RobotActs(robots) == RobotActs(most) + [Addressing.Configured(last.name, last.team, last.id)];
      var before := DoAll(w, RobotActs(most));
      DoMore(w, RobotActs(most), Addressing.Configured(last.name, last.team, last.id));
      OneMoreId(before, robots);
    }
  }

  lemma NoRobots(s: Ro.State)
    requires s.robots == map[]
    ensures Matching.DistinctIds(s)
  {
  }

  lemma OneMoreId(w: World, robots: seq<RobotEntry>)
    requires Messages.Valid(w) && robots != [] && ProperRobots(robots)
    requires Matching.DistinctIds(w.roster) && IdsFrom(w.roster, robots[..|robots| - 1])
    ensures var last := robots[|robots| - 1];
            var s := Do(w, Addressing.Configured(last.name, last.team, last.id)).roster;
            Matching.DistinctIds(s) && IdsFrom(s, robots)
  {
    hide Si.Valid, Si.TakeAll, Matching.DistinctIds;
    var n := |robots| - 1;
    var last := robots[n];
    var s := w.roster;
    Matching.AddRobotKeepsIdsDistinct(s, last.name, last.team, last.id);
    forall r | r in s.robots ensures s.robots[r].id != last.id {
      var k :| 0 <= k < n && robots[..n][k].id == s.robots[r].id;
      assert robots[k].id == s.robots[r].id;
    }
    var t := Ro.WithRobot(s, last.name, last.team, last.id);
    forall r | r in t.robots ensures exists k :: 0 <= k < |robots| && robots[k].id == t.robots[r].id {
      if r in s.robots {
        var k :| 0 <= k < n && robots[..n][k].id == s.robots[r].id;
        assert robots[k].id == t.robots[r].id;
      } else {
        assert robots[n].id == t.robots[r].id;
      }
    }
  }

  // ----- What is configured is there

  ghost predicate KnownFrom(w: World, robots: seq<RobotEntry>) {
    forall rid | rid in w.sensed.round.robots :: exists k :: 0 <= k < |robots| && robots[k].id == rid
  }

  /** The entry's team is there, and no entry before it has its name and a team that is there. */
  ghost predicate Counts(teams: set<string>, robots: seq<RobotEntry>, k: nat)
    requires k < |robots|
  {
    && robots[k].team in teams
    && forall j | 0 <= j < k && robots[j].team in teams :: robots[j].name != robots[k].name
  }

  /** The robot of the entry is in the roster, and its id leads to its team. */
  ghost predicate IsThere(w: World, e: RobotEntry) {
    && e.name in w.roster.robots
    && w.roster.robots[e.name].id == e.id && w.roster.robots[e.name].team == e.team
    && w.roster.robots[e.name].hasReal == false && w.roster.robots[e.name].player == None
    && OwnTeam(w, e.name)
  }

  ghost predicate NamesFrom(w: World, teams: set<string>, robots: seq<RobotEntry>) {
    forall r | r in w.roster.robots ::
      exists k :: 0 <= k < |robots| && robots[k].name == r && robots[k].team in teams
  }

  lemma OneMoreRobot(w: World, robots: seq<RobotEntry>, e: RobotEntry)
    requires Messages.Valid(w) && Agree(w) && KnownFrom(w, robots) && NamesFrom(w, w.roster.teams, robots)
    requires e.id != "" && forall k | 0 <= k < |robots| :: robots[k].id != e.id
    ensures var t := Do(w, Addressing.Configured(e.name, e.team, e.id));
            && Agree(t) && t.roster.teams == w.roster.teams
            && KnownFrom(t, robots + [e]) && NamesFrom(t, t.roster.teams, robots + [e])
            && (e.team in w.roster.teams && e.name !in w.roster.robots ==> IsThere(t, e))
            && forall d | IsThere(w, d) :: IsThere(t, d)
  {
    hide Si.Valid, Si.TakeAll, Si.Take, Do, Agree, FreshIds.NewId, Ro.Ids, OwnTeam, KnownFrom, NamesFrom;
    var act := Addressing.Configured(e.name, e.team, e.id);
    var t := Do(w, act);
    AgreeStays(w, act);
    RosterTeams(w, act);
    assert w.roster.teams + {} == w.roster.teams;
    OneMoreKnown(w, robots, e);
    OneMoreName(w, robots, e);
    RosterIsAdded(w, e);
    if e.team in w.roster.teams && e.name !in w.roster.robots {
      NotMisdirected(w, robots, e);
      AddedToOwnTeam(w, act, e.name);
    }
    forall d | IsThere(w, d) ensures IsThere(t, d) {
      OwnTeamIsKnown(w, d.name);
      OwnTeamStays(w, act, d.name);
    }
  }

  lemma OwnTeamIsKnown(w: World, robot: string)
    requires robot in w.roster.robots && OwnTeam(w, robot)
    ensures w.roster.robots[robot].id in w.sensed.round.robots
  {
  }

  lemma NotMisdirected(w: World, robots: seq<RobotEntry>, e: RobotEntry)
    requires KnownFrom(w, robots) && forall k | 0 <= k < |robots| :: robots[k].id != e.id
    requires e.id != ""
    ensures !Misdirects(w, Addressing.Configured(e.name, e.team, e.id), e.name)
    ensures e.team in w.roster.teams && e.name !in w.roster.robots ==>
              Adds(w, Addressing.Configured(e.name, e.team, e.id), e.name) == Some((e.team, e.id))
  {
    hide FreshIds.NewId, Ro.Ids;
    forall rid | rid in w.sensed.round.robots ensures rid != e.id {
      var k :| 0 <= k < |robots| && robots[k].id == rid;
    }
  }

  lemma RosterIsAdded(w: World, e: RobotEntry)
    requires Messages.Valid(w) && e.id != ""
    ensures var t := Do(w, Addressing.Configured(e.name, e.team, e.id)).roster.robots;
            && (forall r | r in w.roster.robots :: r in t && t[r] == w.roster.robots[r])
            && (e.team in w.roster.teams && e.name !in w.roster.robots ==>
                  e.name in t && t[e.name] == Ro.RobotState(w.roster.next, e.id, e.team, false, None))
  {
    hide Si.Valid, Si.TakeAll, FreshIds.NewId, Ro.Ids;
  }

  lemma OneMoreKnown(w: World, robots: seq<RobotEntry>, e: RobotEntry)
    requires Messages.Valid(w) && KnownFrom(w, robots) && e.id != ""
    ensures KnownFrom(Do(w, Addressing.Configured(e.name, e.team, e.id)), robots + [e])
  {
    hide Si.Valid, Si.TakeAll, Si.Take, Do, FreshIds.NewId, Ro.Ids;
    var act := Addressing.Configured(e.name, e.team, e.id);
    var t := Do(w, act);
    DoTakes(w, act);
    TakeNothing(w.sensed);
    TakeOne(w.sensed, Si.Other(R.AddRobot(e.id, e.team)));
    Si.RobotsAfter(w.sensed.round, R.AddRobot(e.id, e.team));
    TakenRobots(w.sensed, e);
    forall rid | rid in t.sensed.round.robots
      ensures exists k :: 0 <= k < |robots + [e]| && (robots + [e])[k].id == rid
    {
      if rid in w.sensed.round.robots {
        var k :| 0 <= k < |robots| && robots[k].id == rid;
        assert (robots + [e])[k].id == rid;
      } else {
        assert (robots + [e])[|robots|].id == rid;
      }
    }
  }

  lemma TakenRobots(s: Si.Sensors, e: RobotEntry)
    requires Si.Valid(s)
    ensures Si.Take(s, Si.Other(R.AddRobot(e.id, e.team))).round == R.Apply(s.round, R.AddRobot(e.id, e.team))
  {
    hide R.Apply;
  }

  lemma OneMoreName(w: World, robots: seq<RobotEntry>, e: RobotEntry)
    requires Messages.Valid(w) && NamesFrom(w, w.roster.teams, robots)
    ensures NamesFrom(Do(w, Addressing.Configured(e.name, e.team, e.id)), w.roster.teams, robots + [e])
  {
    hide Si.Valid, Si.TakeAll, FreshIds.NewId, Ro.Ids;
    var t := Do(w, Addressing.Configured(e.name, e.team, e.id));
    forall r | r in t.roster.robots
      ensures exists k :: 0 <= k < |robots + [e]| && (robots + [e])[k].name == r
                          && (robots + [e])[k].team in w.roster.teams
    {
      if r in w.roster.robots {
        var k :| 0 <= k < |robots| && robots[k].name == r && robots[k].team in w.roster.teams;
        assert (robots + [e])[k].name == r;
      } else {
        assert (robots + [e])[|robots|].name == r;
      }
    }
  }

  ghost predicate AllThere(w: World, teams: set<string>, robots: seq<RobotEntry>) {
    forall k | 0 <= k < |robots| && Counts(teams, robots, k) :: IsThere(w, robots[k])
  }

  lemma {:induction false} RobotsAreThere(w: World, robots: seq<RobotEntry>)
    requires Messages.Valid(w) && Agree(w) && ProperRobots(robots)
    requires w.roster.robots == map[] && w.sensed.round.robots == map[]
    ensures var t := DoAll(w, RobotActs(robots));
            && Agree(t) && t.roster.teams == w.roster.teams
            && KnownFrom(t, robots) && NamesFrom(t, t.roster.teams, robots) && AllThere(t, w.roster.teams, robots)
  {
    hide Messages.Valid, Do, Agree, KnownFrom, NamesFrom, AllThere;
    if robots == [] {
      assert RobotActs(robots) == [];
      NobodyKnown(w);
    } else {
      var n := |robots| - 1;
      var e := robots[n];
      RobotsAreThere(w, robots[..n]);
      assert RobotActs(robots) == RobotActs(robots[..n]) + [Addressing.Configured(e.name, e.team, e.id)];
      var before := DoAll(w, RobotActs(robots[..n]));
      DoMore(w, RobotActs(robots[..n]), Addressing.Configured(e.name, e.team, e.id));
      assert robots == robots[..n] + [e];
      OneMoreRobot(before, robots[..n], e);
      OneMoreThere(before, Do(before, Addressing.Configured(e.name, e.team, e.id)), robots);
    }
  }

  lemma OneMoreThere(w: World, t: World, robots: seq<RobotEntry>)
    requires robots != [] && NamesFrom(w, w.roster.teams, robots[..|robots| - 1])
    requires AllThere(w, w.roster.teams, robots[..|robots| - 1])
    requires forall d | IsThere(w, d) :: IsThere(t, d)
    requires var e := robots[|robots| - 1];
             e.team in w.roster.teams && e.name !in w.roster.robots ==> IsThere(t, e)
    ensures AllThere(t, w.roster.teams, robots)
  {
    hide IsThere, Counts;
    var n := |robots| - 1;
    NewName(w, robots);
    forall k | 0 <= k < |robots| && Counts(w.roster.teams, robots, k) ensures IsThere(t, robots[k]) {
      if k < n {
        CountsBefore(w.roster.teams, robots, k);
      }
    }
  }

  lemma CountsBefore(teams: set<string>, robots: seq<RobotEntry>, k: nat)
    requires robots != [] && k < |robots| - 1
    ensures Counts(teams, robots[..|robots| - 1], k) <==> Counts(teams, robots, k)
  {
    assert forall j | 0 <= j <= k :: robots[..|robots| - 1][j] == robots[j];
  }

  lemma NewName(w: World, robots: seq<RobotEntry>)
    requires robots != [] && NamesFrom(w, w.roster.teams, robots[..|robots| - 1])
    ensures var n := |robots| - 1;
            Counts(w.roster.teams, robots, n) ==>
              robots[n].team in w.roster.teams && robots[n].name !in w.roster.robots
  {
    var n := |robots| - 1;
    forall r | r in w.roster.robots && Counts(w.roster.teams, robots, n) ensures r != robots[n].name {
      var j :| 0 <= j < n && robots[..n][j].name == r && robots[..n][j].team in w.roster.teams;
      assert robots[j] == robots[..n][j];
    }
  }

  lemma NobodyKnown(w: World)
    requires w.roster.robots == map[] && w.sensed.round.robots == map[]
    ensures KnownFrom(w, []) && NamesFrom(w, w.roster.teams, []) && AllThere(w, w.roster.teams, [])
  {
  }

  lemma {:induction false} TeamsAreThere(w: World, teams: seq<string>)
    requires Messages.Valid(w)
    ensures var t := DoAll(w, TeamActs(teams));
            && t.roster.teams == w.roster.teams + (set k | 0 <= k < |teams| :: teams[k])
            && t.sensed.round.robots == w.sensed.round.robots && t.roster.robots == w.roster.robots
  {
    hide Messages.Valid, Obey;
    if teams == [] {
      assert TeamActs(teams) == [];
    } else {
      var n := |teams| - 1;
      TeamsAreThere(w, teams[..n]);
      assert TeamActs(teams) == TeamActs(teams[..n]) + [Asked(AddTeam(teams[n]), 0)];
      DoMore(w, TeamActs(teams[..n]), Asked(AddTeam(teams[n]), 0));
      OneMoreTeam(DoAll(w, TeamActs(teams[..n])), teams[n]);
      assert (set k | 0 <= k < |teams| :: teams[k]) == (set k | 0 <= k < n :: teams[..n][k]) + {teams[n]};
    }
  }

  lemma OneMoreTeam(w: World, team: string)
    requires Messages.Valid(w)
    ensures var t := Do(w, Asked(AddTeam(team), 0));
            && t.roster == w.roster.(teams := w.roster.teams + {team})
            && t.sensed.round.robots == w.sensed.round.robots
  {
    hide Si.Valid, Si.Take;
    TakeOne(w.sensed, Si.Other(R.AddTeam(team)));
    TakeOther(w.sensed, R.AddTeam(team));
  }

  /**
   The configured teams and no others; every configured robot of such a team, the first of
   its name, unregistered, with its id, which leads to its team.
   */
  lemma ConfiguredIsThere(rules: R.Rules, duration: int, now: int, items: seq<ItemIndex.Request>,
                          teams: seq<string>, robots: seq<RobotEntry>)
    requires ProperRobots(robots)
    ensures var w := Configuration(rules, duration, now, items, teams, robots);
            && (forall t :: t in w.roster.teams <==> t in teams)
            && forall k | 0 <= k < |robots| && Counts(w.roster.teams, robots, k) :: IsThere(w, robots[k])
  {
    hide Messages.Valid, DoAll, NewWorld, Agree, IsThere, Fresh, Counts, KnownFrom, NamesFrom;
    NewWorldIsValid(rules, duration, now, items);
    NewWorldIsFresh(rules, duration, now, items);
    var w := NewWorld(rules, duration, now, items);
    SettingUpKeepsFresh(w, TeamActs(teams));
    FreshAgrees(DoAll(w, TeamActs(teams)));
    TeamsAreThere(w, teams);
    NewWorldIsEmpty(rules, duration, now, items);
    RobotsAreThere(DoAll(w, TeamActs(teams)), robots);
  }

  lemma FreshAgrees(w: World)
    requires Fresh(w)
    ensures Agree(w)
  {
  }

  lemma NewWorldIsEmpty(rules: R.Rules, duration: int, now: int, items: seq<ItemIndex.Request>)
    ensures var w := NewWorld(rules, duration, now, items);
            w.roster.teams == {} && w.roster.robots == map[] && w.sensed.round.robots == map[]
  {
  }

  // ----- The theorem

  function Configuration(rules: R.Rules, duration: int, now: int, items: seq<ItemIndex.Request>,
                         teams: seq<string>, robots: seq<RobotEntry>): (w: World)
    ensures Messages.Valid(w)
  {
    NewWorldIsValid(rules, duration, now, items);
    DoAll(DoAll(NewWorld(rules, duration, now, items), TeamActs(teams)), RobotActs(robots))
  }

  function Server(w: World, now: int): Serving.State {
    Serving.State(w, Channels.State(Channels.PUBLISH, [], []), now)
  }

  /** Untouched means that every invariant of rounds and sensors holds. */
  lemma UntouchedIsSound(w: World, rid: string)
    requires Messages.Valid(w) && Untouched(w)
    ensures Witness.Backed(w.sensed.round) && Scores.Accounted(w.sensed.round)
    ensures Lifecycle.BetweenRounds(w.sensed.round) && Si.Seen(w.sensed, rid) && Si.Held(w.sensed, rid) == None
  {
  }

  lemma {:induction false} TeamsAddNoRobots(w: World, teams: seq<string>)
    requires Messages.Valid(w)
    ensures DoAll(w, TeamActs(teams)).roster.robots == w.roster.robots
  {
    hide Si.Valid, Si.TakeAll;
    if teams != [] {
      var n := |teams| - 1;
      TeamsAddNoRobots(w, teams[..n]);
      assert TeamActs(teams) == TeamActs(teams[..n]) + [Asked(AddTeam(teams[n]), 0)];
      DoMore(w, TeamActs(teams[..n]), Asked(AddTeam(teams[n]), 0));
    }
  }

  /**
   Whatever the rules, the items, the teams and the robots of a configuration, the server
   starts with all that is assumed of it: the round is not running and clean, captures,
   scores and detectors are in order, players and robots matched, the ids distinct, and the
   teams are the same for the roster and the round.
   */
  lemma ConfiguredIsReady(rules: R.Rules, duration: int, now: int, items: seq<ItemIndex.Request>,
                          teams: seq<string>, robots: seq<RobotEntry>, rid: string)
    requires ProperRobots(robots)
    ensures var w := Configuration(rules, duration, now, items, teams, robots);
            && Serving.ValidState(Server(w, now)) && Serving.Sound(Server(w, now))
            && Lifecycle.BetweenRounds(w.sensed.round) && !w.sensed.round.running
            && Agree(w) && Matching.DistinctIds(w.roster)
            && Si.Seen(w.sensed, rid) && Si.Held(w.sensed, rid) == None
            && Serving.InboxColours(Server(w, now).inbox, rid)
  {
    hide Messages.Valid, DoAll, NewWorld, Untouched, Agree, Matching.Matched, Matching.DistinctIds, Witness.Backed,
         Scores.Accounted, Lifecycle.BetweenRounds, Si.Seen, Si.Held;
    NewWorldIsValid(rules, duration, now, items);
    var w := NewWorld(rules, duration, now, items);
    NewWorldIsFresh(rules, duration, now, items);
    SettingUpKeepsFresh(w, TeamActs(teams));
    SettingUpKeepsFresh(DoAll(w, TeamActs(teams)), RobotActs(robots));
    TeamsAddNoRobots(w, teams);
    ConfiguredIdsDistinct(DoAll(w, TeamActs(teams)), robots);
    var c := Configuration(rules, duration, now, items, teams, robots);
    UntouchedIsSound(c, rid);
    NotRunning(c);
  }

  /** So whatever a configured server then receives, and is commanded, all of that is kept. */
  lemma EveryServerIsSound(rules: R.Rules, duration: int, now: int, items: seq<ItemIndex.Request>,
                           teams: seq<string>, robots: seq<RobotEntry>, tic: int, readings: seq<Serving.Reading>)
    requires ProperRobots(robots)
    ensures var w := Configuration(rules, duration, now, items, teams, robots);
            Serving.ValidState(Server(w, now)) &&
            var s := Serving.Served(Server(w, now), tic, readings);
            Serving.Sound(s) && Lifecycle.BetweenRounds(Serving.RoundOf(s)) && Matching.DistinctIds(s.world.roster)
  {
    hide Messages.Valid, Configuration, Serving.Served, Serving.Sound, Lifecycle.BetweenRounds, Matching.DistinctIds,
         Agree, Si.Seen, Si.Held;
    ConfiguredIsReady(rules, duration, now, items, teams, robots, "");
    var s := Server(Configuration(rules, duration, now, items, teams, robots), now);
    Serving.ServedIsSound(s, tic, readings);
    Serving.ServedRoundsAreClean(s, tic, readings);
    Serving.ServedIdsDistinct(s, tic, readings);
  }

  lemma NewWorldIsFresh(rules: R.Rules, duration: int, now: int, items: seq<ItemIndex.Request>)
    ensures Fresh(NewWorld(rules, duration, now, items))
    ensures NewWorld(rules, duration, now, items).roster.robots == map[]
  {
  }

  lemma NotRunning(w: World)
    requires Untouched(w)
    ensures !w.sensed.round.running
  {
  }
}
