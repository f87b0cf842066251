/** Small histories, from a new game on, that reach the states the exact conditions speak of. */
module Cases {
  import opened Options
  import opened Round
  import Text
  import Ro = Roster
  import Si = Sightings
  import FreshIds
  import Turns
  import CarryOver
  import Messages
  import Addressing
  import StartUp

  /** Ten points win; an item gives them all; it takes five seconds to capture one. */
  const RULES := Rules(10, 10, 5 * SECOND)

  /** One minute, one item. */
  function Game(): (s: State)
    ensures WellFormed(s)
  {
    NewGame(RULES, 60 * SECOND, 1, 0)
  }

  /** Some history of a new game leads to the state. */
  ghost predicate Reached(s: State) {
    WellFormed(s) && exists ops :: Run(Game(), ops) == s
  }

  lemma ReachedNext(s: State, op: Op)
    requires Reached(s)
    ensures Reached(Apply(s, op))
  {
    hide Apply;
    var ops :| Run(Game(), ops) == s;
    Turns.OneMore(Game(), ops, op);
  }

  // ----- A round that has just begun

  /** Two robots of one team in a game that runs. */
  function Opened(): (s: State)
    ensures WellFormed(s)
  {
    Game().(scores := map["a" := 0], robots := map["q" := "a", "r" := "a"], running := true, log := [ScoresReset])
  }

  lemma OpenedIsReached()
    ensures Reached(Opened())
  {
    hide Apply;
    var s1 := Game().(scores := map["a" := 0]);
    var s2 := s1.(robots := map["q" := "a"]);
    var s3 := s1.(robots := map["q" := "a", "r" := "a"]);
    assert Run(Game(), []) == Game();
    ReachedNext(Game(), AddTeam("a"));
    SetUp(Game(), "a", "q");
    ReachedNext(s1, AddRobot("q", "a"));
    SetUp(s1, "a", "q");
    ReachedNext(s2, AddRobot("r", "a"));
    SetUp(s2, "a", "r");
    assert s2.robots["r" := "a"] == s3.robots;
    ReachedNext(s3, Start(true, 0));
    FirstStart(s3);
  }

  lemma SetUp(s: State, team: string, rid: string)
    requires WellFormed(s)
    ensures team !in s.scores ==> Apply(s, AddTeam(team)) == s.(scores := s.scores[team := 0])
    ensures team in s.scores && rid !in s.robots ==>
              Apply(s, AddRobot(rid, team)) == s.(robots := s.robots[rid := team])
  {
  }

  lemma FirstStart(s: State)
    requires WellFormed(s) && s == Opened().(running := false, log := [])
    ensures Apply(s, Start(true, 0)) == Opened()
  {
  }

  lemma TimeSet(s: State, now: int)
    requires WellFormed(s)
    ensures Apply(s, SetTime(now)) == s.(time := now)
  {
  }

  const TOUCHING := ContactState("a", 0, 5 * SECOND)

  /** The same with one robot touching the item. */
  function Touched(rid: string): (s: State)
    requires rid in Opened().robots
    ensures WellFormed(s)
  {
    Opened().(items := [ItemState("", "a", STARTED)], contacts := map[rid := TOUCHING])
  }

  lemma TouchedIsReached(rid: string)
    requires rid in Opened().robots
    ensures Reached(Touched(rid))
  {
    OpenedIsReached();
    ReachedNext(Opened(), Touch(rid, 0));
    assert Apply(Opened(), Touch(rid, 0)).items == Touched(rid).items;
  }

  // ----- Contacts over items that are not being captured

  /** A robot that touches again what it is touching: its contact is live, the item FAILED. */
  lemma TouchedAgain()
    ensures exists s :: Reached(s) && s.items == [ItemState("", "a", FAILED)] && s.contacts == map["r" := TOUCHING]
  {
    TouchedIsReached("r");
    ReachedNext(Touched("r"), Touch("r", 0));
    hide Reached;
    var t := Apply(Touched("r"), Touch("r", 0));
    assert t.items == [ItemState("", "a", FAILED)];
    assert t.contacts == map["r" := TOUCHING];
  }

  /** A robot that releases the item another one is touching: the other contact was never aborted. */
  lemma ReleasedByAnother()
    ensures exists s :: Reached(s) && s.items == [ItemState("", "a", FAILED)] && s.contacts == map["r" := TOUCHING]
  {
    TouchedIsReached("q");
    ReachedNext(Touched("q"), Touch("r", 0));
    hide Reached;
    var s := Apply(Touched("q"), Touch("r", 0));
    assert s == Touched("q").(contacts := map["q" := TOUCHING, "r" := TOUCHING]);
    ReachedNext(s, Release("q"));
    DroppedByAnother(s);
  }

  lemma DroppedByAnother(s: State)
    requires s == Touched("q").(contacts := map["q" := TOUCHING, "r" := TOUCHING])
    ensures WellFormed(s)
    ensures var t := Apply(s, Release("q"));
            t.items == [ItemState("", "a", FAILED)] && t.contacts == map["r" := TOUCHING]
  {
  }

  /** A round that is stopped: the contacts live on over items that are as new. */
  lemma StoppedUnderContact()
    ensures exists s :: Reached(s) && !s.running && s.items == [FRESH_ITEM] && s.contacts == map["r" := TOUCHING]
  {
    hide Apply, Reached;
    TouchedIsReached("r");
    ReachedNext(Touched("r"), Stop);
    StopTouched();
  }

  lemma StopTouched()
    ensures var t := Apply(Touched("r"), Stop);
            !t.running && t.items == [FRESH_ITEM] && t.contacts == map["r" := TOUCHING]
  {
  }

  /** A touch of one round that can capture in the next without being repeated. */
  lemma CarriedIntoNextRound()
    ensures exists s :: Reached(s) && s.running && s.startTime == SECOND && CarryOver.Pays(s, "r")
              && exists ops :: CarryOver.WithinRound(s, ops) && CarryOver.Untouched(ops)
                               && CarryOver.CapturesSomething(s, ops)
  {
    hide Apply, Reached, CarryOver.WithinRound, CarryOver.Untouched, CarryOver.CapturesSomething;
    TouchedIsReached("r");
    ReachedNext(Touched("r"), Start(true, SECOND));
    RestartTouched();
    CarryOver.OldTouchesPay(Apply(Touched("r"), Start(true, SECOND)));
  }

  lemma RestartTouched()
    ensures var t := Apply(Touched("r"), Start(true, SECOND));
            t.running && t.startTime == SECOND && CarryOver.Pays(t, "r")
  {
    var t := Apply(Touched("r"), Start(true, SECOND));
    assert t.items == [FRESH_ITEM];
  }

  // ----- Ends of rounds

  lemma NoKeys()
    ensures Text.SortedKeys({}) == []
  {
    Text.EmptyIncreasing();
    Text.SortedIsUnique([], {});
  }

  lemma OneKey(key: string)
    ensures Text.SortedKeys({key}) == [key]
  {
    Text.SortedIsUnique([key], {key});
  }

  /** A round that missed its last second: it runs on, with more time left than it ever had. */
  lemma Overshot()
    ensures exists s :: Reached(s) && s.running && s.time - s.startTime > s.duration
              && SecondsLeft(s) == U64 - 1 && Tick(s).running
  {
    hide Tick, Apply;
    OpenedIsReached();
    ReachedNext(Opened(), SetTime(61 * SECOND));
    hide Reached;
    var s := Opened().(time := 61 * SECOND);
    TimeSet(Opened(), 61 * SECOND);
    assert TotalSeconds(s.duration) == 60 && TotalSeconds(s.time - s.startTime) == 61;
    TickOfNothing(s);
  }

  lemma TickOfNothing(s: State)
    requires WellFormed(s) && s.running && s.contacts == map[] && SecondsLeft(s) != 0
    requires s.scores == map["a" := 0] && s.rules == RULES
    ensures Tick(s).running
  {
    hide SecondsLeft, Crown, StopRound;
    NoKeys();
    assert s.contacts.Keys == {};
    assert HandleContacts(s) == s;
    assert Leaders(s) == {};
  }

  /** A round whose duration was cut below what had passed: it runs on as well. */
  lemma Shortened()
    ensures exists s :: Reached(s) && s.running && s.duration == 10 * SECOND && s.time - s.startTime == 30 * SECOND
              && SecondsLeft(s) == U64 - 20 && Tick(s).running
  {
    hide Tick, Apply;
    OpenedIsReached();
    ReachedNext(Opened(), SetTime(30 * SECOND));
    TimeSet(Opened(), 30 * SECOND);
    var late := Opened().(time := 30 * SECOND);
    ReachedNext(late, SetDuration(10 * SECOND));
    hide Reached;
    DurationSet(late, 10 * SECOND);
    var s := late.(duration := 10 * SECOND);
    assert TotalSeconds(s.duration) == 10 && TotalSeconds(s.time - s.startTime) == 30;
    TickOfNothing(s);
  }

  lemma DurationSet(s: State, duration: int)
    requires WellFormed(s)
    ensures Apply(s, SetDuration(duration)) == s.(duration := duration)
  {
  }

  /**
   A game stopped with a winner, which an unforced start would set running with one. Nothing
   in the server starts a game without forcing it.
   */
  lemma WonAndStopped()
    ensures exists s :: Reached(s) && !s.running && s.winner == Some("a")
              && Apply(s, Start(false, s.time)).running && Apply(s, Start(false, s.time)).winner == Some("a")
  {
    hide Tick, Apply;
    TouchedIsReached("r");
    ReachedNext(Touched("r"), SetTime(6 * SECOND));
    TimeSet(Touched("r"), 6 * SECOND);
    var s := Touched("r").(time := 6 * SECOND);
    ReachedNext(s, Step);
    hide Reached;
    StepIsTick(s);
    TickWins(s);
    WinnerStays(Tick(s));
  }

  lemma WinnerStays(s: State)
    requires WellFormed(s) && !s.running
    ensures Apply(s, Start(false, s.time)).running && Apply(s, Start(false, s.time)).winner == s.winner
  {
  }

  lemma TickWins(s: State)
    requires s == Touched("r").(time := 6 * SECOND)
    ensures WellFormed(s) && !Tick(s).running && Tick(s).winner == Some("a")
  {
    hide StopIfFinished, Mature, HandleContacts;
    assert s.contacts.Keys == {"r"};
    OneContact(s, "r");
    Matured(s);
    FinishCrowns(Mature(s, "r"));
  }

  lemma OneContact(s: State, rid: string)
    requires WellFormed(s) && s.contacts.Keys == {rid}
    ensures HandleContacts(s) == Mature(s, rid)
  {
    hide Mature;
    OneKey(rid);
    assert [rid][..0] == [];
    assert MatureAll(s, []) == s;
    assert MatureAll(s, [rid]) == Mature(s, rid);
  }

  lemma Matured(s: State)
    requires s == Touched("r").(time := 6 * SECOND)
    ensures WellFormed(s)
    ensures var r := Mature(s, "r");
            && r.scores == map["a" := 10]
            && r == s.(items := r.items, contacts := r.contacts, scores := r.scores, log := r.log)
  {
  }

  lemma FinishCrowns(s: State)
    requires WellFormed(s) && s.running && s.scores == map["a" := 10] && s.rules == RULES
    requires s.time == 6 * SECOND && s.startTime == 0 && s.duration == 60 * SECOND
    ensures !StopIfFinished(s).running && StopIfFinished(s).winner == Some("a")
  {
    OneKey("a");
    assert Leaders(s) == {"a"};
    assert TotalSeconds(s.duration) == 60 && TotalSeconds(s.time - s.startTime) == 6;
  }

  // ----- Robot ids

  /** Some acts lead from a game without robots to the world. */
  ghost predicate Arrived(w: Messages.World) {
    && Messages.Valid(w)
    && exists acts :: Addressing.AllPass(acts) && Addressing.DoAll(Empty(), acts) == w
  }

  function Empty(): (w: Messages.World)
    ensures Messages.Valid(w)
  {
    StartUp.NewWorldIsValid(RULES, 60 * SECOND, 0, []);
    StartUp.NewWorld(RULES, 60 * SECOND, 0, [])
  }

  lemma ArrivedNext(w: Messages.World, act: Addressing.Act)
    requires Arrived(w) && Addressing.Passes(act)
    ensures Arrived(Addressing.Do(w, act))
  {
    hide Messages.Valid, Addressing.Do, Addressing.Passes;
    var acts :| Addressing.AllPass(acts) && Addressing.DoAll(Empty(), acts) == w;
    Addressing.DoMore(Empty(), acts, act);
    assert Addressing.AllPass(acts + [act]);
  }

  lemma EmptyArrived()
    ensures Arrived(Empty()) && Addressing.Agree(Empty())
    ensures Empty().roster == Ro.EMPTY && Empty().sensed.round.robots == map[]
  {
    StartUp.NewWorldIsFresh(RULES, 60 * SECOND, 0, []);
    assert Addressing.AllPass([]) && Addressing.DoAll(Empty(), []) == Empty();
  }

  const TEAM_A := Addressing.Asked(Messages.AddTeam("a"), 0)
  const TEAM_B := Addressing.Asked(Messages.AddTeam("b"), 0)
  const ROBOT_X := Addressing.Asked(Messages.AddRobot("x", "a"), 0)
  const ROBOT_Y := Addressing.Asked(Messages.AddRobot("y", "b"), 0)

  function TwoTeams(): (w: Messages.World)
    ensures Messages.Valid(w)
  {
    Addressing.Do(Addressing.Do(Empty(), TEAM_A), TEAM_B)
  }

  lemma TwoTeamsArrived()
    ensures Arrived(TwoTeams()) && Addressing.Agree(TwoTeams())
    ensures TwoTeams().roster == Ro.EMPTY.(teams := {"a", "b"}) && TwoTeams().sensed.round.robots == map[]
  {
    hide Messages.Valid, Addressing.Do, Addressing.Agree, Arrived, Empty;
    EmptyArrived();
    var w := Addressing.Do(Empty(), TEAM_A);
    ArrivedNext(Empty(), TEAM_A);
    ArrivedNext(w, TEAM_B);
    Addressing.AgreeStays(Empty(), TEAM_A);
    Addressing.AgreeStays(w, TEAM_B);
    OneTeam(Empty(), TEAM_A, "a");
    OneTeam(w, TEAM_B, "b");
    assert {} + {"a"} + {"b"} == {"a", "b"};
  }

  lemma OneTeam(w: Messages.World, act: Addressing.Act, team: string)
    requires Messages.Valid(w) && act == Addressing.Asked(Messages.AddTeam(team), 0)
    ensures Addressing.Do(w, act).roster == w.roster.(teams := w.roster.teams + {team})
    ensures Addressing.Do(w, act).sensed.round.robots == w.sensed.round.robots
  {
    hide Si.Valid, Si.Take;
    Messages.TakeOne(w.sensed, Si.Other(AddTeam(team)));
    Messages.TakeOther(w.sensed, AddTeam(team));
  }

  /** With one robot of the first team. */
  function OneRobot(): (w: Messages.World)
    ensures Messages.Valid(w)
  {
    Addressing.Do(TwoTeams(), ROBOT_X)
  }

  lemma OneRobotArrived()
    ensures Arrived(OneRobot()) && Addressing.Agree(OneRobot())
    ensures var s := OneRobot().roster;
            && s.teams == {"a", "b"} && s.robots.Keys == {"x"} && s.robots["x"].team == "a"
            && s.robots["x"].id == FreshIds.NewId({}) && Addressing.OwnTeam(OneRobot(), "x")
  {
    hide Messages.Valid, Addressing.Do, Addressing.Agree, FreshIds.NewId, Arrived, TwoTeams;
    TwoTeamsArrived();
    ArrivedNext(TwoTeams(), ROBOT_X);
    Addressing.AgreeStays(TwoTeams(), ROBOT_X);
    assert Ro.Ids(TwoTeams().roster) == {};
    Addressing.AddedToOwnTeam(TwoTeams(), ROBOT_X, "x");
    OnlyRobot(TwoTeams());
  }

  lemma OnlyRobot(w: Messages.World)
    requires Messages.Valid(w) && w.roster == Ro.EMPTY.(teams := {"a", "b"})
    ensures var s := Addressing.Do(w, ROBOT_X).roster;
            && s.teams == {"a", "b"} && s.robots.Keys == {"x"} && s.robots["x"].team == "a"
            && s.robots["x"].id == FreshIds.NewId({})
  {
    hide Si.Valid, Si.TakeAll, FreshIds.NewId;
    assert Ro.Ids(w.roster) == {};
  }

  /** A robot of one team that has got the id of a removed one of the other, and counts for that. */
  lemma IdReused()
    ensures exists w :: Arrived(w) && "y" in w.roster.robots && w.roster.robots["y"].team == "b"
              && !Addressing.OwnTeam(w, "y")
              && w.roster.robots["y"].id in w.sensed.round.robots
              && w.sensed.round.robots[w.roster.robots["y"].id] == "a"
  {
    hide Messages.Valid, Addressing.Do, Addressing.Agree, FreshIds.NewId, Arrived, OneRobot;
    var gone := Addressing.Asked(Messages.RemoveRobot("x"), 0);
    OneRobotArrived();
    var w := OneRobot();
    ArrivedNext(w, gone);
    ArrivedNext(Addressing.Do(w, gone), ROBOT_Y);
    assert (w.roster.robots - {"x"}).Keys == {};
    assert Ro.Ids(w.roster.(robots := w.roster.robots - {"x"})) == {};
    Addressing.RemovedIdIsReused(w, "x", "y", "b", 0);
    Addressing.RosterRobot(w, gone, "y");
    Addressing.RosterRobot(Addressing.Do(w, gone), ROBOT_Y, "y");
    KnownStays(w, gone);
    KnownStays(Addressing.Do(w, gone), ROBOT_Y);
    GoneTeams(w, gone);
  }

  lemma KnownStays(w: Messages.World, act: Addressing.Act)
    requires Messages.Valid(w)
    ensures forall rid | rid in w.sensed.round.robots ::
              var t := Addressing.Do(w, act).sensed.round.robots;
              rid in t && t[rid] == w.sensed.round.robots[rid]
  {
    hide Si.Valid, Si.TakeAll, Addressing.Do, Addressing.ActInputs;
    Addressing.DoTakes(w, act);
    Addressing.TakingKeepsKnown(w.sensed, Addressing.ActInputs(w, act));
  }

  lemma GoneTeams(w: Messages.World, act: Addressing.Act)
    requires Messages.Valid(w) && act == Addressing.Asked(Messages.RemoveRobot("x"), 0)
    ensures Addressing.Do(w, act).roster.teams == w.roster.teams
  {
    Addressing.RosterTeams(w, act);
  }
}
