/**
 The round as a state machine over values: which robot touches which item, who owns
 what, the scores and the clock. Every operation of the game server that can change
 any of these is an Op; Run folds a whole history of them.
 */
module Round {
  import opened Options
  import Text

  const U16 := 0x1_0000
  const U32 := 0x1_0000_0000
  const U64 := 0x1_0000_0000_0000_0000

  /** Times and durations are in microseconds. */
  const SECOND := 1_000_000

  datatype Phase = PENDING | STARTED | FAILED | SUCCEEDED

  datatype ItemState = ItemState(owner: string, capturing: string, phase: Phase)

  /** A live contact: no contact kept in the game's map is ever finished. */
  datatype ContactState = ContactState(team: string, item: nat, stopTime: int)

  datatype Rules = Rules(scoreToWin: nat, points: nat, timeToCapture: nat)

  /** What the round has done so far, oldest first; a history variable. */
  datatype Event =
    | Captured(item: nat, team: string)
    | ItemsReset
    | ScoresReset
    | ScoreSet(team: string, score: nat)

  datatype State = State(
    rules: Rules,
    running: bool,
    time: int,
    startTime: int,
    duration: int,
    winner: Option<string>,
    scores: map<string, nat>,           // team name -> score
    robots: map<string, string>,        // robot id -> name of its team
    items: seq<ItemState>,              // in creation order
    contacts: map<string, ContactState>, // robot id -> its contact
    log: seq<Event>)

  datatype Op =
    | Touch(rid: string, item: nat)
    | Release(rid: string)
    | SetTime(time: int)
    | Step
    | Start(force: bool, now: int)
    | Stop
    | SetScore(team: string, score: nat)
    | SetDuration(duration: int)
    | AddTeam(team: string)
    | AddRobot(rid: string, team: string)

  /** References between the maps resolve. */
  ghost predicate WellFormed(s: State) {
    && (forall rid | rid in s.robots :: s.robots[rid] in s.scores)
    && (forall rid | rid in s.contacts ::
          && rid in s.robots
          && s.contacts[rid].team == s.robots[rid]
          && s.contacts[rid].item < |s.items|)
  }

  // ----- Items

  const FRESH_ITEM := ItemState("", "", PENDING)

  function StartCapture(i: ItemState, team: string): ItemState {
    if i.owner != team then i.(capturing := team, phase := STARTED) else i
  }

  function AbortCapture(i: ItemState): ItemState {
    i.(phase := FAILED)
  }

  function IncreaseScore(score: nat, points: nat): nat {
    (score + points % U16) % U32
  }

  function Capture(s: State, item: nat, team: string): (r: State)
    requires item < |s.items| && team in s.scores
    requires WellFormed(s)
    ensures WellFormed(r)
  {
    if s.items[item].owner == team then s
    else s.(
      scores := s.scores[team := IncreaseScore(s.scores[team], s.rules.points)],
      items := s.items[item := s.items[item].(owner := team, phase := SUCCEEDED)],
      log := s.log + [Captured(item, team)])
  }

  // ----- Contacts

  /** Erasing a live contact destroys it, which aborts the capture of its item. */
  function Drop(s: State, rid: string): (r: State)
    requires WellFormed(s)
    ensures WellFormed(r)
  {
    if rid !in s.contacts then s
    else
      var item := s.contacts[rid].item;
      s.(items := s.items[item := AbortCapture(s.items[item])], contacts := s.contacts - {rid})
  }

  /** The new contact is constructed before the one it replaces is destroyed. */
  function Contact(s: State, rid: string, item: nat): (r: State)
    requires WellFormed(s) && rid in s.robots && item < |s.items|
    ensures WellFormed(r)
  {
    var team := s.robots[rid];
    var started := s.(items := s.items[item := StartCapture(s.items[item], team)]);
    var dropped := Drop(started, rid);
    dropped.(contacts := dropped.contacts[rid := ContactState(team, item, s.time + s.rules.timeToCapture)])
  }

  predicate Matures(s: State, rid: string) {
    rid in s.contacts && s.time > s.contacts[rid].stopTime
  }

  function Mature(s: State, rid: string): (r: State)
    requires WellFormed(s)
    ensures WellFormed(r)
  {
    if !Matures(s, rid) then s
    else
      var c := s.contacts[rid];
      var captured := Capture(s, c.item, c.team);
      captured.(contacts := captured.contacts - {rid})
  }

  function MatureAll(s: State, keys: seq<string>): (r: State)
    requires WellFormed(s)
    ensures WellFormed(r)
  {
    if keys == [] then s
    else Mature(MatureAll(s, keys[..|keys| - 1]), keys[|keys| - 1])
  }

  function HandleContacts(s: State): (r: State)
    requires WellFormed(s)
    ensures WellFormed(r)
  {
    MatureAll(s, Text.SortedKeys(s.contacts.Keys))
  }

  // ----- The round

  /** time_duration::total_seconds truncates towards zero. */
  function TotalSeconds(d: int): int {
    if d >= 0 then d / SECOND else -((-d) / SECOND)
  }

  /** The signed difference is returned as a uint64_t. */
  function SecondsLeft(s: State): nat {
    (if s.running then TotalSeconds(s.duration) - TotalSeconds(s.time - s.startTime)
     else TotalSeconds(s.duration)) % U64
  }

  function StopRound(s: State): (r: State)
    requires WellFormed(s)
    ensures WellFormed(r)
  {
    if !s.running then s
    else s.(
      running := false,
      items := seq(|s.items|, _ => FRESH_ITEM),
      log := s.log + [ItemsReset])
  }

  function ResetScores(s: State): (r: State)
    requires WellFormed(s)
    ensures WellFormed(r)
  {
    s.(scores := map t | t in s.scores :: 0, log := s.log + [ScoresReset])
  }

  function StartRound(s: State, force: bool, now: int): (r: State)
    requires WellFormed(s)
    ensures WellFormed(r)
  {
    var ready := if force then StopRound(ResetScores(s.(winner := None))) else s;
    if ready.running then ready
    else ready.(running := true, startTime := now, time := now)
  }

  function Leaders(s: State): set<string> {
    set t | t in s.scores && s.scores[t] >= s.rules.scoreToWin
  }

  /** A single leader wins; several leaders are a stalemate. */
  function Crown(s: State): (r: State)
    ensures r == s.(winner := r.winner)
  {
    var leaders := Text.SortedKeys(Leaders(s));
    if |leaders| == 1 then s.(winner := Some(leaders[0])) else s
  }

  function StopIfFinished(s: State): (r: State)
    requires WellFormed(s)
    ensures WellFormed(r)
  {
    if SecondsLeft(s) == 0 then StopRound(s)
    else if Leaders(s) == {} then s
    else StopRound(Crown(s))
  }

  /** Finishing either changes nothing or stops the round, naming a winner or not. */
  lemma FinishStopsOrNot(s: State)
    requires WellFormed(s)
    ensures var r := StopIfFinished(s);
            r == s || r == StopRound(s.(winner := r.winner))
  {
    hide Crown, Leaders;
  }

  function Tick(s: State): (r: State)
    requires WellFormed(s)
    ensures WellFormed(r)
  {
    StopIfFinished(HandleContacts(s))
  }

  /** Messages for an unknown robot id are refused; agent edits of unknown teams are ignored. */
  function Apply(s: State, op: Op): (r: State)
    requires WellFormed(s)
    ensures WellFormed(r)
  {
    match op
    case Touch(rid, item) => if rid in s.robots && item < |s.items| then Contact(s, rid, item) else s
    case Release(rid) => Drop(s, rid)
    case SetTime(t) => s.(time := t)
    case Step => Tick(s)
    case Start(force, now) => StartRound(s, force, now)
    case Stop => StopRound(s)
    case SetScore(team, score) =>
      if team in s.scores && team != "" && score < U32
      then s.(scores := s.scores[team := score], log := s.log + [ScoreSet(team, score)])
      else s
    case SetDuration(d) => s.(duration := d)
    case AddTeam(team) => if team in s.scores then s else s.(scores := s.scores[team := 0])
    case AddRobot(rid, team) =>
      if team in s.scores && rid !in s.robots then s.(robots := s.robots[rid := team]) else s
  }

  lemma StepIsTick(s: State)
    requires WellFormed(s)
    ensures Apply(s, Step) == Tick(s)
  {
    hide Tick;
  }

  function Run(s: State, ops: seq<Op>): (r: State)
    requires WellFormed(s)
    ensures WellFormed(r)
  {
    if ops == [] then s
    else Apply(Run(s, ops[..|ops| - 1]), ops[|ops| - 1])
  }

  /** The state reached after the first k operations of a history. */
  function At(s: State, ops: seq<Op>, k: nat): (r: State)
    requires WellFormed(s) && k <= |ops|
    ensures WellFormed(r)
  {
    Run(s, ops[..k])
  }

  lemma AtStart(s: State, ops: seq<Op>)
    requires WellFormed(s)
    ensures At(s, ops, 0) == s
  {
    assert ops[..0] == [];
  }

  lemma AtStep(s: State, ops: seq<Op>, k: nat)
    requires WellFormed(s) && k < |ops|
    ensures At(s, ops, k + 1) == Apply(At(s, ops, k), ops[k])
  {
    assert ops[..k + 1][..k] == ops[..k];
  }

  /** A game as constructed, with its items created and no team or robot yet. */
  function NewGame(rules: Rules, duration: int, items: nat, now: int): (s: State)
    ensures WellFormed(s)
  {
    State(rules, false, now, now, duration, None, map[], map[], seq(items, _ => FRESH_ITEM), map[], [])
  }

  /** One more item, as new, at the end of the list. */
  function WithItem(s: State): (r: State)
    requires WellFormed(s)
    ensures WellFormed(r)
  {
    s.(items := s.items + [FRESH_ITEM])
  }

  /**
   The server is made first, then the teams and robots, and the items last; the game is the
   one that has its items from the start.
   */
  lemma {:induction false} ItemsMayComeLast(rules: Rules, duration: int, items: nat, now: int, ops: seq<Op>)
    requires forall k | 0 <= k < |ops| :: ops[k].AddTeam? || ops[k].AddRobot?
    ensures WithItem(Run(NewGame(rules, duration, items, now), ops)) ==
              Run(NewGame(rules, duration, items + 1, now), ops)
  {
    hide WellFormed;
    if ops == [] {
      assert seq(items + 1, _ => FRESH_ITEM) == seq(items, _ => FRESH_ITEM) + [FRESH_ITEM];
    } else {
      ItemsMayComeLast(rules, duration, items, now, ops[..|ops| - 1]);
    }
  }
}
