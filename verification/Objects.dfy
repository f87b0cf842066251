/**
 The objects the game is made of: teams, items and their registry, robots, players and
 contacts; and the predicates that tie maps and lists of them to the values of the
 Round machine.
 */
module Objects {
  import opened Options
  import Text
  import R = Round
  import ItemIndex
  import Ro = Roster

  class Team {
    const name: string
    var score: nat

    constructor (name: string)
      ensures this.name == name && score == 0
    {
      this.name := name;
      score := 0;
    }

    /** The amount arrives in 16 bits and the score wraps at 32. */
    method IncreaseScore(amount: nat)
      requires amount < R.U16
      modifies `score
      ensures score == (old(score) + amount) % R.U32
    {
      score := (score + amount) % R.U32;
    }

    method SetScore(score: nat)
      modifies this
      ensures this.score == score
    {
      this.score := score;
    }

    method ResetScore()
      modifies this
      ensures score == 0
    {
      score := 0;
    }

    method CaptureItem(item: Item)
      modifies this`score, item
      ensures item.View() == if old(item.owningTeam) == name then old(item.View())
                             else old(item.View()).(owner := name, phase := R.SUCCEEDED)
      ensures score == if old(item.owningTeam) == name then old(score) else R.IncreaseScore(old(score), item.points)
    {
      item.Capture(this);
    }
  }

  /** A flag, the only kind of item there is. */
  class Item {
    const name: string
    const rfids: set<string>
    const colour: int
    const points: nat
    ghost const index: nat // its place in the list of all items
    var owningTeam: string
    var capturingTeam: string
    var captureState: R.Phase

    constructor (name: string, rfids: set<string>, colour: int, points: nat, ghost index: nat)
      ensures this.name == name && this.rfids == rfids && this.colour == colour
      ensures this.points == points && this.index == index
      ensures View() == R.FRESH_ITEM
    {
      this.name, this.rfids, this.colour, this.points, this.index := name, rfids, colour, points, index;
      owningTeam, capturingTeam, captureState := "", "", R.PENDING;
    }

    function View(): R.ItemState
      reads this
    {
      R.ItemState(owningTeam, capturingTeam, captureState)
    }

    method StartCapture(team: string)
      modifies this
      ensures View() == R.StartCapture(old(View()), team)
    {
      if owningTeam != team {
        capturingTeam := team;
        captureState := R.STARTED;
      }
    }

    method AbortCapture()
      modifies this
      ensures View() == R.AbortCapture(old(View()))
    {
      captureState := R.FAILED;
    }

    method Capture(team: Team)
      modifies this, team`score
      ensures View() == if old(owningTeam) == team.name then old(View())
                        else old(View()).(owner := team.name, phase := R.SUCCEEDED)
      ensures team.score == if old(owningTeam) == team.name then old(team.score)
                            else R.IncreaseScore(old(team.score), points)
    {
      if team.name != owningTeam {
        InnerCapture(team);
        owningTeam := team.name;
        captureState := R.SUCCEEDED;
      }
    }

    /** The flag's 32-bit points are passed on in 16 bits. */
    method InnerCapture(team: Team)
      modifies team`score
      ensures team.score == R.IncreaseScore(old(team.score), points)
    {
      team.IncreaseScore(points % R.U16);
    }

    method Reset()
      modifies this
      ensures View() == R.FRESH_ITEM
    {
      owningTeam := "";
      capturingTeam := "";
      captureState := R.PENDING;
    }
  }

  ghost function Places<K>(index: map<K, Item>): map<K, nat> {
    map k | k in index :: index[k].index
  }

  lemma PlacesOfUnion(rfids: set<string>, item: Item, index: map<string, Item>)
    ensures Places((map k | k in rfids :: item) + index) == (map k | k in rfids :: item.index) + Places(index)
  {
  }

  /** The static lists of items. */
  class ItemRegistry {
    var byRfid: map<string, Item>
    var byColour: map<int, Item>
    var all: seq<Item>

    constructor ()
      ensures Valid() && Keys() == ItemIndex.EMPTY
    {
      byRfid, byColour, all := map[], map[], [];
    }

    predicate Listed(item: Item)
      reads this
    {
      item in all
    }

    ghost predicate Valid()
      reads this
    {
      && (forall i | 0 <= i < |all| :: all[i].index == i)
      && (forall r | r in byRfid :: Listed(byRfid[r]))
      && (forall c | c in byColour :: Listed(byColour[c]))
    }

    /** The registry as the value-level index: items stand for their places in the list. */
    ghost function Keys(): ItemIndex.Index
      reads this
    {
      ItemIndex.Index(
        seq(|all|, i requires 0 <= i < |all| reads this => ItemIndex.ItemKey(all[i].rfids, all[i].colour)),
        Places(byRfid),
        Places(byColour))
    }

    method GetItemByRfid(rfid: string) returns (item: Item?)
      requires Valid()
      ensures item == null <==> rfid !in byRfid
      ensures item != null ==> Listed(item) && item == byRfid[rfid] && Keys().byRfid[rfid] == item.index
    {
      if rfid in byRfid {
        item := byRfid[rfid];
      } else {
        item := null;
      }
    }

    method GetItemByColour(colour: int) returns (item: Item?)
      requires Valid()
      ensures item == null <==> colour !in byColour
      ensures item != null ==> Listed(item) && item == byColour[colour] && Keys().byColour[colour] == item.index
    {
      if colour in byColour {
        item := byColour[colour];
      } else {
        item := null;
      }
    }

    method CreateItem(kind: string, name: string, rfids: set<string>, colour: int, points: nat)
      returns (item: Item?)
      requires Valid()
      modifies this
      ensures Valid()
      ensures Keys() == ItemIndex.Create(old(Keys()), ItemIndex.Request(kind, rfids, colour))
      ensures item != null <==> ItemIndex.Accepted(old(Keys()), ItemIndex.Request(kind, rfids, colour))
      ensures item != null ==> fresh(item) && all == old(all) + [item] && item.points == points
                               && item.View() == R.FRESH_ITEM && item.index == |old(all)|
      ensures item == null ==> all == old(all)
    {
      item := null;
      if kind == "flag" {
        if rfids == {} && colour != ItemIndex.NO_COLOUR {
          if colour !in byColour {
            item := new Item(name, {}, colour, points, |all|);
            AddByColour(item);
          }
        } else if rfids != {} && colour == ItemIndex.NO_COLOUR {
          item := new Item(name, rfids, ItemIndex.NO_COLOUR, points, |all|);
          AddByRfids(item);
        }
      }
    }

    method AddByColour(item: Item)
      requires Valid() && item.index == |all|
      modifies this
      ensures Valid() && all == old(all) + [item]
      ensures var k := old(Keys());
              Keys() == ItemIndex.Index(k.all + [ItemIndex.ItemKey(item.rfids, item.colour)], k.byRfid,
                                        k.byColour[item.colour := |k.all|])
    {
      byColour := byColour[item.colour := item];
      all := all + [item];
      assert forall c | c in byColour :: Listed(byColour[c]);
    }

    method AddByRfids(item: Item)
      requires Valid() && item.index == |all|
      modifies this
      ensures Valid() && all == old(all) + [item]
      ensures var k := old(Keys());
              Keys() == ItemIndex.Index(k.all + [ItemIndex.ItemKey(item.rfids, item.colour)],
                                        (map r | r in item.rfids :: |k.all|) + k.byRfid, k.byColour)
    {
      hide Places;
      IndexRfids(item);
      PlacesOfUnion(item.rfids, item, old(byRfid));
      all := all + [item];
      assert forall r | r in byRfid :: Listed(byRfid[r]);
    }

    /** An RFID that is already in use is left alone. */
    method IndexRfids(item: Item)
      modifies `byRfid
      ensures byRfid == (map k | k in item.rfids :: item) + old(byRfid)
    {
      var left := item.rfids;
      while left != {}
        invariant left <= item.rfids
        invariant byRfid == (map k | k in item.rfids - left :: item) + old(byRfid)
      {
        var rfid :| rfid in left;
        if rfid !in byRfid {
          byRfid := byRfid[rfid := item];
        }
        left := left - {rfid};
      }
    }

    method ResetAllItems()
      requires Valid()
      modifies all
      ensures forall i | 0 <= i < |all| :: all[i].View() == R.FRESH_ITEM
    {
      for i := 0 to |all|
        invariant forall j | 0 <= j < i :: all[j].View() == R.FRESH_ITEM
      {
        all[i].Reset();
      }
    }
  }

  class Robot {
    const name: string
    const robotId: string
    const team: Team
    ghost const serial: nat
    var hasRealRobot: bool
    var player: Player?

    constructor (name: string, robotId: string, team: Team, ghost serial: nat)
      ensures this.name == name && this.robotId == robotId && this.team == team && this.serial == serial
      ensures !hasRealRobot && player == null
    {
      this.name, this.robotId, this.team, this.serial := name, robotId, team, serial;
      hasRealRobot := false;
      player := null;
    }

    method SetHasRealRobot(hasRealRobot: bool)
      modifies `hasRealRobot
      ensures this.hasRealRobot == hasRealRobot
    {
      this.hasRealRobot := hasRealRobot;
    }

    method SetPlayer(player: Player)
      modifies `player
      ensures this.player == player
    {
      this.player := player;
    }

    /** Locking the weak pointer: the player, unless it has been destroyed. */
    function GetPlayer(): Player?
      reads this, player
    {
      if player != null && player.alive then player else null
    }

    predicate GetHasPlayer()
      reads this, player
    {
      player != null && player.alive
    }

    predicate GetIsAvailable()
      reads this, player
    {
      hasRealRobot && !GetHasPlayer()
    }
  }

  class Player {
    const name: string
    ghost const serial: nat
    var robot: Robot?
    var alive: bool // false once the players' map, its one owner, has let go of it

    constructor (name: string, ghost serial: nat)
      ensures this.name == name && this.serial == serial && robot == null && alive
    {
      this.name, this.serial := name, serial;
      robot := null;
      alive := true;
    }

    method SetRobot(robot: Robot)
      modifies `robot
      ensures this.robot == robot
    {
      this.robot := robot;
    }

    method Destroy()
      modifies `alive
      ensures !alive
    {
      alive := false;
    }
  }

  datatype StepSignal = AH_AH_AH_AH_STAYINGALIVE | SILENCEIKILLU | LOGIC_ERROR

  class Contact {
    const robot: Robot
    const item: Item
    const stopTime: int
    var finished: bool

    constructor (startTime: int, timerDuration: int, robot: Robot, item: Item)
      modifies item
      ensures this.robot == robot && this.item == item && stopTime == startTime + timerDuration && !finished
      ensures item.View() == R.StartCapture(old(item.View()), robot.team.name)
    {
      this.robot, this.item, stopTime := robot, item, startTime + timerDuration;
      finished := false;
      new;
      item.StartCapture(robot.team.name);
    }

    /** The destructor. */
    method Destroy()
      modifies item
      ensures item.View() == if finished then old(item.View()) else R.AbortCapture(old(item.View()))
    {
      if !finished {
        item.AbortCapture();
      }
    }

    /** A contact that is stepped again once finished throws. */
    method Step(now: int) returns (signal: StepSignal)
      modifies `finished, item, robot.team`score
      ensures signal == if old(finished) then LOGIC_ERROR
                        else if now > stopTime then SILENCEIKILLU else AH_AH_AH_AH_STAYINGALIVE
      ensures finished == (old(finished) || signal == SILENCEIKILLU)
      ensures var captures := signal == SILENCEIKILLU && old(item.owningTeam) != robot.team.name;
              && item.View() == (if captures then old(item.View()).(owner := robot.team.name, phase := R.SUCCEEDED)
                                 else old(item.View()))
              && robot.team.score == (if captures then R.IncreaseScore(old(robot.team.score), item.points)
                                      else old(robot.team.score))
    {
      if finished {
        return LOGIC_ERROR;
      }
      signal := SILENCEIKILLU;
      if now > stopTime {
        robot.team.CaptureItem(item);
        finished := true;
      } else {
        signal := AH_AH_AH_AH_STAYINGALIVE;
      }
    }
  }

  /** The objects that handling the contacts may change. */
  ghost function FootprintOf(contacts: map<string, Contact>, teams: map<string, Team>, all: seq<Item>): set<object> {
    (set c | c in contacts.Values :: c as object)
    + (set t | t in teams.Values :: t as object)
    + (set i | i in all :: i as object)
  }

  lemma FootprintShrinks(contacts: map<string, Contact>, teams: map<string, Team>, all: seq<Item>, rid: string)
    ensures FootprintOf(contacts - {rid}, teams, all) <= FootprintOf(contacts, teams, all)
  {
    forall c | c in (contacts - {rid}).Values ensures c in contacts.Values {
    }
  }

  lemma ItemsInFootprint(contacts: map<string, Contact>, teams: map<string, Team>, all: seq<Item>)
    ensures forall i | i in all :: i in FootprintOf(contacts, teams, all)
  {
  }

  // ----- Tying objects to their values

  lemma NotThere<V>(m: map<string, V>, key: string)
    requires key !in m
    ensures m - {key} == m
  {
  }

  ghost predicate TeamsFit(teams: map<string, Team>, scores: map<string, nat>)
    reads teams.Values
  {
    && scores.Keys == teams.Keys
    && forall t | t in teams :: teams[t].name == t && teams[t].score == scores[t]
  }

  ghost predicate ItemsFit(all: seq<Item>, points: nat, items: seq<R.ItemState>)
    reads all
  {
    && |items| == |all|
    && forall i | 0 <= i < |all| :: all[i].index == i && all[i].points == points && all[i].View() == items[i]
  }

  ghost predicate RobotsFit(robots: map<string, Robot>, names: map<string, string>, teams: map<string, Team>) {
    && names.Keys == robots.Keys
    && forall rid | rid in robots ::
         && robots[rid].robotId == rid && robots[rid].team.name == names[rid]
         && names[rid] in teams && teams[names[rid]] == robots[rid].team
  }

  /** What never changes about a contact. */
  ghost predicate Fits(c: Contact, robot: Robot, all: seq<Item>, value: R.ContactState) {
    && c.robot == robot
    && c.item.index < |all| && all[c.item.index] == c.item
    && value == R.ContactState(robot.team.name, c.item.index, c.stopTime)
  }

  /** A contact kept by the game is not finished, so stepping it does not throw. */
  ghost predicate ContactFits(c: Contact, robot: Robot, all: seq<Item>, value: R.ContactState)
    reads c
  {
    !c.finished && Fits(c, robot, all, value)
  }

  lemma StillFits(c: Contact, robot: Robot, all: seq<Item>, value: R.ContactState)
    requires !c.finished && Fits(c, robot, all, value)
    ensures ContactFits(c, robot, all, value)
  {
  }

  ghost predicate ContactsFit(contacts: map<string, Contact>, robots: map<string, Robot>, all: seq<Item>,
                              values: map<string, R.ContactState>)
    reads contacts.Values
  {
    && values.Keys == contacts.Keys <= robots.Keys
    && forall rid | rid in contacts :: ContactFits(contacts[rid], robots[rid], all, values[rid])
  }

  lemma OneMoreTeam(teams: map<string, Team>, scores: map<string, nat>,
                    robots: map<string, Robot>, names: map<string, string>, team: Team)
    requires TeamsFit(teams, scores) && RobotsFit(robots, names, teams)
    requires team.name !in teams && team.score == 0
    ensures TeamsFit(teams[team.name := team], scores[team.name := 0])
    ensures RobotsFit(robots, names, teams[team.name := team])
  {
  }

  lemma OneMoreRobot(robots: map<string, Robot>, names: map<string, string>, teams: map<string, Team>,
                     contacts: map<string, Contact>, all: seq<Item>, values: map<string, R.ContactState>, robot: Robot)
    requires RobotsFit(robots, names, teams) && ContactsFit(contacts, robots, all, values)
    requires robot.robotId !in robots && robot.team.name in teams && teams[robot.team.name] == robot.team
    ensures robot.robotId !in names
    ensures RobotsFit(robots[robot.robotId := robot], names[robot.robotId := robot.team.name], teams)
    ensures ContactsFit(contacts, robots[robot.robotId := robot], all, values)
  {
  }

  lemma ContactsFitWithout(contacts: map<string, Contact>, robots: map<string, Robot>, all: seq<Item>,
                           values: map<string, R.ContactState>, rid: string)
    requires ContactsFit(contacts, robots, all, values)
    ensures ContactsFit(contacts - {rid}, robots, all, values - {rid})
  {
  }

  lemma ContactsFitWith(contacts: map<string, Contact>, robots: map<string, Robot>, all: seq<Item>,
                        values: map<string, R.ContactState>, rid: string, c: Contact, value: R.ContactState)
    requires ContactsFit(contacts, robots, all, values)
    requires rid in robots && ContactFits(c, robots[rid], all, value)
    ensures ContactsFit(contacts[rid := c], robots, all, values[rid := value])
  {
  }

  lemma ContactFact(contacts: map<string, Contact>, robots: map<string, Robot>, all: seq<Item>,
                    values: map<string, R.ContactState>, rid: string)
    requires ContactsFit(contacts, robots, all, values) && rid in contacts
    ensures rid in values && rid in robots && ContactFits(contacts[rid], robots[rid], all, values[rid])
    ensures contacts[rid].item in all
  {
  }

  lemma ContactKeys(contacts: map<string, Contact>, robots: map<string, Robot>, all: seq<Item>,
                    values: map<string, R.ContactState>)
    requires ContactsFit(contacts, robots, all, values)
    ensures values.Keys == contacts.Keys
  {
  }

  /** No two entries share a contact: each knows its robot, and the robot its id. */
  lemma ContactAlone(contacts: map<string, Contact>, robots: map<string, Robot>, all: seq<Item>,
                     values: map<string, R.ContactState>, names: map<string, string>, teams: map<string, Team>,
                     rid: string)
    requires ContactsFit(contacts, robots, all, values) && RobotsFit(robots, names, teams) && rid in contacts
    ensures contacts[rid] !in (contacts - {rid}).Values
    ensures contacts[rid].robot == robots[rid]
    ensures contacts[rid].robot.team.name in teams && teams[contacts[rid].robot.team.name] == contacts[rid].robot.team
    ensures rid in names && contacts[rid].robot.team.name == names[rid]
  {
    forall k | k in contacts && k != rid ensures contacts[k] != contacts[rid] {
      assert robots[k].robotId == k;
      assert robots[rid].robotId == rid;
    }
  }

  lemma ContactsFitAgain(contacts: map<string, Contact>, robots: map<string, Robot>, all: seq<Item>,
                         values: map<string, R.ContactState>, rid: string)
    requires ContactsFit(contacts - {rid}, robots, all, values - {rid})
    requires rid in contacts && rid in values && rid in robots
    requires ContactFits(contacts[rid], robots[rid], all, values[rid])
    ensures ContactsFit(contacts, robots, all, values)
  {
    forall k | k in contacts ensures k in values && k in robots && ContactFits(contacts[k], robots[k], all, values[k]) {
      assert k != rid ==> k in contacts - {rid};
    }
    forall k | k in values ensures k in contacts {
      assert k != rid ==> k in values - {rid};
    }
  }

  lemma OneMoreItem(all: seq<Item>, points: nat, items: seq<R.ItemState>, item: Item,
                    contacts: map<string, Contact>, robots: map<string, Robot>, values: map<string, R.ContactState>)
    requires ItemsFit(all, points, items) && ContactsFit(contacts, robots, all, values)
    requires item.index == |all| && item.points == points && item.View() == R.FRESH_ITEM
    ensures ItemsFit(all + [item], points, items + [R.FRESH_ITEM])
    ensures ContactsFit(contacts, robots, all + [item], values)
  {
  }

  // ----- The same for players and robots

  ghost function PlayerValue(p: Player): Ro.PlayerState
    reads p
  {
    Ro.PlayerState(p.serial, if p.robot == null then None else Some(p.robot.serial))
  }

  ghost predicate PlayersFit(players: map<string, Player>, values: map<string, Ro.PlayerState>)
    reads players.Values
  {
    && values.Keys == players.Keys
    && forall p | p in players ::
         players[p].name == p && players[p].alive && values[p] == PlayerValue(players[p])
  }

  lemma PlayerFact(players: map<string, Player>, values: map<string, Ro.PlayerState>, name: string)
    requires PlayersFit(players, values) && name in players
    ensures name in values && players[name].name == name && players[name].alive
    ensures values[name].serial == players[name].serial
  {
  }

  ghost function RobotValue(r: Robot): Ro.RobotState
    reads r
  {
    Ro.RobotState(r.serial, r.robotId, r.team.name, r.hasRealRobot,
                  if r.player == null then None else Some(Ro.PlayerRef(r.player.name, r.player.serial)))
  }

  /** A weak pointer has not expired exactly when the players' map holds that very object. */
  ghost predicate PointerFits(p: Player, players: map<string, Player>)
    reads p
  {
    && (p.alive <==> p.name in players && players[p.name] == p)
    && (p.name in players && players[p.name].serial == p.serial ==> players[p.name] == p)
  }

  ghost predicate RobotObjectFits(robot: Robot, name: string, value: Ro.RobotState, players: map<string, Player>)
    reads robot, robot.player
  {
    && robot.name == name && value == RobotValue(robot)
    && (robot.player != null ==> PointerFits(robot.player, players))
  }

  ghost predicate RobotObjectsFit(robots: map<string, Robot>, values: map<string, Ro.RobotState>,
                                  players: map<string, Player>)
    reads robots.Values, set r | r in robots.Values && r.player != null :: r.player
  {
    && values.Keys == robots.Keys
    && forall r | r in robots :: RobotObjectFits(robots[r], r, values[r], players)
  }

  /** A player that is new has been pointed to by nobody. */
  lemma NewPlayerFits(robots: map<string, Robot>, robotValues: map<string, Ro.RobotState>,
                      players: map<string, Player>, values: map<string, Ro.PlayerState>, player: Player)
    requires RobotObjectsFit(robots, robotValues, players) && PlayersFit(players, values)
    requires player.name !in players && player.alive && player.robot == null
    requires forall r | r in robotValues && robotValues[r].player.Some? ::
               robotValues[r].player.value.serial != player.serial
    ensures PlayersFit(players[player.name := player], values[player.name := Ro.PlayerState(player.serial, None)])
    ensures RobotObjectsFit(robots, robotValues, players[player.name := player])
  {
    forall r | r in robots ensures RobotObjectFits(robots[r], r, robotValues[r], players[player.name := player]) {
      assert RobotObjectFits(robots[r], r, robotValues[r], players);
    }
  }

  /** Destroying a player expires the pointers to it and no others. */
  method DestroyPlayer(player: Player, ghost robots: map<string, Robot>, ghost robotValues: map<string, Ro.RobotState>,
                       ghost players: map<string, Player>, ghost values: map<string, Ro.PlayerState>)
    requires RobotObjectsFit(robots, robotValues, players) && PlayersFit(players, values)
    requires player.name in players && players[player.name] == player
    modifies player`alive
    ensures PlayersFit(players - {player.name}, values - {player.name})
    ensures RobotObjectsFit(robots, robotValues, players - {player.name})
  {
    forall r | r in robots ensures robots[r].player != null ==> PointerFits(robots[r].player, players) {
      assert RobotObjectFits(robots[r], r, robotValues[r], players);
    }
    player.Destroy();
    forall r | r in robots ensures RobotObjectFits(robots[r], r, robotValues[r], players - {player.name}) {
    }
  }

  lemma RobotObjectsFitWithout(robots: map<string, Robot>, values: map<string, Ro.RobotState>,
                               players: map<string, Player>, name: string)
    requires RobotObjectsFit(robots, values, players)
    ensures RobotObjectsFit(robots - {name}, values - {name}, players)
  {
    hide RobotObjectFits;
  }

  lemma RobotObjectsFitWith(robots: map<string, Robot>, values: map<string, Ro.RobotState>,
                            players: map<string, Player>, robot: Robot)
    requires RobotObjectsFit(robots, values, players) && robot.player == null
    ensures RobotObjectsFit(robots[robot.name := robot], values[robot.name := RobotValue(robot)], players)
  {
    forall r | r in robots ensures RobotObjectFits(robots[r], r, values[r], players) {
    }
  }

  method PointToRobot(player: Player, robot: Robot,
                      ghost robots: map<string, Robot>, ghost robotValues: map<string, Ro.RobotState>,
                      ghost players: map<string, Player>, ghost values: map<string, Ro.PlayerState>)
    requires RobotObjectsFit(robots, robotValues, players) && PlayersFit(players, values)
    requires player.name in players && players[player.name] == player
    modifies player`robot
    ensures values.Keys == players.Keys
    ensures PlayersFit(players, values[player.name := values[player.name].(robot := Some(robot.serial))])
    ensures RobotObjectsFit(robots, robotValues, players)
  {
    forall r | r in robots ensures RobotObjectFits(robots[r], r, robotValues[r], players) {
    }
    player.SetRobot(robot);
  }

  method PointToPlayer(robot: Robot, player: Player,
                       ghost robots: map<string, Robot>, ghost values: map<string, Ro.RobotState>,
                       ghost players: map<string, Player>)
    requires RobotObjectsFit(robots, values, players)
    requires player.name in players && players[player.name] == player && player.alive
    requires robot.name in robots && robots[robot.name] == robot
    modifies robot`player
    ensures values.Keys == robots.Keys
    ensures RobotObjectsFit(robots, values[robot.name := values[robot.name].(
                              player := Some(Ro.PlayerRef(player.name, player.serial)))], players)
  {
    forall r | r in robots ensures RobotObjectFits(robots[r], r, values[r], players) {
    }
    robot.SetPlayer(player);
  }

  method SetHasReal(robot: Robot, hasReal: bool,
                    ghost robots: map<string, Robot>, ghost values: map<string, Ro.RobotState>,
                    ghost players: map<string, Player>)
    requires RobotObjectsFit(robots, values, players)
    requires robot.name in robots && robots[robot.name] == robot
    modifies robot`hasRealRobot
    ensures values.Keys == robots.Keys
    ensures RobotObjectsFit(robots, values[robot.name := values[robot.name].(hasReal := hasReal)], players)
  {
    forall r | r in robots ensures RobotObjectFits(robots[r], r, values[r], players) {
    }
    robot.SetHasRealRobot(hasReal);
  }

  /** Starting and aborting captures one item at a time, seen from the whole list. */
  method NewContact(startTime: int, timerDuration: int, robot: Robot, item: Item,
                    all: seq<Item>, ghost points: nat, ghost items: seq<R.ItemState>) returns (c: Contact)
    requires ItemsFit(all, points, items) && item in all
    modifies item
    ensures fresh(c)
    ensures ContactFits(c, robot, all, R.ContactState(robot.team.name, item.index, startTime + timerDuration))
    ensures item.index < |items|
    ensures ItemsFit(all, points, items[item.index := R.StartCapture(items[item.index], robot.team.name)])
  {
    c := new Contact(startTime, timerDuration, robot, item);
  }

  method DestroyContact(c: Contact, all: seq<Item>, ghost points: nat, ghost items: seq<R.ItemState>)
    requires ItemsFit(all, points, items) && c.item in all
    modifies c.item
    ensures c.item.index < |items|
    ensures ItemsFit(all, points, if c.finished then items
                                  else items[c.item.index := R.AbortCapture(items[c.item.index])])
  {
    c.Destroy();
  }

  method StepContact(c: Contact, now: int, all: seq<Item>, teams: map<string, Team>,
                     ghost points: nat, ghost items: seq<R.ItemState>, ghost scores: map<string, nat>)
    returns (signal: StepSignal)
    requires ItemsFit(all, points, items) && TeamsFit(teams, scores)
    requires c.item in all && !c.finished
    requires c.robot.team.name in teams && teams[c.robot.team.name] == c.robot.team
    modifies c`finished, c.item, c.robot.team`score
    ensures signal == if now > c.stopTime then SILENCEIKILLU else AH_AH_AH_AH_STAYINGALIVE
    ensures c.finished <==> signal == SILENCEIKILLU
    ensures c.item.index < |items| && c.robot.team.name in scores
    ensures var captures := signal == SILENCEIKILLU && items[c.item.index].owner != c.robot.team.name;
            && ItemsFit(all, points, if captures then CapturedItem(items, c.item.index, c.robot.team.name) else items)
            && TeamsFit(teams, if captures then CapturedScore(scores, c.robot.team.name, points) else scores)
  {
    signal := c.Step(now);
  }

  /** Steps the contact and destroys it if it has matured; the other contacts are untouched. */
  method StepAndDestroy(c: Contact, now: int, all: seq<Item>, teams: map<string, Team>,
                        ghost points: nat, ghost items: seq<R.ItemState>, ghost scores: map<string, nat>,
                        ghost others: map<string, Contact>, ghost robots: map<string, Robot>,
                        ghost values: map<string, R.ContactState>)
    returns (signal: StepSignal)
    requires ItemsFit(all, points, items) && TeamsFit(teams, scores)
    requires c.item in all && !c.finished
    requires c.robot.team.name in teams && teams[c.robot.team.name] == c.robot.team
    requires c !in others.Values && ContactsFit(others, robots, all, values)
    modifies c`finished, c.item, c.robot.team`score
    ensures signal == if now > c.stopTime then SILENCEIKILLU else AH_AH_AH_AH_STAYINGALIVE
    ensures c.finished <==> signal == SILENCEIKILLU
    ensures c.item.index < |items| && c.robot.team.name in scores
    ensures var captures := signal == SILENCEIKILLU && items[c.item.index].owner != c.robot.team.name;
            && ItemsFit(all, points, if captures then CapturedItem(items, c.item.index, c.robot.team.name) else items)
            && TeamsFit(teams, if captures then CapturedScore(scores, c.robot.team.name, points) else scores)
    ensures ContactsFit(others, robots, all, values)
  {
    hide ItemsFit, TeamsFit, ContactsFit, CapturedScore;
    signal := StepContact(c, now, all, teams, points, items, scores);
    ghost var captures := signal == SILENCEIKILLU && items[c.item.index].owner != c.robot.team.name;
    if signal == SILENCEIKILLU {
      DestroyContact(c, all, points, if captures then CapturedItem(items, c.item.index, c.robot.team.name) else items);
    }
  }

  ghost function CapturedItem(items: seq<R.ItemState>, i: nat, team: string): seq<R.ItemState>
    requires i < |items|
  {
    items[i := items[i].(owner := team, phase := R.SUCCEEDED)]
  }

  ghost function CapturedScore(scores: map<string, nat>, team: string, points: nat): map<string, nat>
    requires team in scores
  {
    scores[team := R.IncreaseScore(scores[team], points)]
  }

  ghost function Started(s: R.State, rid: string, i: nat): (r: R.State)
    requires R.WellFormed(s) && rid in s.robots && i < |s.items|
    ensures R.WellFormed(r)
  {
    s.(items := s.items[i := R.StartCapture(s.items[i], s.robots[rid])])
  }

  lemma PassBegins(s: R.State, keys: seq<string>)
    requires R.WellFormed(s)
    ensures R.MatureAll(s, keys[..0]) == s
  {
  }

  lemma PassGoesOn(s: R.State, keys: seq<string>, n: nat)
    requires R.WellFormed(s) && n < |keys|
    ensures R.MatureAll(s, keys[..n + 1]) == R.Mature(R.MatureAll(s, keys[..n]), keys[n])
  {
    assert keys[..n + 1][..n] == keys[..n];
  }

  /** A turn of the loop, piece by piece. */
  lemma MaturePieces(s: R.State, rid: string)
    requires R.WellFormed(s) && rid in s.contacts
    ensures var r := R.Mature(s, rid);
            var c := s.contacts[rid];
            var matures := s.time > c.stopTime;
            var captures := matures && s.items[c.item].owner != c.team;
            && r.items == (if captures then CapturedItem(s.items, c.item, c.team) else s.items)
            && r.scores == (if captures then CapturedScore(s.scores, c.team, s.rules.points) else s.scores)
            && r.contacts == (if matures then s.contacts - {rid} else s.contacts)
            && r == s.(items := r.items, scores := r.scores, contacts := r.contacts, log := r.log)
            && (!matures ==> r == s)
  {
  }

  lemma InValues<V>(m: map<string, V>, key: string)
    requires key in m
    ensures m[key] in m.Values
  {
  }

  method ResetItems(registry: ItemRegistry, ghost points: nat, ghost items: seq<R.ItemState>)
    requires registry.Valid() && ItemsFit(registry.all, points, items)
    modifies registry.all
    ensures ItemsFit(registry.all, points, seq(|items|, _ => R.FRESH_ITEM))
  {
    registry.ResetAllItems();
  }

  lemma TeamNames(teams: map<string, Team>, scores: map<string, nat>)
    requires TeamsFit(teams, scores)
    ensures scores.Keys == teams.Keys && forall t | t in teams :: teams[t].name == t
  {
  }

  lemma ResetTeamsFit(teams: map<string, Team>, scores: map<string, nat>)
    requires scores.Keys == teams.Keys && forall t | t in teams :: teams[t].name == t && teams[t].score == 0
    ensures TeamsFit(teams, map t | t in scores :: 0)
  {
  }

  method ResetScores(teams: map<string, Team>, ghost scores: map<string, nat>)
    requires TeamsFit(teams, scores)
    modifies teams.Values
    ensures TeamsFit(teams, map t | t in scores :: 0)
  {
    hide Text.Increasing, TeamsFit;
    TeamNames(teams, scores);
    var keys := Text.SortedKeys(teams.Keys);
    for n := 0 to |keys|
      invariant forall k | 0 <= k < n :: teams[keys[k]].score == 0
    {
      InValues(teams, keys[n]);
      teams[keys[n]].ResetScore();
    }
    forall t | t in teams ensures teams[t].score == 0 {
      assert t in keys;
    }
    ResetTeamsFit(teams, scores);
  }
}
