/** Ownership and scores are what the log of captures says they are. */
module Scores {
  import opened Options
  import opened Round
  import Text

  /** The owner of an item according to the log: its last captor since the last reset. */
  function OwnerOf(log: seq<Event>, item: nat): string {
    if log == [] then ""
    else match log[|log| - 1]
      case Captured(i, team) => if i == item then team else OwnerOf(log[..|log| - 1], item)
      case ItemsReset => ""
      case _ => OwnerOf(log[..|log| - 1], item)
  }

  /** The score a team last started counting from. */
  function BaseOf(log: seq<Event>, team: string): nat {
    if log == [] then 0
    else match log[|log| - 1]
      case ScoresReset => 0
      case ScoreSet(t, v) => if t == team then v else BaseOf(log[..|log| - 1], team)
      case _ => BaseOf(log[..|log| - 1], team)
  }

  /** How many times the team captured an item since its score was last set or reset. */
  function CapturesBy(log: seq<Event>, team: string): nat {
    if log == [] then 0
    else match log[|log| - 1]
      case ScoresReset => 0
      case ScoreSet(t, v) => if t == team then 0 else CapturesBy(log[..|log| - 1], team)
      case Captured(_, t) => CapturesBy(log[..|log| - 1], team) + if t == team then 1 else 0
      case ItemsReset => CapturesBy(log[..|log| - 1], team)
  }

  /** The score as the team's counter computes it, event by event. */
  function ScoreOf(log: seq<Event>, team: string, points: nat): nat {
    if log == [] then 0
    else match log[|log| - 1]
      case ScoresReset => 0
      case ScoreSet(t, v) => if t == team then v else ScoreOf(log[..|log| - 1], team, points)
      case Captured(_, t) =>
        if t == team then IncreaseScore(ScoreOf(log[..|log| - 1], team, points), points)
        else ScoreOf(log[..|log| - 1], team, points)
      case ItemsReset => ScoreOf(log[..|log| - 1], team, points)
  }

  ghost predicate SetsFit(log: seq<Event>) {
    forall k | 0 <= k < |log| && log[k].ScoreSet? :: log[k].score < U32
  }

  /** A score that started from a base, after n captures. */
  function Worth(base: nat, points: nat, n: nat): nat {
    (base + points % U16 * n) % U32
  }

  lemma WorthAtFirst(base: nat, points: nat)
    requires base < U32
    ensures Worth(base, points, 0) == base
  {
  }

  lemma WorthNext(base: nat, points: nat, n: nat)
    ensures IncreaseScore(Worth(base, points, n), points) == Worth(base, points, n + 1)
  {
    AddPoints(base, points % U16, n);
  }

  lemma {:induction false} ScoreIsWorth(log: seq<Event>, team: string, points: nat)
    requires SetsFit(log)
    ensures ScoreOf(log, team, points) == Worth(BaseOf(log, team), points, CapturesBy(log, team))
  {
    hide Worth, IncreaseScore;
    if log == [] {
      WorthAtFirst(0, points);
    } else {
      var most, last := log[..|log| - 1], log[|log| - 1];
      ScoreIsWorth(most, team, points);
      match last
      case Captured(_, _) => WorthNext(BaseOf(most, team), points, CapturesBy(most, team));
      case ScoresReset => WorthAtFirst(0, points);
      case ScoreSet(_, score) => WorthAtFirst(score, points);
      case ItemsReset =>
    }
  }

  /** Counting in wrapped steps is wrapping the count. */
  lemma ScoreIsPointsTimesCaptures(log: seq<Event>, team: string, points: nat)
    requires SetsFit(log)
    ensures ScoreOf(log, team, points) == (BaseOf(log, team) + points % U16 * CapturesBy(log, team)) % U32
  {
    hide ScoreOf, BaseOf, CapturesBy;
    ScoreIsWorth(log, team, points);
  }

  /** Every capture in the log handed the item to a team that did not own it already. */
  ghost predicate RealChanges(log: seq<Event>) {
    forall k | 0 <= k < |log| && log[k].Captured? :: OwnerOf(log[..k], log[k].item) != log[k].team
  }

  ghost predicate Accounted(s: State) {
    && RealChanges(s.log)
    && (forall i | 0 <= i < |s.items| :: s.items[i].owner == OwnerOf(s.log, i))
    && (forall t | t in s.scores :: s.scores[t] == ScoreOf(s.log, t, s.rules.points))
    && (forall t | t !in s.scores :: ScoreOf(s.log, t, s.rules.points) == 0)
    && SetsFit(s.log)
  }

  lemma Extend(log: seq<Event>, e: Event)
    requires RealChanges(log)
    requires e.Captured? ==> OwnerOf(log, e.item) != e.team
    ensures RealChanges(log + [e])
  {
    var more := log + [e];
    assert more[..|log|] == log;
    forall k | 0 <= k < |more| && more[k].Captured?
      ensures OwnerOf(more[..k], more[k].item) != more[k].team
    {
      assert more[..k] == log[..k];
    }
  }

  lemma AddPoints(base: nat, points: nat, n: nat)
    ensures ((base + points * n) % U32 + points) % U32 == (base + points * (n + 1)) % U32
  {
    var whole := base + points * n;
    assert points * (n + 1) == points * n + points;
    var q := whole / U32;
    assert whole == U32 * q + whole % U32;
    ModShift(whole % U32 + points, q);
  }

  lemma ModShift(x: int, q: int)
    ensures (x + U32 * q) % U32 == x % U32
  {
    var d := x / U32;
    assert x + U32 * q == U32 * (d + q) + x % U32;
    Remainder(x + U32 * q, d + q, x % U32);
  }

  lemma Remainder(x: int, q: int, r: int)
    requires x == U32 * q + r && 0 <= r < U32
    ensures x % U32 == r
  {
  }

  lemma CaptureKeeps(s: State, item: nat, team: string)
    requires WellFormed(s) && Accounted(s) && item < |s.items| && team in s.scores
    ensures Accounted(Capture(s, item, team))
  {
    hide OwnerOf, ScoreOf, IncreaseScore, RealChanges;
    var r := Capture(s, item, team);
    if s.items[item].owner != team {
      Extend(s.log, Captured(item, team));
      forall i ensures OwnerOf(r.log, i) == if i == item then team else OwnerOf(s.log, i) {
        OwnerAfterCapture(s.log, item, team, i);
      }
      forall t
        ensures ScoreOf(r.log, t, s.rules.points) ==
                  if t == team then IncreaseScore(ScoreOf(s.log, t, s.rules.points), s.rules.points)
                  else ScoreOf(s.log, t, s.rules.points)
      {
        ScoreAfterCapture(s.log, item, team, t, s.rules.points);
      }
    }
  }

  lemma OwnerAfterCapture(log: seq<Event>, item: nat, team: string, i: nat)
    ensures OwnerOf(log + [Captured(item, team)], i) == if i == item then team else OwnerOf(log, i)
  {
    assert (log + [Captured(item, team)])[..|log|] == log;
  }

  lemma ScoreAfterCapture(log: seq<Event>, item: nat, team: string, t: string, points: nat)
    ensures ScoreOf(log + [Captured(item, team)], t, points) ==
              if t == team then IncreaseScore(ScoreOf(log, t, points), points) else ScoreOf(log, t, points)
  {
    hide IncreaseScore;
    assert (log + [Captured(item, team)])[..|log|] == log;
  }

  lemma {:induction false} MatureAllKeeps(s: State, keys: seq<string>)
    requires WellFormed(s) && Accounted(s)
    ensures Accounted(MatureAll(s, keys))
  {
    if keys != [] {
      MatureAllKeeps(s, keys[..|keys| - 1]);
      var m := MatureAll(s, keys[..|keys| - 1]);
      var rid := keys[|keys| - 1];
      if Matures(m, rid) {
        CaptureKeeps(m, m.contacts[rid].item, m.contacts[rid].team);
      }
    }
  }

  lemma StopKeeps(s: State)
    requires WellFormed(s) && Accounted(s)
    ensures Accounted(StopRound(s))
  {
    Extend(s.log, ItemsReset);
    assert (s.log + [ItemsReset])[..|s.log|] == s.log;
  }

  lemma ResetKeeps(s: State)
    requires WellFormed(s) && Accounted(s)
    ensures Accounted(ResetScores(s))
  {
    Extend(s.log, ScoresReset);
    assert (s.log + [ScoresReset])[..|s.log|] == s.log;
  }

  lemma SetKeeps(s: State, team: string, score: nat)
    requires WellFormed(s) && Accounted(s)
    ensures Accounted(Apply(s, SetScore(team, score)))
  {
    Extend(s.log, ScoreSet(team, score));
    assert (s.log + [ScoreSet(team, score)])[..|s.log|] == s.log;
  }

  lemma TickKeeps(s: State)
    requires WellFormed(s) && Accounted(s)
    ensures Accounted(Tick(s))
  {
    hide StopIfFinished, StopRound;
    MatureAllKeeps(s, Text.SortedKeys(s.contacts.Keys));
    var h := HandleContacts(s);
    FinishStopsOrNot(h);
    StopKeeps(h.(winner := Tick(s).winner));
  }

  lemma StartKeeps(s: State, force: bool, now: int)
    requires WellFormed(s) && Accounted(s)
    ensures Accounted(StartRound(s, force, now))
  {
    var cleared := s.(winner := None);
    ResetKeeps(cleared);
    StopKeeps(ResetScores(cleared));
  }

  lemma TouchKeeps(s: State, op: Op)
    requires WellFormed(s) && Accounted(s) && (op.Touch? || op.Release?)
    ensures Accounted(Apply(s, op))
  {
    hide RealChanges, SetsFit;
    assert |Apply(s, op).items| == |s.items|;
  }

  lemma ApplyKeeps(s: State, op: Op)
    requires WellFormed(s) && Accounted(s)
    ensures Accounted(Apply(s, op))
  {
    hide Tick, StartRound, StopRound, Contact, Drop;
    match op
    case Step => TickKeeps(s);
    case Start(force, now) => StartKeeps(s, force, now);
    case Stop => StopKeeps(s);
    case SetScore(team, score) => SetKeeps(s, team, score);
    case Touch(_, _) => TouchKeeps(s, op);
    case Release(_) => TouchKeeps(s, op);
    case SetTime(_) =>
    case SetDuration(_) =>
    case AddTeam(_) =>
    case AddRobot(_, _) =>
  }

  /**
   In every reachable state each item's owner is its last captor since the last reset,
   no capture was by the owner of the moment, and each score is the points for the
   team's captures since the score was last set or reset, in fixed-width arithmetic:
   points truncated to 16 bits, the sum to 32.
   */
  lemma {:induction false} ScoresAreConserved(s: State, ops: seq<Op>)
    requires WellFormed(s) && Accounted(s)
    ensures Accounted(Run(s, ops))
  {
    hide Apply, Accounted;
    if ops != [] {
      ScoresAreConserved(s, ops[..|ops| - 1]);
      ApplyKeeps(Run(s, ops[..|ops| - 1]), ops[|ops| - 1]);
    }
  }

  /** Between two events that touch the item's ownership, the log's owner does not move. */
  lemma {:induction false} OwnerPersists(log: seq<Event>, j: nat, k: nat, item: nat)
    requires j < k <= |log| && log[j].Captured? && log[j].item == item
    requires forall m | j < m < k :: !log[m].ItemsReset? && (log[m].Captured? ==> log[m].item != item)
    ensures OwnerOf(log[..k], item) == log[j].team
  {
    assert log[..k][..k - 1] == log[..k - 1];
    if j < k - 1 {
      OwnerPersists(log, j, k - 1, item);
    }
  }

  /** An item's captures since its last reset never have the same team twice in a row. */
  lemma CapturesAlternate(log: seq<Event>, j: nat, k: nat)
    requires RealChanges(log)
    requires j < k < |log| && log[j].Captured? && log[k].Captured? && log[j].item == log[k].item
    requires forall m | j < m < k :: !log[m].ItemsReset? && (log[m].Captured? ==> log[m].item != log[j].item)
    ensures log[j].team != log[k].team
  {
    OwnerPersists(log, j, k, log[j].item);
  }

  ghost predicate Unedited(log: seq<Event>) {
    forall k | 0 <= k < |log| :: !log[k].ScoreSet?
  }

  lemma {:induction false} UneditedStartsFromZero(log: seq<Event>, team: string)
    requires Unedited(log)
    ensures BaseOf(log, team) == 0
  {
    if log != [] {
      UneditedStartsFromZero(log[..|log| - 1], team);
    }
  }

  lemma {:induction false} MatureAllDoesNotEdit(s: State, keys: seq<string>)
    requires WellFormed(s) && Unedited(s.log)
    ensures Unedited(MatureAll(s, keys).log)
  {
    if keys != [] {
      MatureAllDoesNotEdit(s, keys[..|keys| - 1]);
    }
  }

  lemma TickDoesNotEdit(s: State)
    requires WellFormed(s) && Unedited(s.log)
    ensures Unedited(Tick(s).log)
  {
    hide StopIfFinished;
    MatureAllDoesNotEdit(s, Text.SortedKeys(s.contacts.Keys));
    FinishStopsOrNot(HandleContacts(s));
  }

  lemma StartDoesNotEdit(s: State, force: bool, now: int)
    requires WellFormed(s) && Unedited(s.log)
    ensures Unedited(StartRound(s, force, now).log)
  {
  }

  lemma ApplyDoesNotEdit(s: State, op: Op)
    requires WellFormed(s) && Unedited(s.log) && !op.SetScore?
    ensures Unedited(Apply(s, op).log)
  {
    hide Tick, StartRound;
    match op
    case Step => TickDoesNotEdit(s);
    case Start(force, now) => StartDoesNotEdit(s, force, now);
    case Stop =>
    case Touch(_, _) =>
    case Release(_) =>
    case SetTime(_) =>
    case SetDuration(_) =>
    case AddTeam(_) =>
    case AddRobot(_, _) =>
  }

  lemma {:induction false} RunDoesNotEdit(s: State, ops: seq<Op>)
    requires WellFormed(s) && Unedited(s.log)
    requires forall k | 0 <= k < |ops| :: !ops[k].SetScore?
    ensures Unedited(Run(s, ops).log)
  {
    if ops != [] {
      RunDoesNotEdit(s, ops[..|ops| - 1]);
      ApplyDoesNotEdit(Run(s, ops[..|ops| - 1]), ops[|ops| - 1]);
    }
  }

  lemma NewGameIsAccounted(g: State, ops: seq<Op>)
    requires g == NewGame(g.rules, g.duration, |g.items|, g.time)
    ensures Accounted(Run(g, ops))
    ensures (forall k | 0 <= k < |ops| :: !ops[k].SetScore?) ==> Unedited(Run(g, ops).log)
  {
    ScoresAreConserved(g, ops);
    if forall k | 0 <= k < |ops| :: !ops[k].SetScore? {
      RunDoesNotEdit(g, ops);
    }
  }

  /** A team's score as one product: base, points and number of captures. */
  lemma ScoreInClosedForm(s: State, team: string)
    requires Accounted(s) && team in s.scores
    ensures s.scores[team] == (BaseOf(s.log, team) + s.rules.points % U16 * CapturesBy(s.log, team)) % U32
    ensures Unedited(s.log) ==> s.scores[team] == (s.rules.points % U16 * CapturesBy(s.log, team)) % U32
  {
    ScoreIsPointsTimesCaptures(s.log, team, s.rules.points);
    if Unedited(s.log) {
      UneditedStartsFromZero(s.log, team);
    }
  }

  /** The whole of it for a game from its construction on, whatever happens to it. */
  lemma ScoreConservation(g: State, ops: seq<Op>, team: string)
    requires g == NewGame(g.rules, g.duration, |g.items|, g.time)
    requires team in Run(g, ops).scores
    ensures var s := Run(g, ops);
            && RealChanges(s.log)
            && (forall i | 0 <= i < |s.items| :: s.items[i].owner == OwnerOf(s.log, i))
            && s.scores[team] == (BaseOf(s.log, team) + s.rules.points % U16 * CapturesBy(s.log, team)) % U32
            && ((forall k | 0 <= k < |ops| :: !ops[k].SetScore?) ==>
                  s.scores[team] == (s.rules.points % U16 * CapturesBy(s.log, team)) % U32)
  {
    hide Run;
    NewGameIsAccounted(g, ops);
    ScoreInClosedForm(Run(g, ops), team);
  }
}
