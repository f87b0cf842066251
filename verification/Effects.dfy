/**
 What every operation of the round does, field by field, in plain numbers and states: the
 meaning of the round machine apart from how it is put together.
 */
module Effects {
  import opened Options
  import opened Round
  import Captures
  import Lifecycle
  import Text
  import Timing

  /** A robot that lets go leaves the item it was in contact with FAILED, whatever it was before. */
  lemma Releasing(s: State, rid: string)
    requires WellFormed(s)
    ensures var r := Apply(s, Release(rid));
            && |r.items| == |s.items|
            && (forall i | 0 <= i < |s.items| ::
                  r.items[i] == if rid in s.contacts && s.contacts[rid].item == i
                                then ItemState(s.items[i].owner, s.items[i].capturing, FAILED) else s.items[i])
            && r.contacts == s.contacts - {rid}
            && r == s.(items := r.items, contacts := r.contacts)
  {
    assert rid !in s.contacts ==> s.contacts - {rid} == s.contacts;
  }

  /**
   A touch of another team's item marks it as being captured by the robot's team; then the
   contact that the robot had is destroyed, and leaves its item FAILED.
   */
  lemma Touching(s: State, rid: string, item: nat)
    requires WellFormed(s)
    ensures var r := Apply(s, Touch(rid, item));
            if rid !in s.robots || item >= |s.items| then r == s
            else
              && |r.items| == |s.items|
              && (forall i | 0 <= i < |s.items| ::
                    var taken := i == item && s.items[i].owner != s.robots[rid];
                    && r.items[i].owner == s.items[i].owner
                    && r.items[i].capturing == (if taken then s.robots[rid] else s.items[i].capturing)
                    && r.items[i].phase == (if rid in s.contacts && s.contacts[rid].item == i then FAILED
                                            else if taken then STARTED else s.items[i].phase))
              && r.contacts == s.contacts[rid := ContactState(s.robots[rid], item, s.time + s.rules.timeToCapture)]
              && r == s.(items := r.items, contacts := r.contacts)
  {
  }

  /** Stopping a running round leaves every item PENDING, with no owner and no captor. */
  lemma Stopping(s: State)
    requires WellFormed(s)
    ensures var r := Apply(s, Stop);
            if !s.running then r == s
            else
              && |r.items| == |s.items|
              && (forall i | 0 <= i < |s.items| :: r.items[i] == ItemState("", "", PENDING))
              && r == s.(running := false, items := r.items, log := s.log + [ItemsReset])
  {
  }

  /** A forced start takes winner, points and owners; a start takes effect on a round that does not run. */
  lemma Starting(s: State, force: bool, now: int)
    requires WellFormed(s)
    ensures var r := Apply(s, Start(force, now));
            && r.running && |r.items| == |s.items| && r.scores.Keys == s.scores.Keys
            && (if force || !s.running then r.startTime == now && r.time == now
                else r.startTime == s.startTime && r.time == s.time)
            && r.winner == (if force then None else s.winner)
            && (forall t | t in s.scores :: r.scores[t] == if force then 0 else s.scores[t])
            && (forall i | 0 <= i < |s.items| ::
                  r.items[i] == if force && s.running then ItemState("", "", PENDING) else s.items[i])
            && r == s.(running := true, startTime := r.startTime, time := r.time, winner := r.winner,
                       scores := r.scores, items := r.items, log := r.log)
  {
  }

  /** An agent's edit sets the score of a team with a name, to a number of 32 bits. */
  lemma SettingScore(s: State, team: string, score: nat)
    requires WellFormed(s)
    ensures var r := Apply(s, SetScore(team, score));
            if team in s.scores && team != "" && score < 4_294_967_296
            then r == s.(scores := s.scores[team := score], log := s.log + [ScoreSet(team, score)])
            else r == s
  {
  }

  /** Setting time or duration, and adding teams and robots, do that and nothing else. */
  lemma SettingUp(s: State, value: int, name: string, team: string)
    requires WellFormed(s)
    ensures Apply(s, SetTime(value)) == s.(time := value)
    ensures Apply(s, SetDuration(value)) == s.(duration := value)
    ensures Apply(s, AddTeam(team)) == if team in s.scores then s else s.(scores := s.scores[team := 0])
    ensures Apply(s, AddRobot(name, team)) ==
              if team in s.scores && name !in s.robots then s.(robots := s.robots[name := team]) else s
  {
  }

  /** A new game: nothing runs, nothing is owned, nobody is there. */
  lemma NewGameIs(rules: Rules, duration: int, items: nat, now: int)
    ensures var s := NewGame(rules, duration, items, now);
            && !s.running && s.winner == None && s.scores == map[] && s.robots == map[] && s.contacts == map[]
            && s.log == [] && s.rules == rules && s.duration == duration
            && |s.items| == items && forall i | 0 <= i < items :: s.items[i] == ItemState("", "", PENDING)
  {
  }

  // ----- A tick

  function CapturesOf(events: seq<Event>, team: string): nat {
    if events == [] then 0
    else
      var last := events[|events| - 1];
      CapturesOf(events[..|events| - 1], team) + if last.Captured? && last.team == team then 1 else 0
  }

  /** A score after so many captures: 16 bits of points each, in a counter of 32 bits. */
  function Counted(score: nat, points: nat, n: nat): nat {
    if n == 0 then score else (score + points % 65_536 * n) % 4_294_967_296
  }

  lemma CountedNext(score: nat, points: nat, n: nat)
    ensures IncreaseScore(Counted(score, points, n), points) == Counted(score, points, n + 1)
  {
    var p := points % 65_536;
    assert p * (n + 1) == p * n + p;
    if n > 0 {
      Wrapping(score + p * n, p);
    }
  }

  lemma Wrapping(x: nat, p: nat)
    ensures (x % 4_294_967_296 + p) % 4_294_967_296 == (x + p) % 4_294_967_296
  {
  }

  lemma MatureScores(s: State, rid: string, before: seq<Event>, t: string)
    requires WellFormed(s) && before <= s.log && t in s.scores
    ensures var r := Mature(s, rid);
            && before <= r.log && r.scores.Keys == s.scores.Keys
            && (r.log != s.log ==> rid in s.contacts)
            && CapturesOf(r.log[|before|..], t) == CapturesOf(s.log[|before|..], t)
                 + (if r.log != s.log && s.contacts[rid].team == t then 1 else 0)
            && r.scores[t] == (if r.log != s.log && s.contacts[rid].team == t
                               then IncreaseScore(s.scores[t], s.rules.points) else s.scores[t])
  {
    hide IncreaseScore;
    var r := Mature(s, rid);
    if r.log != s.log {
      var e := Captured(s.contacts[rid].item, s.contacts[rid].team);
      assert r.log == s.log + [e];
      assert r.log[|before|..] == s.log[|before|..] + [e];
      assert (s.log[|before|..] + [e])[..|s.log[|before|..]|] == s.log[|before|..];
    }
  }

  lemma {:induction false} PassScores(s: State, keys: seq<string>, t: string)
    requires WellFormed(s) && t in s.scores
    ensures var r := MatureAll(s, keys);
            && s.log <= r.log && r.scores.Keys == s.scores.Keys && r.rules == s.rules
            && r.scores[t] == Counted(s.scores[t], s.rules.points, CapturesOf(r.log[|s.log|..], t))
  {
    hide Mature, Counted, IncreaseScore;
    if keys == [] {
      NothingCounted(s.scores[t], s.rules.points);
      assert s.log[|s.log|..] == [];
    } else {
      var m := MatureAll(s, keys[..|keys| - 1]);
      PassScores(s, keys[..|keys| - 1], t);
      MatureScores(m, keys[|keys| - 1], s.log, t);
      Timing.MatureContacts(m, keys[|keys| - 1]);
      CountedNext(s.scores[t], s.rules.points, CapturesOf(m.log[|s.log|..], t));
    }
  }

  lemma NothingCounted(score: nat, points: nat)
    ensures Counted(score, points, 0) == score
  {
  }

  /** The item falls to the team of the greatest robot id whose contact with it falls due. */
  ghost predicate FallsTo(s: State, i: nat, rid: string) {
    && rid in s.contacts && s.contacts[rid].item == i && s.time > s.contacts[rid].stopTime
    && forall k | k in s.contacts && s.contacts[k].item == i && s.time > s.contacts[k].stopTime ::
         k == rid || Text.Less(k, rid)
  }

  /** Somebody captures the item: a contact with it falls due for another team than its owner. */
  ghost predicate IsCaptured(s: State, i: nat)
    requires i < |s.items|
  {
    exists rid :: rid in s.contacts && s.contacts[rid].item == i && s.time > s.contacts[rid].stopTime
                  && s.contacts[rid].team != s.items[i].owner
  }

  /** The pass over the contacts, item by item, team by team and contact by contact. */
  lemma Handling(s: State, i: nat, t: string, rid: string)
    requires WellFormed(s) && i < |s.items| && t in s.scores
    ensures var r := HandleContacts(s);
            && |r.items| == |s.items| && r.scores.Keys == s.scores.Keys && s.log <= r.log
            && r.items[i].capturing == s.items[i].capturing
            && r.items[i].phase == (if IsCaptured(s, i) then SUCCEEDED else s.items[i].phase)
            && (!IsCaptured(s, i) ==> r.items[i].owner == s.items[i].owner)
            && (forall last | FallsTo(s, i, last) :: r.items[i].owner == s.contacts[last].team)
            && r.scores[t] == Counted(s.scores[t], s.rules.points, CapturesOf(r.log[|s.log|..], t))
            && (rid in r.contacts <==> rid in s.contacts && s.time <= s.contacts[rid].stopTime)
            && (rid in r.contacts ==> r.contacts[rid] == s.contacts[rid])
  {
    hide MatureAll, Counted, CapturesOf;
    var keys := Text.SortedKeys(s.contacts.Keys);
    Timing.HandledContacts(s, rid);
    PassScores(s, keys, t);
    Captures.AfterPass(s, keys, i);
    PassKeepsCaptor(s, keys, i);
    assert IsCaptured(s, i) <==>
        exists k :: k in keys && Timing.Due(s, i, k) && s.contacts[k].team != s.items[i].owner;
    forall last | FallsTo(s, i, last) ensures HandleContacts(s).items[i].owner == s.contacts[last].team {
      OwnerFalls(s, i, last);
    }
  }

  lemma OwnerFalls(s: State, i: nat, rid: string)
    requires WellFormed(s) && i < |s.items| && FallsTo(s, i, rid)
    ensures |HandleContacts(s).items| == |s.items| && HandleContacts(s).items[i].owner == s.contacts[rid].team
  {
    Timing.OwnerAfterHandling(s, i, rid);
    var last :| (last == rid || Text.Less(rid, last)) && Timing.Due(s, i, last)
                && HandleContacts(s).items[i].owner == s.robots[last]
                && forall k | Timing.Due(s, i, k) :: k == last || Text.Less(k, last);
    if last != rid {
      Text.LessAsymmetric(rid, last);
    }
  }

  lemma {:induction false} PassKeepsCaptor(s: State, keys: seq<string>, i: nat)
    requires WellFormed(s) && i < |s.items|
    ensures |MatureAll(s, keys).items| == |s.items|
    ensures MatureAll(s, keys).items[i].capturing == s.items[i].capturing
  {
    if keys != [] {
      PassKeepsCaptor(s, keys[..|keys| - 1], i);
    }
  }

  predicate Enough(s: State, team: string) {
    team in s.scores && s.scores[team] >= s.rules.scoreToWin
  }

  /**
   A tick is the pass, after which a running round is stopped as by Stop when no second is
   left or some team has at least the winning score.
   */
  lemma Ticking(s: State)
    requires WellFormed(s)
    ensures var h := HandleContacts(s);
            var r := Apply(s, Step);
            && h == s.(items := h.items, scores := h.scores, contacts := h.contacts, log := h.log)
            && r == if SecondsLeft(s) == 0 || exists t :: t in h.scores && h.scores[t] >= s.rules.scoreToWin
                    then Apply(h, Stop).(winner := r.winner) else h
  {
    hide HandleContacts, StopIfFinished, StopRound, SecondsLeft, Apply;
    var h := HandleContacts(s);
    HandlingKeeps(s);
    SameSeconds(s, h);
    Lifecycle.TickOutcome(s);
    FinishedStops(h);
    StopIsApplied(h);
    StopKeepsWinner(h);
    StepIsTick(s);
    TickIs(s);
  }

  /** With time left, a team that alone has at least the winning score is named; otherwise nobody is. */
  lemma Winning(s: State, team: string)
    requires WellFormed(s)
    ensures var h := HandleContacts(s);
            var r := Apply(s, Step);
            && (SecondsLeft(s) == 0 ==> r.winner == s.winner)
            && (SecondsLeft(s) != 0 && team in h.scores && h.scores[team] >= s.rules.scoreToWin
                && (forall u | u in h.scores && u != team :: h.scores[u] < s.rules.scoreToWin) ==>
                  r.winner == Some(team))
            && (!(exists t :: Enough(h, t) && forall u | u in h.scores && u != t :: !Enough(h, u)) ==>
                  r.winner == s.winner)
  {
    hide HandleContacts, SecondsLeft, Apply;
    var h := HandleContacts(s);
    HandlingKeeps(s);
    SameSeconds(s, h);
    Lifecycle.TickOutcome(s);
    StepIsTick(s);
    hide Tick;
    assert team in h.scores && h.scores[team] >= s.rules.scoreToWin
           && (forall u | u in h.scores && u != team :: h.scores[u] < s.rules.scoreToWin) ==>
             Lifecycle.LeadsAlone(h, team);
    forall t | Lifecycle.LeadsAlone(h, t) ensures Enough(h, t) && forall u | u in h.scores && u != t :: !Enough(h, u) {
    }
  }

  lemma TickIs(s: State)
    requires WellFormed(s)
    ensures Tick(s) == StopIfFinished(HandleContacts(s))
  {
  }

  lemma StopIsApplied(s: State)
    requires WellFormed(s)
    ensures Apply(s, Stop) == StopRound(s)
  {
  }

  lemma FinishedStops(s: State)
    requires WellFormed(s)
    ensures var r := StopIfFinished(s);
            SecondsLeft(s) == 0 || !Lifecycle.NobodyLeads(s) ==> r == StopRound(s.(winner := r.winner))
  {
    hide Crown, StopRound, SecondsLeft;
    Lifecycle.LeadersLead(s);
    assert s.(winner := s.winner) == s;
    StopKeepsWinner(s);
    StopKeepsWinner(Crown(s));
  }

  lemma StopKeepsWinner(s: State)
    requires WellFormed(s)
    ensures StopRound(s).winner == s.winner
    ensures forall w :: StopRound(s.(winner := w)) == StopRound(s).(winner := w)
  {
  }

  lemma SameSeconds(s: State, r: State)
    requires r.running == s.running && r.time == s.time && r.startTime == s.startTime && r.duration == s.duration
    ensures SecondsLeft(r) == SecondsLeft(s)
  {
  }

  lemma HandlingKeeps(s: State)
    requires WellFormed(s)
    ensures var r := HandleContacts(s);
            r == s.(items := r.items, scores := r.scores, contacts := r.contacts, log := r.log)
  {
    hide MatureAll;
    PassKeeps(s, Text.SortedKeys(s.contacts.Keys));
  }

  lemma {:induction false} PassKeeps(s: State, keys: seq<string>)
    requires WellFormed(s)
    ensures var r := MatureAll(s, keys);
            r == s.(items := r.items, scores := r.scores, contacts := r.contacts, log := r.log)
  {
    if keys != [] {
      PassKeeps(s, keys[..|keys| - 1]);
    }
  }

  // ----- Seconds

  /** Whole seconds, cut off towards zero. */
  lemma WholeSeconds(d: int)
    ensures d >= 0 ==> 0 <= d - 1_000_000 * TotalSeconds(d) < 1_000_000
    ensures TotalSeconds(-d) == -TotalSeconds(d)
  {
  }

  /** Out of a round all the time is left; in one, what has not passed, modulo 2^64. */
  lemma SecondsAre(s: State)
    ensures !s.running && 0 <= s.duration < 1_000_000 * 18_446_744_073_709_551_616 ==>
              0 <= s.duration - 1_000_000 * SecondsLeft(s) < 1_000_000
    ensures s.running ==>
              (SecondsLeft(s) - (TotalSeconds(s.duration) - TotalSeconds(s.time - s.startTime)))
              % 18_446_744_073_709_551_616 == 0
    ensures SecondsLeft(s) < 18_446_744_073_709_551_616
  {
    var left := TotalSeconds(s.duration) - TotalSeconds(s.time - s.startTime);
    assert left % U64 == left + (-(left / U64)) * U64;
  }
}
