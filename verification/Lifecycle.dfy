/** How rounds begin and end, over every run that the server's loop and agents can produce. */
module Lifecycle {
  import opened Options
  import opened Round
  import Timing
  import Text

  /** The server steps the game only while it runs, and always forces a start. */
  ghost predicate ServerDriven(s: State, ops: seq<Op>)
    requires WellFormed(s)
  {
    forall k | 0 <= k < |ops| ::
      && (ops[k].Step? ==> At(s, ops, k).running)
      && (ops[k].Start? ==> ops[k].force)
  }

  ghost predicate Unowned(s: State) {
    forall i | 0 <= i < |s.items| :: s.items[i].owner == ""
  }

  ghost predicate BetweenRounds(s: State) {
    && (!s.running ==> Unowned(s))
    && (s.running ==> s.winner == None)
  }

  /** No team has enough points to win. */
  predicate NobodyLeads(s: State) {
    forall t | t in s.scores :: s.scores[t] < s.rules.scoreToWin
  }

  /** This team has enough points to win, and no other has. */
  predicate LeadsAlone(s: State, team: string) {
    && team in s.scores && s.scores[team] >= s.rules.scoreToWin
    && forall t | t in s.scores && t != team :: s.scores[t] < s.rules.scoreToWin
  }

  lemma LeadersLead(s: State)
    ensures Leaders(s) == {} <==> NobodyLeads(s)
    ensures forall team :: Leaders(s) == {team} <==> LeadsAlone(s, team)
    ensures |Leaders(s)| == 1 <==> exists team :: LeadsAlone(s, team)
  {
    forall t ensures t in Leaders(s) <==> t in s.scores && s.scores[t] >= s.rules.scoreToWin {
    }
    forall team ensures Leaders(s) == {team} <==> LeadsAlone(s, team) {
      if LeadsAlone(s, team) {
        assert Leaders(s) == {team};
      }
    }
    if |Leaders(s)| == 1 {
      var team :| team in Leaders(s);
      Text.OnlyOne(Leaders(s), team);
      assert LeadsAlone(s, team);
    }
  }

  lemma StopLeavesUnowned(s: State)
    requires WellFormed(s) && (!s.running ==> Unowned(s))
    ensures !StopRound(s).running && Unowned(StopRound(s)) && StopRound(s).winner == s.winner
  {
  }

  /** The whole outcome of a tick, as the standings after its captures decide it. */
  lemma TickOutcome(s: State)
    requires WellFormed(s)
    ensures var h := HandleContacts(s);
            var r := Tick(s);
            && (r.running <==> s.running && SecondsLeft(h) != 0 && NobodyLeads(h))
            && (SecondsLeft(h) != 0 && NobodyLeads(h) ==> r == h)
            && (forall team | SecondsLeft(h) != 0 && LeadsAlone(h, team) :: r.winner == Some(team))
            && (SecondsLeft(h) == 0 || !(exists team :: LeadsAlone(h, team)) ==> r.winner == h.winner)
            && (s.running && !r.running ==> Unowned(r))
  {
    hide HandleContacts, Crown, Leaders, NobodyLeads, LeadsAlone;
    Timing.HandledContacts(s, "");
    CrownsLoneLeader(HandleContacts(s));
    LeadersLead(HandleContacts(s));
  }

  lemma CrownsLoneLeader(s: State)
    ensures if |Leaders(s)| == 1 then Crown(s).winner.Some? && Leaders(s) == {Crown(s).winner.value}
            else Crown(s) == s
  {
    var leaders := Text.SortedKeys(Leaders(s));
    if |leaders| == 1 {
      assert leaders[0] in leaders;
      assert forall t :: t in Leaders(s) <==> t in leaders;
      assert Leaders(s) == {leaders[0]};
    }
  }

  lemma {:induction false} PassKeepsWinner(s: State, keys: seq<string>)
    requires WellFormed(s)
    ensures MatureAll(s, keys).winner == s.winner
  {
    if keys != [] {
      PassKeepsWinner(s, keys[..|keys| - 1]);
    }
  }

  /** A tick that leaves the game running leaves every score below the winning one. */
  lemma RunningMeansNoLeader(s: State)
    requires WellFormed(s) && Tick(s).running
    ensures forall t | t in Tick(s).scores :: Tick(s).scores[t] < Tick(s).rules.scoreToWin
  {
    TickOutcome(s);
  }

  lemma StartOutcome(s: State, now: int)
    requires WellFormed(s)
    ensures var r := Apply(s, Start(true, now));
            && r.running && r.winner == None && r.time == r.startTime == now
            && r.scores.Keys == s.scores.Keys && (forall t | t in r.scores :: r.scores[t] == 0)
            && r.duration == s.duration && SecondsLeft(r) == TotalSeconds(s.duration) % U64
            && ((s.running || Unowned(s)) ==> Unowned(r))
            && r.contacts == s.contacts
  {
  }

  lemma ApplyKeeps(s: State, op: Op)
    requires WellFormed(s) && BetweenRounds(s)
    requires op.Step? ==> s.running
    requires op.Start? ==> op.force
    ensures BetweenRounds(Apply(s, op))
  {
    hide Tick, StartRound, StopRound, Contact, Drop;
    match op
    case Step =>
      TickOutcome(s);
      PassKeepsWinner(s, Text.SortedKeys(s.contacts.Keys));
    case Start(force, now) => StartOutcome(s, now);
    case Stop => StopLeavesUnowned(s);
    case Touch(_, _) => TouchKeeps(s, op);
    case Release(_) => TouchKeeps(s, op);
    case SetTime(_) =>
    case SetScore(_, _) =>
    case SetDuration(_) =>
    case AddTeam(_) =>
    case AddRobot(_, _) =>
  }

  lemma TouchKeeps(s: State, op: Op)
    requires WellFormed(s) && (op.Touch? || op.Release?)
    ensures var r := Apply(s, op);
            r.running == s.running && r.winner == s.winner && (Unowned(s) ==> Unowned(r))
  {
    forall i | 0 <= i < |Apply(s, op).items| && Unowned(s) ensures Apply(s, op).items[i].owner == "" {
      Timing.ItemCount(s, op);
      Timing.OnlyStepsGiveOwners(s, op, i);
    }
  }

  /** Out of a round nothing is owned; during one nobody has won. */
  lemma {:induction false} RoundsAreClean(s: State, ops: seq<Op>)
    requires WellFormed(s) && BetweenRounds(s) && ServerDriven(s, ops)
    ensures BetweenRounds(Run(s, ops))
  {
    hide Apply;
    if ops != [] {
      var p := |ops| - 1;
      PrefixServerDriven(s, ops, p);
      RoundsAreClean(s, ops[..p]);
      ApplyKeeps(Run(s, ops[..p]), ops[p]);
    }
  }

  lemma PrefixServerDriven(s: State, ops: seq<Op>, p: nat)
    requires WellFormed(s) && ServerDriven(s, ops) && p <= |ops|
    ensures ServerDriven(s, ops[..p])
  {
    hide Apply;
    forall k | 0 <= k < p
      ensures ops[..p][k].Step? ==> At(s, ops[..p], k).running
    {
      assert ops[..p][..k] == ops[..k];
    }
  }

  /** Each forced start opens a round with zero scores, full time and no owned item. */
  lemma EveryStartIsFresh(s: State, ops: seq<Op>, k: nat)
    requires WellFormed(s) && BetweenRounds(s) && ServerDriven(s, ops)
    requires k < |ops| && ops[k].Start?
    ensures var r := At(s, ops, k + 1);
            && r.running && r.winner == None && Unowned(r)
            && (forall t | t in r.scores :: r.scores[t] == 0)
            && SecondsLeft(r) == TotalSeconds(r.duration) % U64
  {
    hide Apply;
    PrefixServerDriven(s, ops, k);
    RoundsAreClean(s, ops[..k]);
    AtStep(s, ops, k);
    StartOutcome(At(s, ops, k), ops[k].now);
  }

  /** This step made the team the winner: alone at or above the winning score, with time left. */
  ghost predicate WonAt(s: State, ops: seq<Op>, k: nat, team: string)
    requires WellFormed(s) && k < |ops|
  {
    var h := HandleContacts(At(s, ops, k));
    && ops[k] == Step && At(s, ops, k).running
    && SecondsLeft(h) != 0 && LeadsAlone(h, team)
    && forall m | k < m < |ops| :: !ops[m].Start? && !ops[m].Step?
  }

  lemma WinnerAfter(s: State, op: Op)
    requires WellFormed(s) && !op.Step? && !op.Start?
    ensures Apply(s, op).winner == s.winner
  {
  }

  lemma WonStays(s: State, ops: seq<Op>, k: nat, team: string)
    requires WellFormed(s) && k < |ops| - 1
    requires WonAt(s, ops[..|ops| - 1], k, team)
    requires !ops[|ops| - 1].Step? && !ops[|ops| - 1].Start?
    ensures WonAt(s, ops, k, team)
  {
    hide Apply, HandleContacts;
    assert ops[..|ops| - 1][..k] == ops[..k];
  }

  /** A game that has a winner won it at its last tick, which nothing has followed but idling. */
  lemma {:induction false} WinnerWasAlone(s: State, ops: seq<Op>)
    requires WellFormed(s) && BetweenRounds(s) && s.winner == None && ServerDriven(s, ops)
    requires Run(s, ops).winner != None
    ensures exists k :: 0 <= k < |ops| && WonAt(s, ops, k, Run(s, ops).winner.value)
  {
    hide Apply, HandleContacts, WonAt;
    if ops != [] {
      var p := |ops| - 1;
      var before := Run(s, ops[..p]);
      PrefixServerDriven(s, ops, p);
      RoundsAreClean(s, ops[..p]);
      assert Run(s, ops) == Apply(before, ops[p]);
      if ops[p].Step? {
        StepWins(s, ops);
      } else if ops[p].Start? {
        StartOutcome(before, ops[p].now);
      } else {
        WinnerAfter(before, ops[p]);
        WinnerWasAlone(s, ops[..p]);
        var k :| 0 <= k < p && WonAt(s, ops[..p], k, before.winner.value);
        WonStays(s, ops, k, before.winner.value);
      }
    }
  }

  lemma StepWins(s: State, ops: seq<Op>)
    requires WellFormed(s) && ops != [] && ops[|ops| - 1] == Step
    requires At(s, ops, |ops| - 1).running && At(s, ops, |ops| - 1).winner == None
    requires Run(s, ops).winner != None
    ensures WonAt(s, ops, |ops| - 1, Run(s, ops).winner.value)
  {
    var before := At(s, ops, |ops| - 1);
    TickOutcome(before);
    PassKeepsWinner(before, Text.SortedKeys(before.contacts.Keys));
    assert Run(s, ops) == Tick(before);
    var h := HandleContacts(before);
    assert SecondsLeft(h) != 0 && exists team :: LeadsAlone(h, team);
  }

  /**
   Forcing the start matters: an unforced one leaves a game running with a winner
   exactly when the game had stopped with one. Hellos and agents always force theirs.
   */
  lemma UnforcedStart(s: State, now: int)
    requires WellFormed(s) && BetweenRounds(s)
    ensures var r := Apply(s, Start(false, now));
            r.running && (r.winner != None <==> !s.running && s.winner != None)
  {
  }
}
