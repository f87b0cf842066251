/**
 A stop keeps the contacts, so a touch of one round can capture an item in the next. When
 that happens, and when a round earns all its captures itself.
 */
module CarryOver {
  import opened Round
  import opened Timing
  import Text

  /** A live contact that will capture its item unless something happens to it. */
  predicate Pays(s: State, rid: string)
    requires WellFormed(s)
  {
    rid in s.contacts && s.contacts[rid].team != s.items[s.contacts[rid].item].owner
  }

  ghost predicate Settled(s: State)
    requires WellFormed(s)
  {
    forall rid :: !Pays(s, rid)
  }

  /** A round goes on: nobody starts or stops it, and no tick before the last operation ends it. */
  ghost predicate WithinRound(s: State, ops: seq<Op>)
    requires WellFormed(s)
  {
    forall k | 0 <= k < |ops| :: At(s, ops, k).running && !ops[k].Start? && !ops[k].Stop?
  }

  ghost predicate Untouched(ops: seq<Op>) {
    forall k | 0 <= k < |ops| :: !ops[k].Touch?
  }

  ghost predicate CapturesSomething(s: State, ops: seq<Op>)
    requires WellFormed(s)
  {
    exists k, i, team :: 0 <= k < |ops| && Captures(s, ops, k, i, team)
  }

  // ----- Every capture of the round is by a touch of the round, or by a contact it began with

  /**
   A capture in a round that began with operation b comes from a touch of that round, unless
   the robot was in contact with the item already when the round began.
   */
  lemma CapturesOfTheRound(s: State, ops: seq<Op>, b: nat, k: nat, i: nat, team: string)
    requires WellFormed(s) && s.contacts == map[] && b < k < |ops|
    requires ops[b].Start? && Captures(s, ops, k, i, team)
    ensures exists j, rid :: 0 <= j < k && Earned(s, ops, j, k, rid, i)
              && rid in At(s, ops, j).robots && At(s, ops, j).robots[rid] == team
              && (j < b <==> Pending(s, ops, j, b, rid))
              && (j < b ==> rid in At(s, ops, b + 1).contacts
                            && At(s, ops, b + 1).contacts[rid] == ContactState(team, i, Deadline(s, ops, j)))
  {
    hide At, Captures, Apply, Pending, Deadline, Begins;
    EveryCaptureWasEarned(s, ops, k, i, team);
    var j, rid :| 0 <= j < k && Earned(s, ops, j, k, rid, i)
                  && rid in At(s, ops, j).robots && At(s, ops, j).robots[rid] == team;
    PendingAround(s, ops, j, b, k, rid);
    if j < b {
      ContactsFollowHistory(s, ops, b + 1, rid);
    }
  }

  /** A touch that is pending after a start is one from before it, pending then, or one from after it. */
  lemma PendingAround(s: State, ops: seq<Op>, j: nat, b: nat, k: nat, rid: string)
    requires WellFormed(s) && j < k <= |ops| && b < k && ops[b].Start? && Pending(s, ops, j, k, rid)
    ensures j != b
    ensures j < b <==> Pending(s, ops, j, b, rid)
    ensures j < b ==> Pending(s, ops, j, b + 1, rid)
  {
    hide At, Apply, Deadline, Ends;
  }

  // ----- Exactly when a touch of an earlier round is paid

  lemma MatureSettled(s: State, rid: string)
    requires WellFormed(s) && Settled(s)
    ensures Settled(Mature(s, rid)) && Mature(s, rid).log == s.log
  {
    assert !Pays(s, rid);
    forall k ensures !Pays(Mature(s, rid), k) {
      assert !Pays(s, k);
    }
  }

  lemma {:induction false} PassSettled(s: State, keys: seq<string>)
    requires WellFormed(s) && Settled(s)
    ensures Settled(MatureAll(s, keys)) && MatureAll(s, keys).log == s.log
  {
    hide Mature, Settled;
    if keys != [] {
      PassSettled(s, keys[..|keys| - 1]);
      MatureSettled(MatureAll(s, keys[..|keys| - 1]), keys[|keys| - 1]);
    }
  }

  /** Without touches a settled game stays settled, and logs no capture. */
  lemma OperationSettled(s: State, op: Op)
    requires WellFormed(s) && Settled(s) && s.running
    requires !op.Touch? && !op.Start? && !op.Stop?
    ensures Apply(s, op).running ==> Settled(Apply(s, op))
    ensures forall i, team :: !Logs(s.log, Apply(s, op).log, Captured(i, team))
  {
    hide HandleContacts, StopIfFinished;
    forall rid ensures !Pays(s, rid) {
    }
    if op.Step? {
      StepSettled(s);
    } else if op.Release? {
      ReleaseSettled(s, op.rid);
    } else {
      forall rid ensures !Pays(Apply(s, op), rid) {
        assert !Pays(s, rid);
      }
    }
  }

  lemma ReleaseSettled(s: State, who: string)
    requires WellFormed(s) && Settled(s)
    ensures Settled(Drop(s, who)) && Drop(s, who).log == s.log
  {
    forall rid ensures !Pays(Drop(s, who), rid) {
      assert !Pays(s, rid);
    }
  }

  lemma StepSettled(s: State)
    requires WellFormed(s) && Settled(s) && s.running
    ensures Tick(s).running ==> Settled(Tick(s))
    ensures forall i, team :: !Logs(s.log, Tick(s).log, Captured(i, team))
  {
    hide StopIfFinished, Settled;
    PassSettled(s, Text.SortedKeys(s.contacts.Keys));
    FinishStopsOrNot(HandleContacts(s));
    HandledContacts(s, "");
  }

  lemma {:induction false} SettledCapturesNothing(s: State, ops: seq<Op>, k: nat)
    requires WellFormed(s) && Settled(s) && WithinRound(s, ops) && Untouched(ops) && k <= |ops|
    ensures k < |ops| ==> Settled(At(s, ops, k))
    ensures forall m, i, team | 0 <= m < k :: !Captures(s, ops, m, i, team)
  {
    hide At, Settled, Apply;
    if k == 0 {
      AtStart(s, ops);
    } else {
      SettledCapturesNothing(s, ops, k - 1);
      AtStep(s, ops, k - 1);
      OperationSettled(At(s, ops, k - 1), ops[k - 1]);
    }
  }

  /** Waiting long enough is enough for a contact that pays. */
  lemma WaitingCaptures(s: State, rid: string)
    requires WellFormed(s) && s.running && Pays(s, rid)
    ensures var ops := [SetTime(s.contacts[rid].stopTime + 1), Step];
            WithinRound(s, ops) && Untouched(ops) && CapturesSomething(s, ops)
  {
    hide Tick;
    var ops := [SetTime(s.contacts[rid].stopTime + 1), Step];
    AtStart(s, ops);
    AtStep(s, ops, 0);
    AtStep(s, ops, 1);
    var late := s.(time := s.contacts[rid].stopTime + 1);
    assert At(s, ops, 1) == late;
    assert At(s, ops, 2) == Tick(late);
    TickCaptures(late, rid);
    var i, team :| Logs(late.log, Tick(late).log, Captured(i, team));
    assert Captures(s, ops, 1, i, team);
  }

  lemma TickCaptures(s: State, rid: string)
    requires WellFormed(s) && Pays(s, rid) && Matures(s, rid)
    ensures exists i, team :: Logs(s.log, Tick(s).log, Captured(i, team))
  {
    hide StopIfFinished;
    var keys := Text.SortedKeys(s.contacts.Keys);
    PassCaptures(s, keys, rid);
    HandlingLogs(s);
    FinishStopsOrNot(HandleContacts(s));
    var e := HandleContacts(s).log[|s.log|];
    assert Tick(s).log[|s.log|] == e;
    assert Logs(s.log, Tick(s).log, Captured(e.item, e.team));
  }

  lemma {:induction false} PassCaptures(s: State, keys: seq<string>, rid: string)
    requires WellFormed(s) && Pays(s, rid) && Matures(s, rid) && rid in keys && Text.Increasing(keys)
    ensures |MatureAll(s, keys).log| > |s.log|
  {
    hide Mature, Pays;
    var n := |keys| - 1;
    var m := MatureAll(s, keys[..n]);
    PassLogs(s, keys[..n]);
    MatureLogs(m, keys[n]);
    if rid in keys[..n] {
      PassCaptures(s, keys[..n], rid);
    } else {
      assert rid == keys[n];
      MatureAllContacts(s, keys[..n]);
      PassUnlogged(s, keys[..n]);
      if m.log == s.log {
        PaysStill(s, m, rid);
        MaturePays(m, rid);
      }
    }
  }

  /** A pass that logs nothing gives no item away. */
  lemma {:induction false} PassUnlogged(s: State, keys: seq<string>)
    requires WellFormed(s) && Text.Increasing(keys)
    ensures MatureAll(s, keys).log == s.log ==> MatureAll(s, keys).items == s.items
    ensures |MatureAll(s, keys).log| >= |s.log|
  {
    hide Mature;
    if keys != [] {
      var n := |keys| - 1;
      PassUnlogged(s, keys[..n]);
      PassLogs(s, keys[..n]);
      MatureLogs(MatureAll(s, keys[..n]), keys[n]);
      MatureUnlogged(MatureAll(s, keys[..n]), keys[n]);
    }
  }

  lemma MatureUnlogged(s: State, rid: string)
    requires WellFormed(s)
    ensures Mature(s, rid).log == s.log ==> Mature(s, rid).items == s.items
  {
  }

  lemma MaturePays(s: State, rid: string)
    requires WellFormed(s) && Matures(s, rid) && Pays(s, rid)
    ensures |Mature(s, rid).log| == |s.log| + 1
  {
  }

  lemma PaysStill(s: State, m: State, rid: string)
    requires WellFormed(s) && WellFormed(m) && Pays(s, rid) && m.items == s.items
    requires rid in m.contacts && m.contacts[rid] == s.contacts[rid]
    ensures Pays(m, rid)
  {
  }

  /**
   A round can still capture something without another touch if and only if some robot is in
   contact with an item its team does not own.
   */
  lemma OldTouchesPay(s: State)
    requires WellFormed(s) && s.running
    ensures (exists ops :: WithinRound(s, ops) && Untouched(ops) && CapturesSomething(s, ops)) <==>
              exists rid :: Pays(s, rid)
  {
    if rid :| Pays(s, rid) {
      WaitingCaptures(s, rid);
    } else {
      forall ops | WithinRound(s, ops) && Untouched(ops) ensures !CapturesSomething(s, ops) {
        SettledCapturesNothing(s, ops, |ops|);
      }
    }
  }
}
