/**
 When captures happen. The contacts the game holds are characterised by the history of
 operations alone, and every change of owner is traced back to the touch that earned it.
 */
module Timing {
  import opened Options
  import opened Round
  import Text

  /** Operation j makes the robot begin a contact. */
  predicate Begins(s: State, ops: seq<Op>, j: nat, rid: string)
    requires WellFormed(s) && j < |ops|
  {
    && ops[j].Touch? && ops[j].rid == rid
    && rid in At(s, ops, j).robots && ops[j].item < |At(s, ops, j).items|
  }

  /** The time a contact begun by operation j has to outlast. */
  function Deadline(s: State, ops: seq<Op>, j: nat): int
    requires WellFormed(s) && j < |ops|
  {
    At(s, ops, j).time + At(s, ops, j).rules.timeToCapture
  }

  /** Operation m puts an end to the robot's contact with this deadline. */
  predicate Ends(s: State, ops: seq<Op>, m: nat, rid: string, deadline: int)
    requires WellFormed(s) && m < |ops|
  {
    || ops[m] == Release(rid)
    || Begins(s, ops, m, rid)
    || (ops[m] == Step && At(s, ops, m).time > deadline)
  }

  /** The contact begun by operation j is neither dropped, replaced nor matured before operation k. */
  ghost predicate Pending(s: State, ops: seq<Op>, j: nat, k: nat, rid: string)
    requires WellFormed(s) && k <= |ops|
  {
    && j < k && Begins(s, ops, j, rid)
    && forall m | j < m < k :: !Ends(s, ops, m, rid, Deadline(s, ops, j))
  }

  // ----- What each operation does to a contact

  lemma MatureContacts(s: State, rid: string)
    requires WellFormed(s)
    ensures var r := Mature(s, rid);
            && r.time == s.time && r.robots == s.robots && |r.items| == |s.items| && r.rules == s.rules
            && r.running == s.running && r.startTime == s.startTime && r.duration == s.duration
            && r.contacts == if Matures(s, rid) then s.contacts - {rid} else s.contacts
  {
  }

  lemma {:induction false} MatureAllContacts(s: State, keys: seq<string>)
    requires WellFormed(s)
    ensures var r := MatureAll(s, keys);
            && r.time == s.time && r.robots == s.robots && |r.items| == |s.items| && r.rules == s.rules
            && r.running == s.running && r.startTime == s.startTime && r.duration == s.duration
            && forall rid ::
                 && (rid in r.contacts <==> rid in s.contacts && !(rid in keys && Matures(s, rid)))
                 && (rid in r.contacts ==> r.contacts[rid] == s.contacts[rid])
  {
    hide Mature;
    if keys != [] {
      var most := keys[..|keys| - 1];
      MatureAllContacts(s, most);
      MatureContacts(MatureAll(s, most), keys[|keys| - 1]);
      assert keys == most + [keys[|keys| - 1]];
      assert forall rid :: rid in keys <==> rid in most || rid == keys[|keys| - 1];
    }
  }

  lemma HandledContacts(s: State, rid: string)
    requires WellFormed(s)
    ensures rid in HandleContacts(s).contacts <==> rid in s.contacts && !Matures(s, rid)
    ensures rid in HandleContacts(s).contacts ==> HandleContacts(s).contacts[rid] == s.contacts[rid]
    ensures var r := HandleContacts(s);
            && r.time == s.time && r.robots == s.robots && |r.items| == |s.items| && r.rules == s.rules
            && r.running == s.running && r.startTime == s.startTime && r.duration == s.duration
  {
    MatureAllContacts(s, Text.SortedKeys(s.contacts.Keys));
  }

  /** After a pass over the contacts none is overdue. */
  lemma NoneOverdue(s: State)
    requires WellFormed(s)
    ensures var r := HandleContacts(s);
            forall rid | rid in r.contacts :: r.time <= r.contacts[rid].stopTime
  {
    forall rid | rid in HandleContacts(s).contacts
      ensures s.time <= HandleContacts(s).contacts[rid].stopTime
    {
      HandledContacts(s, rid);
    }
    HandledContacts(s, "");
  }

  lemma ContactAfterStep(s: State, rid: string)
    requires WellFormed(s)
    ensures var r := Tick(s);
            && (rid in r.contacts <==> rid in s.contacts && !Matures(s, rid))
            && (rid in r.contacts ==> r.contacts[rid] == s.contacts[rid])
  {
    hide HandleContacts, StopIfFinished;
    HandledContacts(s, rid);
    FinishStopsOrNot(HandleContacts(s));
  }

  lemma ContactAfterTouch(s: State, who: string, item: nat, rid: string)
    requires WellFormed(s) && who in s.robots && item < |s.items|
    ensures var r := Contact(s, who, item);
            if who == rid then
              rid in r.contacts && r.contacts[rid] == ContactState(s.robots[rid], item, s.time + s.rules.timeToCapture)
            else
              && (rid in r.contacts <==> rid in s.contacts)
              && (rid in r.contacts ==> r.contacts[rid] == s.contacts[rid])
  {
  }

  lemma StartKeepsContacts(s: State, force: bool, now: int)
    requires WellFormed(s)
    ensures StartRound(s, force, now).contacts == s.contacts
  {
  }

  lemma ContactAfter(s: State, op: Op, rid: string)
    requires WellFormed(s)
    ensures var r := Apply(s, op);
            if op.Touch? && op.rid == rid && rid in s.robots && op.item < |s.items| then
              rid in r.contacts && r.contacts[rid] ==
                ContactState(s.robots[rid], op.item, s.time + s.rules.timeToCapture)
            else if op == Release(rid) || (op.Step? && Matures(s, rid)) then rid !in r.contacts
            else
              && (rid in r.contacts <==> rid in s.contacts)
              && (rid in r.contacts ==> r.contacts[rid] == s.contacts[rid])
  {
    hide Tick, Contact, StartRound;
    match op
    case Step => ContactAfterStep(s, rid);
    case Touch(who, item) => if who in s.robots && item < |s.items| { ContactAfterTouch(s, who, item, rid); }
    case Start(force, now) => StartKeepsContacts(s, force, now);
    case Release(_) =>
    case Stop =>
    case SetTime(_) =>
    case SetScore(_, _) =>
    case SetDuration(_) =>
    case AddTeam(_) =>
    case AddRobot(_, _) =>
  }

  /** One more operation of the history, seen from one robot's contact. */
  lemma ContactAtNext(s: State, ops: seq<Op>, p: nat, rid: string)
    requires WellFormed(s) && p < |ops|
    ensures var before := At(s, ops, p).contacts;
            var after := At(s, ops, p + 1).contacts;
            if Begins(s, ops, p, rid) then
              rid in after && after[rid] == ContactState(At(s, ops, p).robots[rid], ops[p].item, Deadline(s, ops, p))
            else
              && (rid in after <==> rid in before && !Ends(s, ops, p, rid, before[rid].stopTime))
              && (rid in after ==> after[rid] == before[rid])
  {
    AtStep(s, ops, p);
    ContactAfter(At(s, ops, p), ops[p], rid);
  }

  lemma PendingAtNext(s: State, ops: seq<Op>, j: nat, p: nat, rid: string)
    requires WellFormed(s) && j <= p < |ops|
    ensures Pending(s, ops, j, p + 1, rid) <==>
              if j == p then Begins(s, ops, p, rid)
              else Pending(s, ops, j, p, rid) && !Ends(s, ops, p, rid, Deadline(s, ops, j))
  {
  }

  /**
   The contact map is exactly what the history says: a robot has an entry if and only if
   some touch of its is pending, and the entry records that touch.
   */
  lemma {:induction false} ContactsFollowHistory(s: State, ops: seq<Op>, k: nat, rid: string)
    requires WellFormed(s) && s.contacts == map[] && k <= |ops|
    ensures rid in At(s, ops, k).contacts <==> exists j :: 0 <= j < k && Pending(s, ops, j, k, rid)
    ensures forall j | 0 <= j < k && Pending(s, ops, j, k, rid) ::
              && rid in At(s, ops, k).contacts
              && At(s, ops, k).contacts[rid] ==
                   ContactState(At(s, ops, j).robots[rid], ops[j].item, Deadline(s, ops, j))
  {
    hide At, Begins, Pending, Deadline;
    if k == 0 {
      AtStart(s, ops);
    } else {
      var p := k - 1;
      ContactsFollowHistory(s, ops, p, rid);
      ContactAtNext(s, ops, p, rid);
      forall j | 0 <= j < k
        ensures Pending(s, ops, j, k, rid) <==>
                  if j == p then Begins(s, ops, p, rid)
                  else Pending(s, ops, j, p, rid) && !Ends(s, ops, p, rid, Deadline(s, ops, j))
      {
        PendingAtNext(s, ops, j, p, rid);
      }
      if Begins(s, ops, p, rid) {
        assert Pending(s, ops, p, k, rid);
      } else if rid in At(s, ops, k).contacts {
        var j :| 0 <= j < p && Pending(s, ops, j, p, rid);
        assert Pending(s, ops, j, k, rid);
      }
    }
  }

  // ----- Owners

  /** The robot's contact falls due in this state, and is on item i. */
  predicate Due(s: State, i: nat, rid: string) {
    Matures(s, rid) && s.contacts[rid].item == i
  }

  /** The last of the keys whose contact with item i falls due. */
  function LastDue(s: State, keys: seq<string>, i: nat): (r: Option<string>)
    ensures r.Some? ==> r.value in keys && Due(s, i, r.value)
    ensures r.None? ==> forall k | k in keys :: !Due(s, i, k)
  {
    if keys == [] then None
    else if Due(s, i, keys[|keys| - 1]) then Some(keys[|keys| - 1])
    else
      assert forall k | k in keys :: k in keys[..|keys| - 1] || k == keys[|keys| - 1];
      LastDue(s, keys[..|keys| - 1], i)
  }

  lemma {:induction false} LastDueIsGreatest(s: State, keys: seq<string>, i: nat, rid: string)
    requires Text.Increasing(keys) && rid in keys && Due(s, i, rid)
    ensures var last := LastDue(s, keys, i);
            last.Some? && (last.value == rid || Text.Less(rid, last.value))
  {
    var n := |keys| - 1;
    if !Due(s, i, keys[n]) {
      LastDueIsGreatest(s, keys[..n], i, rid);
    }
  }

  lemma OwnerAfterMature(s: State, rid: string, i: nat)
    requires WellFormed(s) && i < |s.items|
    ensures |Mature(s, rid).items| == |s.items|
    ensures Mature(s, rid).items[i].owner == if Due(s, i, rid) then s.contacts[rid].team else s.items[i].owner
  {
  }

  lemma {:induction false} OwnerAfterPass(s: State, keys: seq<string>, i: nat)
    requires WellFormed(s) && i < |s.items| && Text.Increasing(keys)
    ensures |MatureAll(s, keys).items| == |s.items|
    ensures MatureAll(s, keys).items[i].owner ==
              match LastDue(s, keys, i) case Some(rid) => s.contacts[rid].team case None => s.items[i].owner
  {
    hide Mature;
    if keys != [] {
      var n := |keys| - 1;
      OwnerAfterPass(s, keys[..n], i);
      MatureAllContacts(s, keys[..n]);
      Text.IncreasingDistinct(keys);
      assert keys[n] !in keys[..n];
      OwnerAfterMature(MatureAll(s, keys[..n]), keys[n], i);
    }
  }

  /** Several contacts on one item may fall due in one pass; the greatest robot id prevails. */
  lemma OwnerAfterHandling(s: State, i: nat, rid: string)
    requires WellFormed(s) && i < |s.items| && Due(s, i, rid)
    ensures |HandleContacts(s).items| == |s.items|
    ensures exists last :: (last == rid || Text.Less(rid, last)) && Due(s, i, last)
              && HandleContacts(s).items[i].owner == s.robots[last]
              && forall k | Due(s, i, k) :: k == last || Text.Less(k, last)
  {
    var keys := Text.SortedKeys(s.contacts.Keys);
    OwnerAfterPass(s, keys, i);
    forall k | Due(s, i, k)
      ensures LastDue(s, keys, i).Some?
      ensures k == LastDue(s, keys, i).value || Text.Less(k, LastDue(s, keys, i).value)
    {
      LastDueIsGreatest(s, keys, i, k);
    }
  }

  lemma TouchOwners(s: State, rid: string, item: nat, i: nat)
    requires WellFormed(s) && rid in s.robots && item < |s.items| && i < |s.items|
    ensures |Contact(s, rid, item).items| == |s.items|
    ensures Contact(s, rid, item).items[i].owner == s.items[i].owner
  {
  }

  lemma OnlyStepsGiveOwners(s: State, op: Op, i: nat)
    requires WellFormed(s) && i < |s.items| && !op.Step?
    ensures |Apply(s, op).items| == |s.items|
    ensures Apply(s, op).items[i].owner == s.items[i].owner || Apply(s, op).items[i].owner == ""
  {
    hide Tick, Contact;
    if op.Touch? && op.rid in s.robots && op.item < |s.items| {
      TouchOwners(s, op.rid, op.item, i);
    }
  }

  lemma ItemCount(s: State, op: Op)
    requires WellFormed(s)
    ensures |Apply(s, op).items| == |s.items|
  {
    hide HandleContacts, StopIfFinished, Capture;
    if op.Step? {
      HandledContacts(s, "");
      FinishStopsOrNot(HandleContacts(s));
    }
  }

  lemma {:induction false} ItemsStay(s: State, ops: seq<Op>)
    requires WellFormed(s)
    ensures |Run(s, ops).items| == |s.items|
  {
    hide Apply;
    if ops != [] {
      ItemsStay(s, ops[..|ops| - 1]);
      ItemCount(Run(s, ops[..|ops| - 1]), ops[|ops| - 1]);
    }
  }

  /** A touch at operation j that earns its robot item i at operation k. */
  ghost predicate Earned(s: State, ops: seq<Op>, j: nat, k: nat, rid: string, i: nat)
    requires WellFormed(s) && k < |ops|
  {
    && Pending(s, ops, j, k, rid) && ops[j].item == i
    && ops[k] == Step && At(s, ops, k).time > Deadline(s, ops, j)
  }

  // ----- Captures, as the log records them

  /** The event is the capture of an item by the team of a robot whose contact with it falls due. */
  ghost predicate Deserved(s: State, e: Event) {
    e.Captured? && exists rid :: Due(s, e.item, rid) && s.contacts[rid].team == e.team
  }

  lemma {:induction false} PassLogs(s: State, keys: seq<string>)
    requires WellFormed(s) && Text.Increasing(keys)
    ensures var log := MatureAll(s, keys).log;
            && s.log <= log
            && forall n | |s.log| <= n < |log| :: Deserved(s, log[n])
  {
    hide Mature;
    if keys != [] {
      var n := |keys| - 1;
      PassLogs(s, keys[..n]);
      MatureAllContacts(s, keys[..n]);
      Text.IncreasingDistinct(keys);
      assert keys[n] !in keys[..n];
      MatureLogs(MatureAll(s, keys[..n]), keys[n]);
    }
  }

  lemma MatureLogs(s: State, rid: string)
    requires WellFormed(s)
    ensures var log := Mature(s, rid).log;
            log == s.log || (Matures(s, rid) && log == s.log + [Captured(s.contacts[rid].item, s.contacts[rid].team)])
  {
  }

  /** Only a step logs captures, and each of them is deserved. */
  lemma OperationLogs(s: State, op: Op)
    requires WellFormed(s)
    ensures var log := Apply(s, op).log;
            && s.log <= log
            && forall n | |s.log| <= n < |log| && log[n].Captured? :: op.Step? && Deserved(s, log[n])
  {
    hide HandleContacts, StopIfFinished, Contact, Drop, Deserved;
    if op.Step? {
      HandlingLogs(s);
      FinishStopsOrNot(HandleContacts(s));
    } else if op.Touch? && op.rid in s.robots && op.item < |s.items| {
      TouchLogs(s, op.rid, op.item);
    } else if op.Release? {
      DropLogs(s, op.rid);
    }
  }

  lemma HandlingLogs(s: State)
    requires WellFormed(s)
    ensures var log := HandleContacts(s).log;
            s.log <= log && forall n | |s.log| <= n < |log| :: Deserved(s, log[n])
  {
    hide MatureAll, Deserved;
    PassLogs(s, Text.SortedKeys(s.contacts.Keys));
  }

  lemma TouchLogs(s: State, rid: string, item: nat)
    requires WellFormed(s) && rid in s.robots && item < |s.items|
    ensures Contact(s, rid, item).log == s.log
  {
  }

  lemma DropLogs(s: State, rid: string)
    requires WellFormed(s)
    ensures Drop(s, rid).log == s.log
  {
  }

  /** The event is among those by which the log has grown. */
  ghost predicate Logs(before: seq<Event>, after: seq<Event>, e: Event) {
    exists n :: |before| <= n < |after| && after[n] == e
  }

  /** Operation k logs the capture of the item by the team. */
  ghost predicate Captures(s: State, ops: seq<Op>, k: nat, i: nat, team: string)
    requires WellFormed(s) && k < |ops|
  {
    Logs(At(s, ops, k).log, At(s, ops, k + 1).log, Captured(i, team))
  }

  /**
   Every capture ever logged, also one of several in the same pass and one in the tick that
   ends the round, comes from a step at which some robot of the capturing team has touched
   the item early enough and has not dropped or replaced that contact, and which is the
   first step to come later than its deadline.
   */
  lemma EveryCaptureWasEarned(s: State, ops: seq<Op>, k: nat, i: nat, team: string)
    requires WellFormed(s) && s.contacts == map[] && k < |ops| && Captures(s, ops, k, i, team)
    ensures exists j, rid :: 0 <= j < k && Earned(s, ops, j, k, rid, i)
              && rid in At(s, ops, j).robots && At(s, ops, j).robots[rid] == team
  {
    hide At, Apply;
    var before := At(s, ops, k);
    AtStep(s, ops, k);
    OperationLogs(before, ops[k]);
    var after := At(s, ops, k + 1);
    var n :| |before.log| <= n < |after.log| && after.log[n] == Captured(i, team);
    var rid :| Due(before, i, rid) && before.contacts[rid].team == team;
    ContactsFollowHistory(s, ops, k, rid);
    var j :| 0 <= j < k && Pending(s, ops, j, k, rid);
    assert Earned(s, ops, j, k, rid, i);
  }

  /** The owner of an item; nobody owns an item there is not. */
  function Owner(s: State, i: nat): string {
    if i < |s.items| then s.items[i].owner else ""
  }

  /** An item that changes hands in a pass has its capture by the new owner logged. */
  lemma OwnersAreLogged(s: State, i: nat)
    requires WellFormed(s) && i < |s.items|
    ensures var r := HandleContacts(s);
            |r.items| == |s.items| && (r.items[i].owner != s.items[i].owner ==>
              Logs(s.log, r.log, Captured(i, r.items[i].owner)))
  {
    hide MatureAll;
    PassLogsOwners(s, Text.SortedKeys(s.contacts.Keys), i);
  }

  lemma {:induction false} PassLogsOwners(s: State, keys: seq<string>, i: nat)
    requires WellFormed(s) && i < |s.items| && Text.Increasing(keys)
    ensures var r := MatureAll(s, keys);
            |r.items| == |s.items| && s.log <= r.log && (r.items[i].owner != s.items[i].owner ==>
              Logs(s.log, r.log, Captured(i, r.items[i].owner)))
  {
    hide Mature;
    if keys != [] {
      var m := MatureAll(s, keys[..|keys| - 1]);
      PassLogsOwners(s, keys[..|keys| - 1], i);
      MatureLogsOwner(m, keys[|keys| - 1], i);
    }
  }

  lemma MatureLogsOwner(s: State, rid: string, i: nat)
    requires WellFormed(s) && i < |s.items|
    ensures var r := Mature(s, rid);
            && |r.items| == |s.items| && s.log <= r.log
            && (r.items[i].owner != s.items[i].owner ==>
                  |r.log| == |s.log| + 1 && r.log[|s.log|] == Captured(i, r.items[i].owner))
  {
  }

  /** An item gets an owner by a step only, and its capture by that owner is logged there. */
  lemma OwnershipIsLogged(s: State, ops: seq<Op>, k: nat, i: nat)
    requires WellFormed(s) && k < |ops|
    requires Owner(At(s, ops, k + 1), i) != Owner(At(s, ops, k), i) && Owner(At(s, ops, k + 1), i) != ""
    ensures ops[k] == Step && Captures(s, ops, k, i, Owner(At(s, ops, k + 1), i))
  {
    hide At, Tick;
    var before, after := At(s, ops, k), At(s, ops, k + 1);
    AtStep(s, ops, k);
    ItemCount(before, ops[k]);
    if !ops[k].Step? {
      hide Apply;
      OnlyStepsGiveOwners(before, ops[k], i);
    } else {
      TickLogsOwner(before, i);
    }
  }

  lemma TickLogsOwner(s: State, i: nat)
    requires WellFormed(s) && i < |s.items|
    ensures var r := Tick(s);
            |r.items| == |s.items| && (r.items[i].owner != s.items[i].owner && r.items[i].owner != "" ==>
              Logs(s.log, r.log, Captured(i, r.items[i].owner)))
  {
    hide HandleContacts, StopIfFinished;
    OwnersAreLogged(s, i);
    FinishStopsOrNot(HandleContacts(s));
  }

  // ----- Exactly which captures a pass makes

  lemma MatureLogsExactly(s: State, rid: string)
    requires WellFormed(s)
    ensures Mature(s, rid).log ==
              if Matures(s, rid) && s.items[s.contacts[rid].item].owner != s.contacts[rid].team
              then s.log + [Captured(s.contacts[rid].item, s.contacts[rid].team)] else s.log
  {
  }

  /**
   The robot's contact with the item falls due, and the item is not its team's: because it
   was not before the pass, or because another team's contact before it has taken the item.
   */
  ghost predicate Takes(s: State, keys: seq<string>, i: nat, rid: string)
    requires i < |s.items|
  {
    && rid in keys && Due(s, i, rid)
    && (s.contacts[rid].team != s.items[i].owner || TakenBefore(s, keys, i, rid))
  }

  ghost predicate TakenBefore(s: State, keys: seq<string>, i: nat, rid: string)
    requires rid in s.contacts
  {
    exists k :: k in keys && Text.Less(k, rid) && Due(s, i, k) && s.contacts[k].team != s.contacts[rid].team
  }

  ghost predicate TeamTakes(s: State, keys: seq<string>, i: nat, team: string)
    requires i < |s.items|
  {
    exists rid :: Takes(s, keys, i, rid) && s.contacts[rid].team == team
  }

  /** A longer list of keys changes nothing for the robots before the new one. */
  lemma TakesBefore(s: State, keys: seq<string>, i: nat, rid: string)
    requires Text.Increasing(keys) && keys != [] && i < |s.items| && rid in keys[..|keys| - 1]
    ensures Takes(s, keys, i, rid) <==> Takes(s, keys[..|keys| - 1], i, rid)
  {
    var n := |keys| - 1;
    assert keys == keys[..n] + [keys[n]];
    var m :| 0 <= m < n && keys[m] == rid;
    assert Text.Less(keys[m], keys[n]);
    Text.LessAsymmetric(rid, keys[n]);
  }

  /** What the last key adds: a capture if the item is not its team's when its turn comes. */
  lemma TakesLast(s: State, keys: seq<string>, i: nat)
    requires Text.Increasing(keys) && keys != [] && i < |s.items| && Due(s, i, keys[|keys| - 1])
    ensures var n := |keys| - 1;
            var team := s.contacts[keys[n]].team;
            var last := LastDue(s, keys[..n], i);
            var owner := if last.Some? then s.contacts[last.value].team else s.items[i].owner;
            && (owner != team ==> Takes(s, keys, i, keys[n]))
            && (owner == team && Takes(s, keys, i, keys[n]) ==> TeamTakes(s, keys[..n], i, team))
  {
    var n := |keys| - 1;
    var rid := keys[n];
    var team := s.contacts[rid].team;
    var last := LastDue(s, keys[..n], i);
    assert keys == keys[..n] + [rid];
    if last.Some? {
      var m :| 0 <= m < n && keys[m] == last.value;
      assert Text.Less(keys[m], keys[n]);
      if s.contacts[last.value].team == team && Takes(s, keys, i, rid) {
        if team == s.items[i].owner {
          var k :| k in keys && Text.Less(k, rid) && Due(s, i, k) && s.contacts[k].team != team;
          assert k in keys[..n];
          LastDueIsGreatest(s, keys[..n], i, k);
        }
        assert Takes(s, keys[..n], i, last.value);
      }
    }
  }

  lemma LogsNext(before: seq<Event>, log: seq<Event>, e: Event, latest: Event)
    requires before <= log
    ensures Logs(before, log + [latest], e) <==> Logs(before, log, e) || e == latest
  {
    var after := log + [latest];
    assert after[|log|] == latest;
    if Logs(before, log, e) {
      var n :| |before| <= n < |log| && log[n] == e;
      assert after[n] == e;
    }
  }

  lemma {:induction false} PassLogsExactly(s: State, keys: seq<string>, i: nat, team: string)
    requires WellFormed(s) && i < |s.items| && Text.Increasing(keys)
    ensures Logs(s.log, MatureAll(s, keys).log, Captured(i, team)) <==> TeamTakes(s, keys, i, team)
  {
    hide Mature, Takes, TeamTakes, Logs;
    if keys == [] {
      NobodyTakes(s, i);
    } else {
      var n := |keys| - 1;
      var rid := keys[n];
      var m := MatureAll(s, keys[..n]);
      PassLogsExactly(s, keys[..n], i, team);
      PassLogs(s, keys[..n]);
      OwnerAfterPass(s, keys[..n], i);
      MatureAllContacts(s, keys[..n]);
      Text.IncreasingDistinct(keys);
      assert rid !in keys[..n];
      MatureLogsExactly(m, rid);
      LastTakes(s, keys, i, team);
      if Due(s, i, rid) {
        TakesLast(s, keys, i);
      }
      if Matures(m, rid) {
        LogsNext(s.log, m.log, Captured(i, team), Captured(m.contacts[rid].item, m.contacts[rid].team));
      }
    }
  }

  lemma NobodyTakes(s: State, i: nat)
    requires i < |s.items|
    ensures forall team :: !TeamTakes(s, [], i, team) && !Logs(s.log, s.log, Captured(i, team))
  {
  }

  lemma LastTakes(s: State, keys: seq<string>, i: nat, team: string)
    requires Text.Increasing(keys) && keys != [] && i < |s.items|
    ensures var n := |keys| - 1;
            && (TeamTakes(s, keys, i, team) <==>
                  TeamTakes(s, keys[..n], i, team)
                  || (Takes(s, keys, i, keys[n]) && s.contacts[keys[n]].team == team))
            && (Takes(s, keys, i, keys[n]) ==> Due(s, i, keys[n]))
  {
    var n := |keys| - 1;
    assert keys == keys[..n] + [keys[n]];
    forall rid | rid in keys[..n] ensures Takes(s, keys, i, rid) <==> Takes(s, keys[..n], i, rid) {
      TakesBefore(s, keys, i, rid);
    }
  }

  /**
   A pass logs the capture of an item by a team if and only if a contact of that team with
   the item falls due while the item is another team's: the team was not its owner before
   the pass, or a contact of another team with a lower robot id has taken it in the pass.
   */
  lemma PassCapturesExactly(s: State, i: nat, team: string)
    requires WellFormed(s) && i < |s.items|
    ensures Logs(s.log, HandleContacts(s).log, Captured(i, team)) <==>
              exists rid :: Due(s, i, rid) && s.contacts[rid].team == team
                && (team != s.items[i].owner
                    || exists k :: Text.Less(k, rid) && Due(s, i, k) && s.contacts[k].team != team)
  {
    hide MatureAll;
    var keys := Text.SortedKeys(s.contacts.Keys);
    PassLogsExactly(s, keys, i, team);
    assert forall k :: k in s.contacts <==> k in keys;
  }

  /**
   Conversely a pending touch is honoured at the first step later than its deadline: the
   pass removes the contact, captures the item for the robot's team if it is another team's,
   before the pass or by a contact with a lower robot id, and leaves it with the team of the
   greatest robot id whose contact with it falls due.
   */
  lemma EveryEarnedCaptureHappens(s: State, ops: seq<Op>, j: nat, k: nat, rid: string)
    requires WellFormed(s) && s.contacts == map[] && j < k < |ops|
    requires Begins(s, ops, j, rid) && Earned(s, ops, j, k, rid, ops[j].item)
    ensures var before := At(s, ops, k);
            var after := HandleContacts(before);
            var i := ops[j].item;
            && rid !in after.contacts
            && i < |after.items|
            && Due(before, i, rid)
            && (exists last :: Due(before, i, last) && (last == rid || Text.Less(rid, last))
                               && last in before.robots && after.items[i].owner == before.robots[last])
            && ((forall other | Due(before, i, other) :: other == rid) ==>
                  rid in before.robots && after.items[i].owner == before.robots[rid])
    ensures var before := At(s, ops, k);
            var i := ops[j].item;
            && rid in before.robots && before.contacts[rid].team == before.robots[rid] && i < |before.items|
            && (before.items[i].owner != before.robots[rid]
                || (exists other :: Text.Less(other, rid) && Due(before, i, other)
                                    && before.contacts[other].team != before.robots[rid])
                ==> Captures(s, ops, k, i, before.robots[rid]))
  {
    hide Tick;
    ContactsFollowHistory(s, ops, k, rid);
    var before := At(s, ops, k);
    ItemsStay(s, ops[..j]);
    ItemsStay(s, ops[..k]);
    OwnerAfterHandling(before, ops[j].item, rid);
    HandledContacts(before, rid);
    PassCapturesExactly(before, ops[j].item, before.contacts[rid].team);
    AtStep(s, ops, k);
    StepIsTick(before);
    TickLogsCaptures(before, Captured(ops[j].item, before.contacts[rid].team));
  }

  lemma TickLogsCaptures(s: State, e: Event)
    requires WellFormed(s) && e.Captured?
    ensures Logs(s.log, Tick(s).log, e) <==> Logs(s.log, HandleContacts(s).log, e)
  {
    hide HandleContacts, StopIfFinished;
    HandlingLogs(s);
    FinishStopsOrNot(HandleContacts(s));
    var before, after := HandleContacts(s).log, Tick(s).log;
    assert after == before || after == before + [ItemsReset];
    if Logs(s.log, before, e) {
      var n :| |s.log| <= n < |before| && before[n] == e;
      assert after[n] == e;
    }
  }
}
