/**
 When an item is under capture: exactly what every operation does to it, and from there
 what the history must look like.
 */
module Captures {
  import opened Round
  import Text
  import Lifecycle
  import Timing

  ghost predicate UnderCapture(s: State, i: nat) {
    i < |s.items| && s.items[i].phase == STARTED
  }

  predicate On(s: State, rid: string, i: nat) {
    rid in s.contacts && s.contacts[rid].item == i
  }

  predicate ValidTouch(s: State, op: Op) {
    op.Touch? && op.rid in s.robots && op.item < |s.items|
  }

  /** A robot of another team than the owner's touches the item anew. */
  predicate Starts(s: State, op: Op, i: nat) {
    && ValidTouch(s, op) && op.item == i
    && s.robots[op.rid] != s.items[i].owner && !On(s, op.rid, i)
  }

  /** A contact with the item falls due for another team than its owner. */
  ghost predicate Captured(s: State, i: nat)
    requires i < |s.items|
  {
    exists rid :: Timing.Due(s, i, rid) && s.contacts[rid].team != s.items[i].owner
  }

  /**
   A running round is stopped by the operation, even if it starts another one; by a tick if
   its time is up or a team has enough points once the tick's captures are made.
   */
  ghost predicate EndsRound(s: State, op: Op)
    requires WellFormed(s)
  {
    s.running && (op.Stop? || (op.Start? && op.force) || (op.Step? && Finishes(s)))
  }

  ghost predicate Finishes(s: State)
    requires WellFormed(s)
  {
    SecondsLeft(s) == 0 || !Lifecycle.NobodyLeads(HandleContacts(s))
  }

  /**
   A robot in contact with the item releases or touches anything, whoever the item was
   started by; or the round ends; or the item is captured.
   */
  ghost predicate Ceases(s: State, op: Op, i: nat)
    requires WellFormed(s) && i < |s.items|
  {
    || (op.Release? && On(s, op.rid, i))
    || (ValidTouch(s, op) && On(s, op.rid, i))
    || (op.Step? && Captured(s, i))
    || EndsRound(s, op)
  }

  // ----- One operation

  lemma AfterDrop(s: State, rid: string, i: nat)
    requires WellFormed(s)
    ensures UnderCapture(Drop(s, rid), i) <==> UnderCapture(s, i) && !On(s, rid, i)
  {
  }

  lemma AfterTouch(s: State, rid: string, item: nat, i: nat)
    requires WellFormed(s) && rid in s.robots && item < |s.items|
    ensures UnderCapture(Contact(s, rid, item), i) <==>
              Starts(s, Touch(rid, item), i) || (UnderCapture(s, i) && !On(s, rid, i))
  {
  }

  lemma AfterMature(s: State, rid: string, i: nat)
    requires WellFormed(s) && i < |s.items|
    ensures var r := Mature(s, rid);
            var captures := Timing.Due(s, i, rid) && s.contacts[rid].team != s.items[i].owner;
            && |r.items| == |s.items|
            && (captures ==> r.items[i].phase == SUCCEEDED)
            && (!captures ==> r.items[i] == s.items[i])
  {
  }

  lemma {:induction false} AfterPass(s: State, keys: seq<string>, i: nat)
    requires WellFormed(s) && i < |s.items| && Text.Increasing(keys)
    ensures var r := MatureAll(s, keys);
            var captured :=
              exists rid :: rid in keys && Timing.Due(s, i, rid) && s.contacts[rid].team != s.items[i].owner;
            && |r.items| == |s.items|
            && (captured ==> r.items[i].phase == SUCCEEDED)
            && (!captured ==> r.items[i] == s.items[i])
  {
    hide Mature;
    if keys != [] {
      var n := |keys| - 1;
      AfterPass(s, keys[..n], i);
      Timing.MatureAllContacts(s, keys[..n]);
      Text.IncreasingDistinct(keys);
      assert keys[n] !in keys[..n];
      AfterMature(MatureAll(s, keys[..n]), keys[n], i);
      assert keys == keys[..n] + [keys[n]];
    }
  }

  lemma AfterHandling(s: State, i: nat)
    requires WellFormed(s) && i < |s.items|
    ensures UnderCapture(HandleContacts(s), i) <==> UnderCapture(s, i) && !Captured(s, i)
    ensures |HandleContacts(s).items| == |s.items| && HandleContacts(s).running == s.running
  {
    hide MatureAll;
    var keys := Text.SortedKeys(s.contacts.Keys);
    AfterPass(s, keys, i);
    Timing.HandledContacts(s, "");
  }

  lemma AfterStop(s: State, i: nat)
    requires WellFormed(s) && i < |s.items|
    ensures UnderCapture(StopRound(s), i) <==> UnderCapture(s, i) && !s.running
    ensures |StopRound(s).items| == |s.items|
    ensures s.running ==> !StopRound(s).running
  {
  }

  lemma AfterTick(s: State, i: nat)
    requires WellFormed(s) && i < |s.items|
    ensures UnderCapture(Tick(s), i) <==>
              UnderCapture(s, i) && !Captured(s, i) && !(s.running && Finishes(s))
  {
    hide HandleContacts, StopIfFinished, StopRound, Captured;
    AfterHandling(s, i);
    var h := HandleContacts(s);
    Lifecycle.TickOutcome(s);
    Timing.HandledContacts(s, "");
    FinishStopsOrNot(h);
    AfterStop(h.(winner := StopIfFinished(h).winner), i);
  }

  lemma AfterStart(s: State, force: bool, now: int, i: nat)
    requires WellFormed(s) && i < |s.items|
    ensures UnderCapture(StartRound(s, force, now), i) <==> UnderCapture(s, i) && !(s.running && force)
  {
  }

  /**
   Whatever the operation: afterwards the item is under capture if and only if the
   operation starts it, or it was under capture and does not cease to be.
   */
  lemma AfterOperation(s: State, op: Op, i: nat)
    requires WellFormed(s) && i < |s.items|
    ensures UnderCapture(Apply(s, op), i) <==> Starts(s, op, i) || (UnderCapture(s, i) && !Ceases(s, op, i))
  {
    hide Tick, StartRound, StopRound, Contact, Drop, Captured;
    match op
    case Touch(rid, item) => if ValidTouch(s, op) { AfterTouch(s, rid, item, i); }
    case Release(rid) => AfterDrop(s, rid, i);
    case Step => AfterTick(s, i);
    case Start(force, now) => AfterStart(s, force, now, i);
    case Stop => AfterStop(s, i);
    case _ =>
  }

  // ----- Whole histories

  /** Operation j has started the item's capture, and nothing since has ended it. */
  ghost predicate StartedAt(s: State, ops: seq<Op>, j: nat, k: nat, i: nat)
    requires WellFormed(s) && k <= |ops|
  {
    && j < k && Starts(At(s, ops, j), ops[j], i)
    && forall m | j < m < k :: NothingCeases(s, ops, m, i)
  }

  ghost predicate NothingCeases(s: State, ops: seq<Op>, m: nat, i: nat)
    requires WellFormed(s) && m < |ops|
  {
    var before := At(s, ops, m);
    i < |before.items| && !Ceases(before, ops[m], i)
  }

  lemma StartedNext(s: State, ops: seq<Op>, j: nat, p: nat, i: nat)
    requires WellFormed(s) && j <= p < |ops|
    ensures StartedAt(s, ops, j, p + 1, i) <==>
              if j == p then Starts(At(s, ops, p), ops[p], i)
              else StartedAt(s, ops, j, p, i) && NothingCeases(s, ops, p, i)
  {
    hide At, Apply, Starts, Ceases, NothingCeases;
  }

  /**
   At any point of any history an item is under capture if and only if some touch of it by
   a robot of another team than its owner's, with no contact of its own on it, has been
   followed by nothing that ends the capture.
   */
  lemma {:induction false} CapturesFollowHistory(s: State, ops: seq<Op>, k: nat, i: nat)
    requires WellFormed(s) && i < |s.items| && !UnderCapture(s, i) && k <= |ops|
    ensures UnderCapture(At(s, ops, k), i) <==> exists j :: 0 <= j < k && StartedAt(s, ops, j, k, i)
  {
    hide At, Apply, StartedAt, Starts, Ceases, UnderCapture;
    if k == 0 {
      AtStart(s, ops);
    } else {
      var p := k - 1;
      CapturesFollowHistory(s, ops, p, i);
      AtStep(s, ops, p);
      ItemsAt(s, ops, p);
      AfterOperation(At(s, ops, p), ops[p], i);
      forall j | 0 <= j < k
        ensures StartedAt(s, ops, j, k, i) <==>
                  if j == p then Starts(At(s, ops, p), ops[p], i)
                  else StartedAt(s, ops, j, p, i) && NothingCeases(s, ops, p, i)
      {
        StartedNext(s, ops, j, p, i);
      }
      if UnderCapture(At(s, ops, k), i) {
        if Starts(At(s, ops, p), ops[p], i) {
          assert StartedAt(s, ops, p, k, i);
        } else {
          var j :| 0 <= j < p && StartedAt(s, ops, j, p, i);
          assert StartedAt(s, ops, j, k, i);
        }
      }
    }
  }

  lemma ItemsAt(s: State, ops: seq<Op>, k: nat)
    requires WellFormed(s) && k <= |ops|
    ensures |At(s, ops, k).items| == |s.items|
  {
    Timing.ItemsStay(s, ops[..k]);
  }
}
