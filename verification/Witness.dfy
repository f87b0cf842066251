/** A capture in progress always has a live contact behind it. */
module Witness {
  import opened Options
  import opened Round
  import Text

  /** The robot with this id is capturing item i for the team recorded on the item. */
  predicate Capturing(s: State, i: nat, rid: string)
    requires i < |s.items|
  {
    && rid in s.contacts && rid in s.robots
    && s.contacts[rid].item == i
    && s.robots[rid] == s.contacts[rid].team == s.items[i].capturing
  }

  ghost predicate Backed(s: State) {
    forall i | 0 <= i < |s.items| && s.items[i].phase == STARTED ::
      && s.items[i].capturing != s.items[i].owner
      && exists rid :: Capturing(s, i, rid)
  }

  lemma DropKeeps(s: State, rid: string)
    requires WellFormed(s) && Backed(s)
    ensures Backed(Drop(s, rid))
  {
    var r := Drop(s, rid);
    forall i | 0 <= i < |r.items| && r.items[i].phase == STARTED
      ensures r.items[i].capturing != r.items[i].owner && exists k :: Capturing(r, i, k)
    {
      var k :| Capturing(s, i, k);
      assert Capturing(r, i, k);
    }
  }

  lemma ContactKeeps(s: State, rid: string, item: nat)
    requires WellFormed(s) && Backed(s) && rid in s.robots && item < |s.items|
    ensures Backed(Contact(s, rid, item))
  {
    var team := s.robots[rid];
    var r := Contact(s, rid, item);
    forall i | 0 <= i < |r.items| && r.items[i].phase == STARTED
      ensures r.items[i].capturing != r.items[i].owner && exists k :: Capturing(r, i, k)
    {
      if i == item && s.items[i].owner != team {
        assert Capturing(r, i, rid);
      } else {
        var k :| Capturing(s, i, k);
        if k != rid {
          assert Capturing(r, i, k);
        }
      }
    }
  }

  lemma MatureKeeps(s: State, rid: string)
    requires WellFormed(s) && Backed(s)
    ensures Backed(Mature(s, rid))
  {
    var r := Mature(s, rid);
    forall i | 0 <= i < |r.items| && r.items[i].phase == STARTED
      ensures r.items[i].capturing != r.items[i].owner && exists k :: Capturing(r, i, k)
    {
      var k :| Capturing(s, i, k);
      assert Capturing(r, i, k);
    }
  }

  lemma {:induction false} MatureAllKeeps(s: State, keys: seq<string>)
    requires WellFormed(s) && Backed(s)
    ensures Backed(MatureAll(s, keys))
  {
    hide Mature, Backed;
    if keys != [] {
      MatureAllKeeps(s, keys[..|keys| - 1]);
      MatureKeeps(MatureAll(s, keys[..|keys| - 1]), keys[|keys| - 1]);
    }
  }

  lemma SameContactsKeep(s: State, r: State)
    requires Backed(s)
    requires r.items == s.items && r.contacts == s.contacts
    requires forall k | k in s.robots :: k in r.robots && r.robots[k] == s.robots[k]
    ensures Backed(r)
  {
    forall i | 0 <= i < |r.items| && r.items[i].phase == STARTED
      ensures r.items[i].capturing != r.items[i].owner && exists k :: Capturing(r, i, k)
    {
      var k :| Capturing(s, i, k);
      assert Capturing(r, i, k);
    }
  }

  lemma StopKeeps(s: State)
    requires WellFormed(s) && Backed(s)
    ensures Backed(StopRound(s))
  {
  }

  lemma TickKeeps(s: State)
    requires WellFormed(s) && Backed(s)
    ensures Backed(Tick(s))
  {
    hide StopIfFinished, StopRound;
    MatureAllKeeps(s, Text.SortedKeys(s.contacts.Keys));
    var h := HandleContacts(s);
    FinishStopsOrNot(h);
    var named := h.(winner := Tick(s).winner);
    SameContactsKeep(h, named);
    StopKeeps(named);
  }

  lemma StartKeeps(s: State, force: bool, now: int)
    requires WellFormed(s) && Backed(s)
    ensures Backed(StartRound(s, force, now))
  {
    var cleared := ResetScores(s.(winner := None));
    SameContactsKeep(s, cleared);
    StopKeeps(cleared);
    SameContactsKeep(if force then StopRound(cleared) else s, StartRound(s, force, now));
  }

  lemma ApplyKeeps(s: State, op: Op)
    requires WellFormed(s) && Backed(s)
    ensures Backed(Apply(s, op))
  {
    hide Tick, StartRound, Contact, Drop;
    match op
    case Touch(rid, item) => if rid in s.robots && item < |s.items| { ContactKeeps(s, rid, item); }
    case Release(rid) => DropKeeps(s, rid);
    case Step => TickKeeps(s);
    case Start(force, now) => StartKeeps(s, force, now);
    case Stop => StopKeeps(s);
    case _ => SameContactsKeep(s, Apply(s, op));
  }

  /**
   In every state any history can reach, an item under capture has a live contact on it
   by a robot of the capturing team, and that team is not the item's owner.
   */
  lemma {:induction false} EveryCaptureIsBacked(s: State, ops: seq<Op>)
    requires WellFormed(s) && Backed(s)
    ensures Backed(Run(s, ops))
  {
    hide Apply, Backed;
    if ops != [] {
      EveryCaptureIsBacked(s, ops[..|ops| - 1]);
      ApplyKeeps(Run(s, ops[..|ops| - 1]), ops[|ops| - 1]);
    }
  }

  lemma NewGameIsBacked(rules: Rules, duration: int, items: nat, now: int, ops: seq<Op>)
    ensures Backed(Run(NewGame(rules, duration, items, now), ops))
  {
    EveryCaptureIsBacked(NewGame(rules, duration, items, now), ops);
  }

  /**
   A touch and the touching robot's own contact: touching again what it is touching aborts
   the capture, since the new contact starts before the replaced one is destroyed, and
   leaves a live contact all the same. What else parts a live contact from a capture is in
   Captures.
   */
  lemma TouchShowsStarted(s: State, rid: string, item: nat)
    requires WellFormed(s) && rid in s.robots && item < |s.items|
    requires s.robots[rid] != s.items[item].owner
    ensures var r := Contact(s, rid, item);
            && Capturing(r, item, rid)
            && (r.items[item].phase == STARTED <==> !(rid in s.contacts && s.contacts[rid].item == item))
            && (r.items[item].phase == FAILED <==> (rid in s.contacts && s.contacts[rid].item == item))
  {
  }
}
