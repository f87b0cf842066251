/**
 Robot state messages end to end: RFID readings and colour readings, through the flag
 detectors, into the contacts of the round.
 */
module Sightings {
  import opened Options
  import opened Round
  import opened Detector
  import Timing

  datatype Sensors = Sensors(
    round: State,
    detectors: map<string, DetectorState>, // robot id -> its detector
    byRfid: map<string, nat>,
    byColour: Table)

  datatype RfidReading = RfidReading(rfid: string, on: bool)

  ghost predicate Valid(s: Sensors)
    ensures Valid(s) ==> WellFormed(s.round)
  {
    && WellFormed(s.round)
    && s.detectors.Keys == s.round.robots.Keys
    && (forall r | r in s.byRfid :: s.byRfid[r] < |s.round.items|)
    && (forall c | c in s.byColour :: s.byColour[c] < |s.round.items|)
    && (forall rid | rid in s.detectors ::
          && Consistent(s.detectors[rid])
          && (s.detectors[rid].lastItem.Some? ==> s.detectors[rid].lastItem.value < |s.round.items|))
  }

  function Tell(s: State, rid: string, report: Report): (r: State)
    requires WellFormed(s)
    ensures WellFormed(r) && r.robots == s.robots && |r.items| == |s.items|
  {
    match report
    case Nothing => s
    case InContact(item) => Apply(s, Touch(rid, item))
    case Dropped(_) => Apply(s, Release(rid))
  }

  lemma TellAll(s: State, rid: string)
    requires WellFormed(s)
    ensures Tell(s, rid, Nothing) == s
    ensures forall i: nat | rid in s.robots && i < |s.items| :: Tell(s, rid, InContact(i)) == Contact(s, rid, i)
    ensures forall i: nat :: Tell(s, rid, Dropped(i)) == Drop(s, rid)
  {
  }

  function SeeRfid(s: Sensors, rid: string, reading: RfidReading): (r: Sensors)
    requires Valid(s)
    ensures Valid(r)
  {
    if reading.rfid !in s.byRfid then s
    else
      var op := if reading.on then Touch(rid, s.byRfid[reading.rfid]) else Release(rid);
      Timing.ItemCount(s.round, op);
      s.(round := Apply(s.round, op))
  }

  lemma RfidSeen(s: Sensors, rid: string, reading: RfidReading)
    requires Valid(s) && rid in s.round.robots
    ensures reading.rfid in s.byRfid ==> s.byRfid[reading.rfid] < |s.round.items|
    ensures SeeRfid(s, rid, reading) ==
              if reading.rfid !in s.byRfid then s
              else s.(round := if reading.on then Contact(s.round, rid, s.byRfid[reading.rfid]) else Drop(s.round, rid))
  {
  }

  function SeeColour(s: Sensors, rid: string, colour: int): (r: Sensors)
    requires Valid(s)
    ensures Valid(r)
  {
    if rid !in s.detectors then s
    else
      hide Read, Tell;
      var o := Read(s.detectors[rid], colour, s.byColour);
      ReadChanges(s.detectors[rid], colour, s.byColour);
      s.(round := Tell(s.round, rid, o.report), detectors := s.detectors[rid := o.state])
  }

  lemma ColourSeen(s: Sensors, rid: string, colour: int)
    requires Valid(s) && rid in s.detectors
    ensures var o := Read(s.detectors[rid], colour, s.byColour);
            && SeeColour(s, rid, colour) ==
                 s.(round := Tell(s.round, rid, o.report), detectors := s.detectors[rid := o.state])
            && Consistent(o.state)
  {
    hide Read, Tell, Apply;
    ReadChanges(s.detectors[rid], colour, s.byColour);
  }

  function SeeRfids(s: Sensors, rid: string, readings: seq<RfidReading>): (r: Sensors)
    requires Valid(s)
    ensures Valid(r)
  {
    if readings == [] then s
    else SeeRfid(SeeRfids(s, rid, readings[..|readings| - 1]), rid, readings[|readings| - 1])
  }

  function SeeColours(s: Sensors, rid: string, colours: seq<int>): (r: Sensors)
    requires Valid(s)
    ensures Valid(r)
  {
    if colours == [] then s
    else SeeColour(SeeColours(s, rid, colours[..|colours| - 1]), rid, colours[|colours| - 1])
  }

  /** The whole message: RFID readings first; an unknown robot's message is refused. */
  function RobotState(s: Sensors, rid: string, rfids: seq<RfidReading>, colours: seq<int>): (r: Sensors)
    requires Valid(s)
    ensures Valid(r)
  {
    if rid !in s.round.robots then s
    else SeeColours(SeeRfids(s, rid, rfids), rid, colours)
  }

  /** The items found by RFID, whether the robot touches or leaves them. */
  function RfidItems(s: Sensors, readings: seq<RfidReading>): set<nat> {
    if readings == [] then {}
    else
      var rfid := readings[|readings| - 1].rfid;
      RfidItems(s, readings[..|readings| - 1]) + if rfid in s.byRfid then {s.byRfid[rfid]} else {}
  }

  /** The items the detector newly finds on the way. */
  function ColourItems(s: Sensors, rid: string, colours: seq<int>): set<nat>
    requires Valid(s) && rid in s.detectors
  {
    if colours == [] then {}
    else
      var most := colours[..|colours| - 1];
      SeeColoursKeeps(s, rid, most);
      var found := Read(SeeColours(s, rid, most).detectors[rid], colours[|colours| - 1], s.byColour).newItem;
      ColourItems(s, rid, most) + if found.Some? then {found.value} else {}
  }

  lemma {:induction false} SeeColoursKeeps(s: Sensors, rid: string, colours: seq<int>)
    requires Valid(s)
    ensures var r := SeeColours(s, rid, colours);
            r.detectors.Keys == s.detectors.Keys && r.byColour == s.byColour && r.byRfid == s.byRfid
  {
    hide Valid, Read, Tell;
    if colours != [] {
      SeeColoursKeeps(s, rid, colours[..|colours| - 1]);
    }
  }

  lemma {:induction false} SeeRfidsKeeps(s: Sensors, rid: string, readings: seq<RfidReading>)
    requires Valid(s)
    ensures var r := SeeRfids(s, rid, readings);
            r.detectors == s.detectors && r.byColour == s.byColour && r.byRfid == s.byRfid
  {
    hide Valid, Apply;
    if readings != [] {
      SeeRfidsKeeps(s, rid, readings[..|readings| - 1]);
    }
  }

  /** The items a message makes known to the player. */
  function Visited(s: Sensors, rid: string, rfids: seq<RfidReading>, colours: seq<int>): set<nat>
    requires Valid(s)
  {
    if rid !in s.round.robots then {}
    else
      SeeRfidsKeeps(s, rid, rfids);
      RfidItems(s, rfids) + ColourItems(SeeRfids(s, rid, rfids), rid, colours)
  }

  // ----- What a message does, reading by reading

  /** The last reading of a known RFID. */
  ghost predicate LastKnown(byRfid: map<string, nat>, readings: seq<RfidReading>, k: nat) {
    && k < |readings| && readings[k].rfid in byRfid
    && forall j | k < j < |readings| :: readings[j].rfid !in byRfid
  }

  /** What a reading of a known RFID does to the robot's contact. */
  ghost predicate Decided(s: Sensors, rid: string, reading: RfidReading, r: State)
    requires rid in s.round.robots && reading.rfid in s.byRfid
  {
    if reading.on
    then rid in r.contacts && r.contacts[rid] ==
           ContactState(s.round.robots[rid], s.byRfid[reading.rfid], s.round.time + s.round.rules.timeToCapture)
    else rid !in r.contacts
  }

  lemma {:induction false} RfidsKeepShape(s: Sensors, rid: string, readings: seq<RfidReading>)
    requires Valid(s) && rid in s.round.robots
    ensures var r := SeeRfids(s, rid, readings);
            && r.round.robots == s.round.robots && r.round.time == s.round.time && r.round.rules == s.round.rules
            && r.byRfid == s.byRfid
  {
    hide Valid, SeeRfid;
    if readings != [] {
      RfidsKeepShape(s, rid, readings[..|readings| - 1]);
      OneRfid(SeeRfids(s, rid, readings[..|readings| - 1]), rid, readings[|readings| - 1]);
    }
  }

  lemma LastKnownBefore(byRfid: map<string, nat>, readings: seq<RfidReading>, k: nat)
    requires readings != []
    ensures var n := |readings| - 1;
            LastKnown(byRfid, readings, k) <==>
              if readings[n].rfid in byRfid then k == n else k < n && LastKnown(byRfid, readings[..n], k)
  {
    var n := |readings| - 1;
    if LastKnown(byRfid, readings, k) && k < n {
      assert readings[n].rfid !in byRfid;
      assert forall j | k < j < n :: readings[..n][j] == readings[j];
    }
    if k < n && LastKnown(byRfid, readings[..n], k) && readings[n].rfid !in byRfid {
      forall j | k < j < |readings| ensures readings[j].rfid !in byRfid {
        assert j < n ==> readings[..n][j] == readings[j];
      }
    }
  }

  /** The robot's contact after its RFID readings is what the last one of a known RFID says. */
  lemma {:induction false} RfidsDecide(s: Sensors, rid: string, readings: seq<RfidReading>, k: nat)
    requires Valid(s) && rid in s.round.robots && k < |readings| && LastKnown(s.byRfid, readings, k)
    ensures Decided(s, rid, readings[k], SeeRfids(s, rid, readings).round)
  {
    hide Valid, SeeRfid, LastKnown;
    var n := |readings| - 1;
    var before := SeeRfids(s, rid, readings[..n]);
    LastKnownBefore(s.byRfid, readings, k);
    RfidsKeepShape(s, rid, readings[..n]);
    OneRfid(before, rid, readings[n]);
    if k < n {
      RfidsDecide(s, rid, readings[..n], k);
      assert readings[..n][k] == readings[k];
    }
  }

  /** Unknown RFIDs do nothing. */
  lemma {:induction false} UnknownRfids(s: Sensors, rid: string, readings: seq<RfidReading>)
    requires Valid(s) && rid in s.round.robots
    requires forall k | 0 <= k < |readings| :: readings[k].rfid !in s.byRfid
    ensures SeeRfids(s, rid, readings) == s
  {
    hide Valid;
    if readings != [] {
      UnknownRfids(s, rid, readings[..|readings| - 1]);
    }
  }

  lemma OneRfid(s: Sensors, rid: string, reading: RfidReading)
    requires Valid(s) && rid in s.round.robots
    ensures var r := SeeRfid(s, rid, reading).round;
            && r.robots == s.round.robots && r.time == s.round.time && r.rules == s.round.rules
            && |r.items| == |s.round.items|
            && (reading.rfid in s.byRfid ==> Decided(s, rid, reading, r))
            && (reading.rfid !in s.byRfid ==> r == s.round)
    ensures SeeRfid(s, rid, reading).byRfid == s.byRfid
  {
    hide Apply, Contact, Drop;
    RfidSeen(s, rid, reading);
    if reading.rfid in s.byRfid {
      TouchOrDrop(s.round, rid, s.byRfid[reading.rfid]);
    }
  }

  lemma TouchOrDrop(s: State, rid: string, item: nat)
    requires WellFormed(s) && rid in s.robots && item < |s.items|
    ensures var r := Contact(s, rid, item);
            && r.robots == s.robots && r.time == s.time && r.rules == s.rules && |r.items| == |s.items|
            && rid in r.contacts && r.contacts[rid] == ContactState(s.robots[rid], item, s.time + s.rules.timeToCapture)
    ensures var r := Drop(s, rid);
            && r.robots == s.robots && r.time == s.time && r.rules == s.rules && |r.items| == |s.items|
            && rid !in r.contacts
  {
  }

  /** The robot's detector reads the colours in order; the other detectors read nothing. */
  lemma {:induction false} ColoursAreRead(s: Sensors, rid: string, colours: seq<int>)
    requires Valid(s) && rid in s.detectors
    ensures var t := SeeColours(s, rid, colours);
            && t.detectors == s.detectors[rid := From(s.detectors[rid], s.byColour, colours)]
            && t.byColour == s.byColour
  {
    hide Valid, Read, Tell, SeeColour;
    if colours != [] {
      var n := |colours| - 1;
      ColoursAreRead(s, rid, colours[..n]);
      ColourSeen(SeeColours(s, rid, colours[..n]), rid, colours[n]);
    } else {
      assert s.detectors[rid := s.detectors[rid]] == s.detectors;
    }
  }

  /** A reading that makes the detector report a contact with the item. */
  ghost predicate FindsAt(s: Sensors, rid: string, colours: seq<int>, k: nat, item: nat)
    requires rid in s.detectors && k < |colours|
  {
    Read(From(s.detectors[rid], s.byColour, colours[..k]), colours[k], s.byColour).report == InContact(item)
  }

  ghost predicate ReadAt(s: Sensors, rfids: seq<RfidReading>, k: nat, item: nat)
    requires k < |rfids|
  {
    rfids[k].rfid in s.byRfid && s.byRfid[rfids[k].rfid] == item
  }

  lemma {:induction false} RfidItemsAre(s: Sensors, rfids: seq<RfidReading>, item: nat)
    ensures item in RfidItems(s, rfids) <==> exists k :: 0 <= k < |rfids| && ReadAt(s, rfids, k, item)
  {
    if rfids != [] {
      var n := |rfids| - 1;
      RfidItemsAre(s, rfids[..n], item);
      assert forall k | 0 <= k < n :: ReadAt(s, rfids[..n], k, item) <==> ReadAt(s, rfids, k, item);
      assert ReadAt(s, rfids, n, item) <==> rfids[n].rfid in s.byRfid && s.byRfid[rfids[n].rfid] == item;
    }
  }

  lemma FindsBefore(s: Sensors, rid: string, colours: seq<int>, k: nat, item: nat)
    requires rid in s.detectors && colours != [] && k < |colours| - 1
    ensures FindsAt(s, rid, colours[..|colours| - 1], k, item) <==> FindsAt(s, rid, colours, k, item)
  {
    hide Read, From;
    assert colours[..|colours| - 1][..k] == colours[..k];
  }

  lemma {:induction false} ColourItemsAre(s: Sensors, rid: string, colours: seq<int>, item: nat)
    requires Valid(s) && rid in s.detectors
    ensures item in ColourItems(s, rid, colours) <==>
              exists k :: 0 <= k < |colours| && FindsAt(s, rid, colours, k, item)
  {
    hide Valid, Read, SeeColours, From, FindsAt;
    if colours != [] {
      var n := |colours| - 1;
      ColourItemsAre(s, rid, colours[..n], item);
      LastColour(s, rid, colours, item);
      forall k | 0 <= k < n ensures FindsAt(s, rid, colours[..n], k, item) <==> FindsAt(s, rid, colours, k, item) {
        FindsBefore(s, rid, colours, k, item);
      }
    }
  }

  lemma LastColour(s: Sensors, rid: string, colours: seq<int>, item: nat)
    requires Valid(s) && rid in s.detectors && colours != []
    ensures var n := |colours| - 1;
            item in ColourItems(s, rid, colours) <==>
              item in ColourItems(s, rid, colours[..n]) || FindsAt(s, rid, colours, n, item)
  {
    hide Valid, Read, SeeColours, From;
    var n := |colours| - 1;
    ColoursAreRead(s, rid, colours[..n]);
    FoundMeansContact(SeeColours(s, rid, colours[..n]).detectors[rid], colours[n], s.byColour);
  }

  lemma FoundMeansContact(d: DetectorState, colour: int, table: Table)
    ensures var o := Read(d, colour, table);
            (o.newItem.Some? <==> o.report.InContact?) && (o.newItem.Some? ==> o.report == InContact(o.newItem.value))
  {
  }

  /**
   An item is made known to the player of a known robot if and only if some reading of the
   message, on or off, has an RFID of the item, or some colour of it makes the robot's
   detector report a contact with the item.
   */
  lemma VisitedAre(s: Sensors, rid: string, rfids: seq<RfidReading>, colours: seq<int>, item: nat)
    requires Valid(s) && rid in s.round.robots
    ensures rid in s.detectors
    ensures item in Visited(s, rid, rfids, colours) <==>
              || (exists k :: 0 <= k < |rfids| && ReadAt(s, rfids, k, item))
              || (exists k :: 0 <= k < |colours| && FindsAt(s, rid, colours, k, item))
  {
    hide Read, Tell, SeeRfid, SeeColour;
    SeeRfidsKeeps(s, rid, rfids);
    var t := SeeRfids(s, rid, rfids);
    RfidItemsAre(s, rfids, item);
    ColourItemsAre(t, rid, colours, item);
    assert forall k | 0 <= k < |colours| :: FindsAt(t, rid, colours, k, item) <==> FindsAt(s, rid, colours, k, item);
  }

  /** The message of a known robot: first all its RFID readings, and then all its colours. */
  lemma KnownRobot(s: Sensors, rid: string, rfids: seq<RfidReading>, colours: seq<int>)
    requires Valid(s) && rid in s.round.robots
    ensures rid in s.detectors
    ensures RobotState(s, rid, rfids, []) == SeeRfids(s, rid, rfids)
    ensures RobotState(s, rid, rfids, colours) == SeeColours(RobotState(s, rid, rfids, []), rid, colours)
    ensures RobotState(s, rid, rfids, colours).detectors ==
              s.detectors[rid := From(s.detectors[rid], s.byColour, colours)]
  {
    hide Read, Tell, SeeRfid, SeeColour;
    SeeRfidsKeeps(s, rid, rfids);
    ColoursAreRead(SeeRfids(s, rid, rfids), rid, colours);
  }

  /** Nothing is done or made known for a robot that is not known. */
  lemma UnknownRobot(s: Sensors, rid: string, rfids: seq<RfidReading>, colours: seq<int>)
    requires Valid(s) && rid !in s.round.robots
    ensures RobotState(s, rid, rfids, colours) == s && Visited(s, rid, rfids, colours) == {}
  {
  }

  // ----- Robots that report colours only

  datatype Input =
    | Reading(rid: string, colour: int)
    | Other(op: Op)

  /** Whatever the input is, robots that have become known get detectors. */
  function Take(s: Sensors, input: Input): (r: Sensors)
    requires Valid(s)
    ensures Valid(r)
  {
    match input
    case Reading(rid, colour) => SeeColour(s, rid, colour)
    case Other(op) =>
      Timing.ItemCount(s.round, op);
      var round := Apply(s.round, op);
      RobotsAfter(s.round, op);
      var added := round.robots.Keys - s.detectors.Keys;
      s.(round := round, detectors := s.detectors + map rid | rid in added :: INITIAL)
  }

  lemma RobotsAfter(s: State, op: Op)
    requires WellFormed(s)
    ensures Apply(s, op).robots.Keys ==
              if op.AddRobot? && op.team in s.scores then s.robots.Keys + {op.rid} else s.robots.Keys
  {
    hide HandleContacts, StopIfFinished;
    if op.Step? {
      Timing.HandledContacts(s, "");
      FinishStopsOrNot(HandleContacts(s));
    }
  }

  function TakeAll(s: Sensors, inputs: seq<Input>): (r: Sensors)
    requires Valid(s)
    ensures Valid(r)
  {
    if inputs == [] then s
    else Take(TakeAll(s, inputs[..|inputs| - 1]), inputs[|inputs| - 1])
  }

  /** The robot touches or leaves something without its detector, as by RFID. */
  predicate Feels(input: Input, rid: string) {
    input.Other? && (input.op.Touch? || input.op.Release?) && input.op.rid == rid
  }

  /** The robot reports colours only; the others report what they like. */
  ghost predicate ColoursOnly(inputs: seq<Input>, rid: string) {
    forall k | 0 <= k < |inputs| :: !Feels(inputs[k], rid)
  }

  function Held(s: Sensors, rid: string): Option<nat> {
    if rid in s.detectors then s.detectors[rid].lastItem else None
  }

  /** The robot is in contact only with the item its detector holds. */
  predicate Seen(s: Sensors, rid: string) {
    rid in s.round.contacts ==> Held(s, rid) == Some(s.round.contacts[rid].item)
  }

  lemma ReadingSeen(s: Sensors, rid: string, colour: int, who: string)
    requires Valid(s) && Seen(s, rid)
    ensures var r := SeeColour(s, who, colour);
            && Seen(r, rid)
            && (Held(r, rid).Some? && rid !in r.round.contacts ==>
                  Held(s, rid) == Held(r, rid) && rid !in s.round.contacts)
  {
    hide Apply, Read, WellFormed;
    if who in s.detectors {
      ReadChanges(s.detectors[who], colour, s.byColour);
      match Read(s.detectors[who], colour, s.byColour).report
      case Nothing =>
      case InContact(item) => Timing.ContactAfter(s.round, Touch(who, item), rid);
      case Dropped(_) => Timing.ContactAfter(s.round, Release(who), rid);
    }
  }

  lemma OtherSeen(s: Sensors, op: Op, rid: string)
    requires Valid(s) && Seen(s, rid) && !Feels(Other(op), rid)
    ensures var r := Take(s, Other(op));
            && Seen(r, rid)
            && (Held(r, rid).Some? ==> Held(s, rid) == Held(r, rid))
            && (Held(r, rid).Some? && rid !in r.round.contacts ==>
                  rid !in s.round.contacts || (op.Step? && Matures(s.round, rid)))
  {
    hide Apply;
    Timing.ContactAfter(s.round, op, rid);
  }

  lemma InputSeen(s: Sensors, input: Input, rid: string)
    requires Valid(s) && Seen(s, rid) && !Feels(input, rid)
    ensures var r := Take(s, input);
            && Seen(r, rid)
            && (Held(r, rid).Some? && rid !in r.round.contacts ==>
                  && Held(s, rid) == Held(r, rid)
                  && (rid !in s.round.contacts || (input == Other(Step) && Matures(s.round, rid))))
  {
    hide Valid, SeeColour, Apply;
    match input
    case Reading(who, colour) => ReadingSeen(s, rid, colour, who);
    case Other(op) => OtherSeen(s, op, rid);
  }

  /**
   In every run, whatever the other robots and everybody else do, a robot that reports
   colours only is in contact with nothing but the item its detector holds.
   */
  lemma {:induction false} EveryContactIsSeen(s: Sensors, inputs: seq<Input>, rid: string)
    requires Valid(s) && Seen(s, rid) && ColoursOnly(inputs, rid)
    ensures Seen(TakeAll(s, inputs), rid)
  {
    hide Valid, Take, Seen;
    if inputs != [] {
      var most := inputs[..|inputs| - 1];
      EveryContactIsSeen(s, most, rid);
      InputSeen(TakeAll(s, most), inputs[|inputs| - 1], rid);
    }
  }

  /** Input k is the step at which the robot's contact with the item matured; it has held the item since. */
  ghost predicate MaturedAt(s: Sensors, inputs: seq<Input>, k: nat, rid: string, item: nat)
    requires Valid(s) && k < |inputs|
  {
    && inputs[k] == Other(Step)
    && Matures(TakeAll(s, inputs[..k]).round, rid)
    && TakeAll(s, inputs[..k]).round.contacts[rid].item == item
    && forall m | k <= m <= |inputs| :: Held(TakeAll(s, inputs[..m]), rid) == Some(item)
  }

  /** If its detector holds an item without a contact, a step has matured that contact. */
  lemma {:induction false} HeldWithoutContactMatured(s: Sensors, inputs: seq<Input>, rid: string)
    requires Valid(s) && Seen(s, rid) && ColoursOnly(inputs, rid)
    requires Held(s, rid).Some? ==> rid in s.round.contacts
    requires Held(TakeAll(s, inputs), rid).Some? && rid !in TakeAll(s, inputs).round.contacts
    ensures exists k :: 0 <= k < |inputs| && MaturedAt(s, inputs, k, rid, Held(TakeAll(s, inputs), rid).value)
  {
    hide Valid, Take;
    if inputs != [] {
      var n := |inputs| - 1;
      var most := inputs[..n];
      EveryContactIsSeen(s, most, rid);
      var before := TakeAll(s, most);
      var item := Held(TakeAll(s, inputs), rid).value;
      InputSeen(before, inputs[n], rid);
      assert Held(before, rid) == Some(item);
      assert inputs[..|inputs|] == inputs;
      if rid in before.round.contacts {
        assert MaturedAt(s, inputs, n, rid, item);
      } else {
        HeldWithoutContactMatured(s, most, rid);
        var k :| 0 <= k < n && MaturedAt(s, most, k, rid, item);
        MaturedStays(s, inputs, k, rid, item);
      }
    }
  }

  lemma MaturedStays(s: Sensors, inputs: seq<Input>, k: nat, rid: string, item: nat)
    requires Valid(s) && k < |inputs| - 1
    requires MaturedAt(s, inputs[..|inputs| - 1], k, rid, item)
    requires Held(TakeAll(s, inputs), rid) == Some(item)
    ensures MaturedAt(s, inputs, k, rid, item)
  {
    hide Valid, Take;
    var most := inputs[..|inputs| - 1];
    assert most[..k] == inputs[..k];
    forall m | k <= m <= |inputs| ensures Held(TakeAll(s, inputs[..m]), rid) == Some(item) {
      if m < |inputs| {
        assert most[..m] == inputs[..m];
      } else {
        assert inputs[..m] == inputs;
      }
    }
  }
}
