/**
 The flag detector: a five-state machine fed with colour readings, compared with what
 the history of readings says the robot is standing on.
 */
module Detector {
  import opened Options

  const FRONTIER_COLOUR := 1

  datatype Place = OUTSIDE | FRONTIER | UNKNOWN_FROM_FRONTIER | INSIDE | TRANSITION_FROM_INSIDE

  datatype DetectorState = DetectorState(place: Place, colour: int, lastItem: Option<nat>)

  const INITIAL := DetectorState(OUTSIDE, FRONTIER_COLOUR, None)

  /** What a reading makes the detector tell the contact handler. */
  datatype Report = Nothing | InContact(item: nat) | Dropped(item: nat)

  datatype Outcome = Outcome(state: DetectorState, report: Report, newItem: Option<nat>)

  /** Colour code -> item. */
  type Table = map<int, nat>

  function Lookup(table: Table, colour: int): Option<nat> {
    if colour in table then Some(table[colour]) else None
  }

  function Leave(d: DetectorState): (o: Outcome)
    ensures o.newItem == None && o.state.lastItem == None
  {
    Outcome(DetectorState(FRONTIER, FRONTIER_COLOUR, None),
            if d.lastItem.Some? then Dropped(d.lastItem.value) else Nothing, None)
  }

  function Read(d: DetectorState, colour: int, table: Table): Outcome {
    var item := Lookup(table, colour);
    match d.place
    case OUTSIDE =>
      Outcome(if colour == FRONTIER_COLOUR then d.(place := FRONTIER) else d, Nothing, None)
    case FRONTIER =>
      if item.Some? then Outcome(DetectorState(INSIDE, colour, item), InContact(item.value), item)
      else Outcome(d.(place := UNKNOWN_FROM_FRONTIER), Nothing, None)
    case UNKNOWN_FROM_FRONTIER =>
      if item.None? then Outcome(d, Nothing, None)
      else if d.lastItem.Some? then Outcome(d.(place := INSIDE, colour := colour), Nothing, None)
      else Outcome(DetectorState(INSIDE, colour, item), InContact(item.value), item)
    case INSIDE =>
      if colour == FRONTIER_COLOUR then Leave(d)
      else Outcome(if colour != d.colour then d.(place := TRANSITION_FROM_INSIDE) else d, Nothing, None)
    case TRANSITION_FROM_INSIDE =>
      if colour == d.colour then
        Outcome(if d.lastItem.Some? then d.(place := INSIDE) else d, Nothing, None)
      else if colour == FRONTIER_COLOUR then Leave(d)
      else Outcome(d, Nothing, None)
  }

  /**
   Colour 1 is the frontier: it is at the frontier that a detector is after reading it from
   outside or inside, and never otherwise; and a detector stays outside until it reads it.
   */
  lemma FrontierIsColourOne(d: DetectorState, colour: int, table: Table)
    ensures Read(d, colour, table).state.place == FRONTIER <==>
              colour == 1 && (d.place == OUTSIDE || d.place == INSIDE
                              || (d.place == TRANSITION_FROM_INSIDE && d.colour != 1))
    ensures Read(d, colour, table).state.place == OUTSIDE <==> d.place == OUTSIDE && colour != 1
  {
  }

  predicate Holds(d: DetectorState) {
    d.place == INSIDE || d.place == TRANSITION_FROM_INSIDE
  }

  /** The detector holds an item exactly in its two inner states. */
  predicate Consistent(d: DetectorState) {
    d.lastItem.Some? <==> Holds(d)
  }

  /** One reading and what is held: reports are exactly the changes. */
  lemma ReadChanges(d: DetectorState, colour: int, table: Table)
    requires Consistent(d)
    ensures var o := Read(d, colour, table);
            && Consistent(o.state)
            && match o.report
               case Nothing => o.state.lastItem == d.lastItem
               case InContact(item) =>
                 d.lastItem == None && o.state.lastItem == Some(item) && Lookup(table, colour) == Some(item)
               case Dropped(item) => d.lastItem == Some(item) && o.state.lastItem == None
  {
  }

  function After(table: Table, readings: seq<int>): DetectorState {
    if readings == [] then INITIAL
    else Read(After(table, readings[..|readings| - 1]), readings[|readings| - 1], table).state
  }

  /** The detector after more readings. */
  function From(d: DetectorState, table: Table, readings: seq<int>): DetectorState {
    if readings == [] then d
    else Read(From(d, table, readings[..|readings| - 1]), readings[|readings| - 1], table).state
  }

  lemma {:induction false} AfterIsFromTheStart(table: Table, readings: seq<int>)
    ensures After(table, readings) == From(DetectorState(OUTSIDE, 1, None), table, readings)
  {
    if readings != [] {
      AfterIsFromTheStart(table, readings[..|readings| - 1]);
    }
  }

  // ----- What the history says

  /** The readings since the last one of the frontier, if there was one. */
  function SinceFrontier(readings: seq<int>): (r: Option<seq<int>>)
    ensures r.None? <==> FRONTIER_COLOUR !in readings
    ensures r.Some? ==>
      && |r.value| < |readings| && FRONTIER_COLOUR !in r.value
      && readings == readings[..|readings| - |r.value| - 1] + [FRONTIER_COLOUR] + r.value
  {
    if readings == [] then None
    else
      var n := |readings| - 1;
      assert readings == readings[..n] + [readings[n]];
      if readings[n] == FRONTIER_COLOUR then Some([])
      else match SinceFrontier(readings[..n])
        case None => None
        case Some(since) => Some(since + [readings[n]])
  }

  /** The first of the colours that belongs to an item. */
  function FirstItemColour(table: Table, colours: seq<int>): (r: Option<int>)
    ensures r.None? ==> forall c | c in colours :: c !in table
    ensures r.Some? ==> r.value in table && ComesFirst(table, colours, r.value)
  {
    if colours == [] then None
    else if colours[0] in table then Some(colours[0])
    else
      var r := FirstItemColour(table, colours[1..]);
      assert r.Some? ==> ComesFirst(table, colours, r.value) by {
        if r.Some? {
          var k :| 0 <= k < |colours[1..]| && colours[1..][k] == r.value
                   && forall m | 0 <= m < k :: colours[1..][m] !in table;
          assert forall m | 0 < m < k + 1 :: colours[m] == colours[1..][m - 1];
          assert colours[k + 1] == r.value;
        }
      }
      r
  }

  ghost predicate ComesFirst(table: Table, colours: seq<int>, colour: int) {
    exists k :: 0 <= k < |colours| && colours[k] == colour && forall m | 0 <= m < k :: colours[m] !in table
  }

  /** The colour of the item the robot stands on: the first item colour since the frontier. */
  function HeldColour(table: Table, readings: seq<int>): Option<int> {
    match SinceFrontier(readings)
    case None => None
    case Some(since) => FirstItemColour(table, since)
  }

  /** The detector agrees with the history on what is held and on whether it is being read. */
  ghost predicate Agrees(table: Table, readings: seq<int>) {
    var d := After(table, readings);
    match HeldColour(table, readings)
    case None => d.lastItem == None && !Holds(d)
    case Some(c) =>
      && c in table && d.lastItem == Some(table[c]) && d.colour == c
      && d.place == if readings != [] && readings[|readings| - 1] == c then INSIDE else TRANSITION_FROM_INSIDE
  }

  lemma {:induction false} FirstItemColourExtends(table: Table, colours: seq<int>, c: int)
    ensures FirstItemColour(table, colours + [c]) ==
              match FirstItemColour(table, colours)
              case Some(first) => Some(first)
              case None => if c in table then Some(c) else None
  {
    if colours == [] {
      assert FirstItemColour(table, [c]) == if c in table then Some(c) else None;
    } else {
      assert (colours + [c])[1..] == colours[1..] + [c];
      FirstItemColourExtends(table, colours[1..], c);
    }
  }

  /** The five states, read off the colours seen since the frontier. */
  ghost predicate Tracks(table: Table, d: DetectorState, since: Option<seq<int>>) {
    match since
    case None => d.place == OUTSIDE && d.lastItem == None
    case Some(colours) =>
      match FirstItemColour(table, colours)
      case None => (d.place == FRONTIER || d.place == UNKNOWN_FROM_FRONTIER) && d.lastItem == None
      case Some(c) =>
        && c in table && d.lastItem == Some(table[c]) && d.colour == c && colours != []
        && d.place == if colours[|colours| - 1] == c then INSIDE else TRANSITION_FROM_INSIDE
  }

  lemma ReadTracks(table: Table, d: DetectorState, colours: seq<int>, c: int)
    requires FRONTIER_COLOUR !in table && FRONTIER_COLOUR !in colours
    requires Tracks(table, d, Some(colours))
    ensures Tracks(table, Read(d, c, table).state,
                   if c == FRONTIER_COLOUR then Some([]) else Some(colours + [c]))
  {
    FirstItemColourExtends(table, colours, c);
    assert (colours + [c])[|colours|] == c;
  }

  lemma {:induction false} DetectorTracks(table: Table, readings: seq<int>)
    requires FRONTIER_COLOUR !in table
    ensures Tracks(table, After(table, readings), SinceFrontier(readings))
  {
    if readings != [] {
      var n := |readings| - 1;
      DetectorTracks(table, readings[..n]);
      var since := SinceFrontier(readings[..n]);
      if since.Some? {
        ReadTracks(table, After(table, readings[..n]), since.value, readings[n]);
      }
    }
  }

  /**
   For every sequence of readings the detector holds what the history says, if and only
   if no item has the frontier's own colour.
   */
  lemma DetectorRefinesHistory(table: Table)
    ensures (forall readings :: Agrees(table, readings)) <==> FRONTIER_COLOUR !in table
  {
    if FRONTIER_COLOUR !in table {
      forall readings ensures Agrees(table, readings) {
        DetectorTracks(table, readings);
      }
    } else {
      var twice := [FRONTIER_COLOUR, FRONTIER_COLOUR];
      assert twice[..1] == [FRONTIER_COLOUR] && twice[..1][..0] == [];
      assert After(table, []) == INITIAL;
      assert After(table, twice[..1]).place == FRONTIER;
      assert After(table, twice).place == INSIDE;
      assert SinceFrontier(twice) == Some([]);
      assert !Agrees(table, twice);
    }
  }

  // ----- What the detector tells the game

  /** The reports so far, leaving out the readings that caused none. */
  function Reports(table: Table, readings: seq<int>): seq<Report> {
    if readings == [] then []
    else
      var n := |readings| - 1;
      var report := Read(After(table, readings[..n]), readings[n], table).report;
      Reports(table, readings[..n]) + if report.Nothing? then [] else [report]
  }

  /** Even reports are contacts; odd ones drop the item of the contact before. */
  predicate Alternating(reports: seq<Report>, k: nat)
    requires k < |reports|
  {
    if k % 2 == 0 then reports[k].InContact?
    else reports[k].Dropped? && reports[k - 1] == InContact(reports[k].item)
  }

  ghost predicate Alternates(reports: seq<Report>) {
    forall k | 0 <= k < |reports| :: Alternating(reports, k)
  }

  /**
   Contacts and drops alternate, starting with a contact, each drop naming the item of
   the contact before it; the last report is an unmatched contact exactly while an item
   is held, and it is that item.
   */
  lemma {:induction false} ReportsAlternate(table: Table, readings: seq<int>)
    ensures var d := After(table, readings);
            var reports := Reports(table, readings);
            && Alternates(reports) && Consistent(d)
            && (|reports| % 2 == 1 <==> d.lastItem.Some?)
            && (d.lastItem.Some? ==> reports[|reports| - 1] == InContact(d.lastItem.value))
  {
    if readings != [] {
      var n := |readings| - 1;
      ReportsAlternate(table, readings[..n]);
      var o := Read(After(table, readings[..n]), readings[n], table);
      if o.report.Nothing? {
        assert Reports(table, readings) == Reports(table, readings[..n]);
      } else {
        AppendAlternates(Reports(table, readings[..n]), o.report);
      }
    }
  }

  lemma AppendAlternates(reports: seq<Report>, report: Report)
    requires Alternates(reports)
    requires if |reports| % 2 == 0 then report.InContact?
             else report.Dropped? && reports[|reports| - 1] == InContact(report.item)
    ensures Alternates(reports + [report])
  {
    var more := reports + [report];
    forall k | 0 <= k < |more| ensures Alternating(more, k) {
      if k < |reports| {
        assert Alternating(reports, k);
      }
    }
  }

  /**
   A reading returns an item exactly when it reports a contact, with that item, and the
   branch for a different item found from the frontier is never taken.
   */
  lemma NewItemMeansContact(table: Table, readings: seq<int>, colour: int)
    ensures var d := After(table, readings);
            var o := Read(d, colour, table);
            && (o.newItem.Some? <==> o.report.InContact?)
            && (o.newItem.Some? ==> o.report.item == o.newItem.value && o.state.lastItem == o.newItem)
            && (d.place == UNKNOWN_FROM_FRONTIER ==> d.lastItem == None)
  {
    ReportsAlternate(table, readings);
  }
}
