/** The two indexes over the items, against a scan of the list they speed up. */
module ItemIndex {
  import opened Options

  /** An item is found by its RFIDs or by its colour; NO_COLOUR marks the former. */
  const NO_COLOUR := -1

  datatype ItemKey = ItemKey(rfids: set<string>, colour: int)

  datatype Index = Index(all: seq<ItemKey>, byRfid: map<string, nat>, byColour: map<int, nat>)

  const EMPTY := Index([], map[], map[])

  datatype Request = Request(kind: string, rfids: set<string>, colour: int)

  /** Only flags are known; a flag needs RFIDs or a colour, not both, and a colour of its own. */
  predicate Accepted(s: Index, r: Request) {
    && r.kind == "flag"
    && ((r.rfids == {} && r.colour != NO_COLOUR && r.colour !in s.byColour)
        || (r.rfids != {} && r.colour == NO_COLOUR))
  }

  /** RFIDs already in use keep pointing to their first item. */
  function Create(s: Index, r: Request): Index {
    if !Accepted(s, r) then s
    else if r.rfids == {} then
      Index(s.all + [ItemKey({}, r.colour)], s.byRfid, s.byColour[r.colour := |s.all|])
    else
      Index(s.all + [ItemKey(r.rfids, NO_COLOUR)],
            (map k | k in r.rfids :: |s.all|) + s.byRfid, s.byColour)
  }

  function CreateAll(requests: seq<Request>): Index {
    if requests == [] then EMPTY
    else Create(CreateAll(requests[..|requests| - 1]), requests[|requests| - 1])
  }

  /** The first item in creation order that carries the RFID. */
  function ScanRfid(all: seq<ItemKey>, rfid: string): (r: Option<nat>)
    ensures r.Some? ==> r.value < |all| && rfid in all[r.value].rfids
                        && forall j | 0 <= j < r.value :: rfid !in all[j].rfids
    ensures r.None? ==> forall j | 0 <= j < |all| :: rfid !in all[j].rfids
  {
    if all == [] then None
    else
      var most := all[..|all| - 1];
      var found := ScanRfid(most, rfid);
      if found.Some? then found
      else if rfid in all[|all| - 1].rfids then Some(|all| - 1)
      else None
  }

  function Find<K(==)>(index: map<K, nat>, key: K): Option<nat> {
    if key in index then Some(index[key]) else None
  }

  /** The colour index holds exactly the items of a colour, each under its own colour. */
  ghost predicate ColoursIndexed(s: Index) {
    && (forall c | c in s.byColour :: s.byColour[c] < |s.all| && s.all[s.byColour[c]].colour == c != NO_COLOUR)
    && (forall i | 0 <= i < |s.all| && s.all[i].colour != NO_COLOUR ::
          s.all[i].colour in s.byColour && s.byColour[s.all[i].colour] == i)
  }

  ghost predicate RfidsIndexed(s: Index) {
    forall rfid :: Find(s.byRfid, rfid) == ScanRfid(s.all, rfid)
  }

  lemma CreateKeeps(s: Index, r: Request)
    requires ColoursIndexed(s) && RfidsIndexed(s)
    ensures ColoursIndexed(Create(s, r)) && RfidsIndexed(Create(s, r))
  {
    var t := Create(s, r);
    if Accepted(s, r) {
      assert t.all[..|s.all|] == s.all;
      forall rfid ensures Find(t.byRfid, rfid) == ScanRfid(t.all, rfid) {
        assert Find(s.byRfid, rfid) == ScanRfid(s.all, rfid);
      }
    }
  }

  /**
   After any sequence of creations the RFID index finds the first item created with the
   RFID, and the colour index the one item of the colour; each finds nothing when there
   is none, and no item is ever found under NO_COLOUR.
   */
  lemma {:induction false} IndexesAgreeWithScans(requests: seq<Request>, rfid: string, colour: int)
    ensures var s := CreateAll(requests);
            && ColoursIndexed(s) && RfidsIndexed(s)
            && Find(s.byRfid, rfid) == ScanRfid(s.all, rfid)
            && (match Find(s.byColour, colour)
                case Some(i) =>
                  i < |s.all| && forall j | 0 <= j < |s.all| :: s.all[j].colour == colour <==> j == i
                case None => colour == NO_COLOUR || forall j | 0 <= j < |s.all| :: s.all[j].colour != colour)
            && NO_COLOUR !in s.byColour
  {
    if requests != [] {
      IndexesAgreeWithScans(requests[..|requests| - 1], rfid, colour);
      CreateKeeps(CreateAll(requests[..|requests| - 1]), requests[|requests| - 1]);
    }
  }

  // ----- Which requests make items

  /** A flag to be found by its colour. */
  predicate AsksByColour(r: Request) {
    r.kind == "flag" && r.rfids == {} && r.colour != -1
  }

  /** A flag to be found by its RFIDs. */
  predicate AsksByRfids(r: Request) {
    r.kind == "flag" && r.rfids != {} && r.colour == -1
  }

  /** Every flag with RFIDs makes an item, and the first flag of each colour. */
  ghost predicate MakesItem(requests: seq<Request>, k: nat)
    requires k < |requests|
  {
    || AsksByRfids(requests[k])
    || (AsksByColour(requests[k])
        && forall j | 0 <= j < k && AsksByColour(requests[j]) :: requests[j].colour != requests[k].colour)
  }

  /** The places of the requests that make items, in order. */
  ghost function Makers(requests: seq<Request>): (places: seq<nat>)
    ensures forall m | 0 <= m < |places| :: places[m] < |requests|
    ensures forall k :: k in places <==> 0 <= k < |requests| && MakesItem(requests, k)
    ensures forall m, n | 0 <= m < n < |places| :: places[m] < places[n]
  {
    if requests == [] then []
    else
      var n := |requests| - 1;
      var most := Makers(requests[..n]);
      assert forall k | 0 <= k < n :: MakesItem(requests[..n], k) <==> MakesItem(requests, k);
      if MakesItem(requests, n) then most + [n] else most
  }

  /** The list and the indexes, from the requests alone. */
  ghost predicate FromRequests(s: Index, requests: seq<Request>) {
    && |s.all| == |Makers(requests)|
    && (forall n | 0 <= n < |s.all| ::
          && s.all[n].rfids == requests[Makers(requests)[n]].rfids
          && s.all[n].colour == requests[Makers(requests)[n]].colour)
    && (forall c :: c in s.byColour <==> ColourAsked(requests, c))
    && (forall rfid :: rfid in s.byRfid <==> RfidAsked(requests, rfid))
  }

  ghost predicate ColourAsked(requests: seq<Request>, colour: int) {
    exists k :: 0 <= k < |requests| && AsksByColour(requests[k]) && requests[k].colour == colour
  }

  ghost predicate RfidAsked(requests: seq<Request>, rfid: string) {
    exists k :: 0 <= k < |requests| && AsksByRfids(requests[k]) && rfid in requests[k].rfids
  }

  lemma AskedNext(requests: seq<Request>, colour: int, rfid: string)
    requires requests != []
    ensures var n := |requests| - 1;
            && (ColourAsked(requests, colour) <==>
                  ColourAsked(requests[..n], colour) || (AsksByColour(requests[n]) && requests[n].colour == colour))
            && (RfidAsked(requests, rfid) <==>
                  RfidAsked(requests[..n], rfid) || (AsksByRfids(requests[n]) && rfid in requests[n].rfids))
  {
    var n := |requests| - 1;
    if ColourAsked(requests[..n], colour) {
      var k :| 0 <= k < n && AsksByColour(requests[..n][k]) && requests[..n][k].colour == colour;
      assert requests[k] == requests[..n][k];
    }
    if RfidAsked(requests[..n], rfid) {
      var k :| 0 <= k < n && AsksByRfids(requests[..n][k]) && rfid in requests[..n][k].rfids;
      assert requests[k] == requests[..n][k];
    }
    if ColourAsked(requests, colour) {
      var k :| 0 <= k < |requests| && AsksByColour(requests[k]) && requests[k].colour == colour;
      assert k < n ==> requests[..n][k] == requests[k];
    }
    if RfidAsked(requests, rfid) {
      var k :| 0 <= k < |requests| && AsksByRfids(requests[k]) && rfid in requests[k].rfids;
      assert k < n ==> requests[..n][k] == requests[k];
    }
  }

  lemma LastMakes(requests: seq<Request>)
    requires requests != []
    ensures var n := |requests| - 1;
            MakesItem(requests, n) <==>
              AsksByRfids(requests[n]) || (AsksByColour(requests[n]) && !ColourAsked(requests[..n], requests[n].colour))
  {
    var n := |requests| - 1;
    if ColourAsked(requests[..n], requests[n].colour) {
      var k :| 0 <= k < n && AsksByColour(requests[..n][k]) && requests[..n][k].colour == requests[n].colour;
      assert requests[k] == requests[..n][k];
    }
    forall j | 0 <= j < n && AsksByColour(requests[j]) && requests[j].colour == requests[n].colour
      ensures ColourAsked(requests[..n], requests[n].colour)
    {
      assert requests[..n][j] == requests[j];
    }
  }

  lemma CreateNext(s: Index, requests: seq<Request>)
    requires requests != [] && FromRequests(s, requests[..|requests| - 1])
    ensures FromRequests(Create(s, requests[|requests| - 1]), requests)
  {
    hide MakesItem, ColourAsked, RfidAsked;
    var n := |requests| - 1;
    var t := Create(s, requests[n]);
    LastMakes(requests);
    MakersNext(requests);
    forall c ensures c in t.byColour <==> ColourAsked(requests, c) {
      AskedNext(requests, c, "");
    }
    forall rfid ensures rfid in t.byRfid <==> RfidAsked(requests, rfid) {
      AskedNext(requests, 0, rfid);
    }
    var places := Makers(requests[..n]);
    forall k | 0 <= k < |places| ensures places[k] < n && requests[..n][places[k]] == requests[places[k]] {
      assert places[k] in places;
    }
  }

  lemma MakersNext(requests: seq<Request>)
    requires requests != []
    ensures var n := |requests| - 1;
            Makers(requests) == Makers(requests[..n]) + if MakesItem(requests, n) then [n] else []
  {
  }

  /**
   Whatever is requested: the list holds, in order, every flag with RFIDs and no colour and
   the first flag of each colour without RFIDs; a colour is indexed if and only if a flag
   without RFIDs asked for it, an RFID if and only if a flag without colour did.
   */
  lemma {:induction false} ItemsAreWhatWasAsked(requests: seq<Request>)
    ensures FromRequests(CreateAll(requests), requests)
  {
    hide FromRequests, Create;
    if requests == [] {
      NothingAsked();
    } else {
      ItemsAreWhatWasAsked(requests[..|requests| - 1]);
      CreateNext(CreateAll(requests[..|requests| - 1]), requests);
    }
  }

  lemma NothingAsked()
    ensures FromRequests(CreateAll([]), [])
  {
  }
}
