/** The wire format: routing id, type and payload, separated by the first two spaces. */
module Framing {

  datatype RawMessage = RawMessage(routingId: string, kind: string, payload: string)

  const SPACE := ' '

  predicate SpaceFree(s: string) {
    SPACE !in s
  }

  function Printed(m: RawMessage): string {
    m.routingId + [SPACE] + m.kind + [SPACE] + m.payload
  }

  /** The place of the first space at or after a position, or the length if there is none. */
  function Find(s: string, from: nat): (k: nat)
    requires from <= |s|
    ensures from <= k <= |s| && SpaceFree(s[from..k]) && (k < |s| ==> s[k] == SPACE)
    decreases |s| - from
  {
    if from == |s| || s[from] == SPACE then from
    else
      var k := Find(s, from + 1);
      assert s[from..k] == [s[from]] + s[from + 1..k];
      k
  }

  function Parsed(s: string): RawMessage {
    var endId := Find(s, 0);
    if endId == |s| then RawMessage("", "", "")
    else
      var endKind := Find(s, endId + 1);
      if endKind == |s| then RawMessage(s[..endId], "", "")
      else RawMessage(s[..endId], s[endId + 1..endKind], s[endKind + 1..])
  }

  function Spaces(s: string): nat {
    if s == [] then 0 else Spaces(s[1..]) + if s[0] == SPACE then 1 else 0
  }

  // ----- Lemmas

  /** The frame in full: what separates the parts is a space each. */
  lemma PrintedIs(m: RawMessage)
    ensures Printed(m) == m.routingId + " " + m.kind + " " + m.payload
  {
  }

  lemma {:induction false} FindIs(s: string, from: nat, k: nat)
    requires from <= k <= |s| && SpaceFree(s[from..k]) && (k < |s| ==> s[k] == SPACE)
    ensures Find(s, from) == k
    decreases k - from
  {
    if from < k {
      assert s[from..k] == [s[from]] + s[from + 1..k];
      FindIs(s, from + 1, k);
    }
  }

  lemma {:induction false} SpacesOfJoin(a: string, b: string)
    ensures Spaces(a + b) == Spaces(a) + Spaces(b)
  {
    if a == [] {
      assert a + b == b;
    } else {
      assert (a + b)[1..] == a[1..] + b;
      SpacesOfJoin(a[1..], b);
    }
  }

  lemma {:induction false} NoSpaces(s: string)
    ensures Spaces(s) == 0 <==> SpaceFree(s)
  {
    if s != [] {
      NoSpaces(s[1..]);
      assert s == [s[0]] + s[1..];
    }
  }

  /** Neither a parsed routing id nor a parsed type holds a space. */
  lemma ParsedIsSpaceFree(s: string)
    ensures SpaceFree(Parsed(s).routingId) && SpaceFree(Parsed(s).kind)
  {
    var endId := Find(s, 0);
    assert s[0..endId] == s[..endId];
  }

  /** A message survives the wire exactly when its id and its type hold no space. */
  lemma ParseOfPrint(m: RawMessage)
    ensures Parsed(Printed(m)) == m <==> SpaceFree(m.routingId) && SpaceFree(m.kind)
  {
    var s := Printed(m);
    ParsedIsSpaceFree(s);
    if SpaceFree(m.routingId) && SpaceFree(m.kind) {
      var endId := |m.routingId|;
      var endKind := endId + 1 + |m.kind|;
      assert s[0..endId] == m.routingId;
      assert s[endId + 1..endKind] == m.kind;
      assert s[endKind + 1..] == m.payload;
      FindIs(s, 0, endId);
      FindIs(s, endId + 1, endKind);
    }
  }

  lemma Cut(s: string, from: nat, k: nat)
    requires from <= k < |s| && SpaceFree(s[from..k]) && s[k] == SPACE
    ensures Spaces(s[from..]) == 1 + Spaces(s[k + 1..])
  {
    var before, after := s[from..k], s[k + 1..];
    assert s[from..] == before + ([SPACE] + after);
    SpacesOfJoin(before, [SPACE] + after);
    NoSpaces(before);
    assert ([SPACE] + after)[1..] == after;
  }

  lemma Tail(s: string, from: nat)
    requires from <= |s|
    ensures Find(s, from) == |s| <==> Spaces(s[from..]) == 0
    ensures Find(s, from) < |s| ==> Spaces(s[from..]) == 1 + Spaces(s[Find(s, from) + 1..])
  {
    var k := Find(s, from);
    if k < |s| {
      Cut(s, from, k);
    } else {
      assert s[from..k] == s[from..];
      NoSpaces(s[from..]);
    }
  }

  lemma TwoCuts(s: string, i: nat, j: nat)
    requires i < j < |s| && s[i] == s[j] == SPACE
    ensures s[..i] + [SPACE] + s[i + 1..j] + [SPACE] + s[j + 1..] == s
    ensures s[..i] + [SPACE] <= s
  {
    assert s[..i] + [SPACE] == s[..i + 1];
    assert s[..i + 1] + s[i + 1..j] == s[..j];
    assert s[..j] + [SPACE] == s[..j + 1];
  }

  lemma OneCut(s: string, i: nat)
    requires i < |s| && s[i] == SPACE
    ensures s[..i] + [SPACE] <= s
  {
    assert s[..i] + [SPACE] == s[..i + 1];
  }

  /** What a frame is parsed to, by the number of its spaces. */
  lemma ParsedBySpaces(s: string)
    ensures Spaces(s) == 0 ==> Parsed(s) == RawMessage("", "", "")
    ensures Spaces(s) == 1 ==> Parsed(s).kind == "" && Parsed(s).payload == "" && Parsed(s).routingId + [SPACE] <= s
    ensures Spaces(s) >= 2 ==> Printed(Parsed(s)) == s
  {
    hide Find, Spaces;
    assert s[0..] == s;
    var endId := Find(s, 0);
    Tail(s, 0);
    if endId < |s| {
      Tail(s, endId + 1);
      var endKind := Find(s, endId + 1);
      if endKind < |s| {
        TwoCuts(s, endId, endKind);
        assert Printed(RawMessage(s[..endId], s[endId + 1..endKind], s[endKind + 1..])) == s;
      } else {
        OneCut(s, endId);
      }
    }
  }

  /** Printing a parsed frame gives the frame back exactly when it holds two spaces. */
  lemma PrintOfParse(s: string)
    ensures Printed(Parsed(s)) == s <==> Spaces(s) >= 2
  {
    ParsedBySpaces(s);
    PrintedHasTwoSpaces(Parsed(s));
  }

  lemma PrintedHasTwoSpaces(m: RawMessage)
    ensures Spaces(Printed(m)) >= 2
  {
    var one := [SPACE];
    SpacesOfJoin(m.routingId + one + m.kind + one, m.payload);
    SpacesOfJoin(m.routingId + one + m.kind, one);
    SpacesOfJoin(m.routingId + one, m.kind);
    SpacesOfJoin(m.routingId, one);
  }

  /** No two sendable messages share a frame. */
  lemma FramesAreDistinct(m: RawMessage, m': RawMessage)
    requires SpaceFree(m.routingId) && SpaceFree(m.kind) && SpaceFree(m'.routingId) && SpaceFree(m'.kind)
    requires Printed(m) == Printed(m')
    ensures m == m'
  {
    ParseOfPrint(m);
    ParseOfPrint(m');
  }

  // ----- The socket

  class Socket {
    var sent: seq<string>
    var incoming: seq<string>

    constructor ()
      ensures sent == [] && incoming == []
    {
      sent, incoming := [], [];
    }

    method SendString(message: string)
      modifies `sent
      ensures sent == old(sent) + [message]
    {
      sent := sent + [message];
    }

    method Send(m: RawMessage)
      modifies `sent
      ensures sent == old(sent) + [Printed(m)]
    {
      var message := "";
      message := message + m.routingId;
      message := message + [SPACE];
      message := message + m.kind;
      message := message + [SPACE];
      message := message + m.payload;
      assert "" + m.routingId == m.routingId;
      SendString(message);
    }

    method ReceiveString() returns (received: bool, message: string)
      modifies `incoming
      ensures received <==> old(incoming) != []
      ensures received ==> message == old(incoming)[0] && incoming == old(incoming)[1..]
      ensures !received ==> message == "" && incoming == old(incoming)
    {
      received, message := false, "";
      if incoming != [] {
        received, message := true, incoming[0];
        incoming := incoming[1..];
      }
    }

    method Receive() returns (received: bool, m: RawMessage)
      modifies `incoming
      ensures received <==> old(incoming) != []
      ensures received ==> m == Parsed(old(incoming)[0]) && incoming == old(incoming)[1..]
      ensures !received ==> incoming == old(incoming)
    {
      var routingId, kind, payload := "", "", "";
      var data;
      received, data := ReceiveString();
      if received {
        var endId := Find(data, 0);
        if endId < |data| {
          routingId := data[..endId];
          var endKind := Find(data, endId + 1);
          if endKind < |data| {
            kind := data[endId + 1..endKind];
            payload := data[endKind + 1..];
          }
        }
      }
      m := RawMessage(routingId, kind, payload);
    }
  }
}
