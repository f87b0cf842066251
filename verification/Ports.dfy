/** The video ports: read from a range, kept in a pool, handed out two to a robot. */
module Ports {
  import R = Round

  /** begin, ..., end - 1, highest first. */
  function Descending(begin: nat, end: nat): (ports: seq<nat>)
    requires begin <= end
    ensures |ports| == end - begin
    ensures forall k | 0 <= k < |ports| :: ports[k] == end - 1 - k
  {
    seq(end - begin, k requires 0 <= k < end - begin => end - 1 - k)
  }

  /** The loop variable after n increments. */
  function Counter(begin: nat, n: nat): nat {
    (begin + n) % R.U16
  }

  /** Counting up to the highest port never passes it: the range must end below. */
  lemma CountingEnds(begin: nat, end: nat)
    requires begin <= end < R.U16
    ensures (exists n: nat :: Counter(begin, n) > end) <==> end < R.U16 - 1
  {
    if end < R.U16 - 1 {
      assert Counter(begin, end + 1 - begin) == end + 1;
    }
  }

  /** An end of zero, or a missing one, means a range of one port. */
  function LastPort(begin: nat, end: nat): nat {
    if end == 0 then begin else end
  }

  /** One port if no end is given, or zero. */
  lemma LastPortIs(begin: nat, end: nat)
    ensures LastPort(begin, 0) == begin
    ensures end > 0 ==> LastPort(begin, end) == end
  {
  }

  /** An inverted range is refused; the loop over one that ends at the highest port never ends. */
  datatype PortRange = Range(ports: seq<nat>) | Refused | Endless

  method ReadPorts(begin: nat, end: nat) returns (r: PortRange)
    requires begin < R.U16 && end < R.U16
    ensures var last := LastPort(begin, end);
            r == if begin > last then Refused
                 else if last == R.U16 - 1 then Endless
                 else Range(Descending(begin, last + 1))
  {
    var last := end;
    var ports := [];
    if last == 0 {
      last := begin;
    }
    if begin > last {
      return Refused;
    }
    if last == R.U16 - 1 {
      return Endless;
    }
    var i := begin;
    while i <= last
      invariant begin <= i <= last + 1
      invariant ports == Descending(begin, i)
    {
      ports := [i] + ports;
      i := (i + 1) % R.U16;
    }
    r := Range(ports);
  }

  /** Every robot needs two ports. */
  predicate EnoughPorts(ports: seq<nat>, robots: nat) {
    |ports| >= 2 * robots
  }

  // ----- The pool

  datatype Pool = Pool(available: seq<nat>, taken: seq<nat>)

  /** The port that is handed out; zero when there is none left. */
  function Next(p: Pool): nat {
    if p.available == [] then 0 else p.available[|p.available| - 1]
  }

  function Popped(p: Pool): Pool {
    if p.available == [] then p
    else Pool(p.available[..|p.available| - 1], p.taken + [Next(p)])
  }

  function PoppedTimes(p: Pool, n: nat): Pool {
    if n == 0 then p else Popped(PoppedTimes(p, n - 1))
  }

  /** The n-th port handed out. */
  function Handed(p: Pool, n: nat): nat {
    Next(PoppedTimes(p, n))
  }

  function Reversed(s: seq<nat>): seq<nat> {
    if s == [] then [] else [s[|s| - 1]] + Reversed(s[..|s| - 1])
  }

  lemma PopLosesNothing(p: Pool)
    ensures var r := Popped(p);
            && r.available + Reversed(r.taken) == p.available + Reversed(p.taken)
            && multiset(r.available) + multiset(r.taken) == multiset(p.available) + multiset(p.taken)
  {
    if p.available != [] {
      var most, port := p.available[..|p.available| - 1], Next(p);
      assert p.available == most + [port];
      assert (p.taken + [port])[..|p.taken|] == p.taken;
      assert p.available + Reversed(p.taken) == most + ([port] + Reversed(p.taken));
    }
  }

  /** Available ports and, backwards, taken ones always make up the same list. */
  lemma {:induction false} NoPortIsLost(p: Pool, n: nat)
    ensures var r := PoppedTimes(p, n);
            && r.available + Reversed(r.taken) == p.available + Reversed(p.taken)
            && multiset(r.available) + multiset(r.taken) == multiset(p.available) + multiset(p.taken)
  {
    hide Popped, Reversed;
    if n > 0 {
      NoPortIsLost(p, n - 1);
      PopLosesNothing(PoppedTimes(p, n - 1));
    }
  }

  /** Ports are handed out from the back of the list, then zeros. */
  lemma {:induction false} HandedFromTheBack(p: Pool, n: nat)
    ensures PoppedTimes(p, n).available == p.available[..if n <= |p.available| then |p.available| - n else 0]
    ensures Handed(p, n) == if n < |p.available| then p.available[|p.available| - 1 - n] else 0
  {
    if n > 0 {
      HandedFromTheBack(p, n - 1);
    }
  }

  datatype RobotPorts = RobotPorts(video: nat, command: nat)

  /** The two calls for one robot are arguments of one call: either may come first. */
  ghost predicate Assigned(p: Pool, k: nat, ports: RobotPorts) {
    || ports == RobotPorts(Handed(p, 2 * k), Handed(p, 2 * k + 1))
    || ports == RobotPorts(Handed(p, 2 * k + 1), Handed(p, 2 * k))
  }

  function PortOf(given: seq<RobotPorts>, n: nat): nat
    requires n < 2 * |given|
  {
    if n % 2 == 0 then given[n / 2].video else given[n / 2].command
  }

  /**
   With a range that passes the size check the robots get its lowest ports, two each and
   in order; no two of them are equal, and none is zero exactly when the range does not
   begin there.
   */
  lemma EveryRobotGetsTwoPorts(begin: nat, end: nat, given: seq<RobotPorts>)
    requires begin <= end && EnoughPorts(Descending(begin, end), |given|)
    requires forall k | 0 <= k < |given| :: Assigned(Pool(Descending(begin, end), []), k, given[k])
    ensures forall k | 0 <= k < |given| ::
              {given[k].video, given[k].command} == {begin + 2 * k, begin + 2 * k + 1}
    ensures forall m, n | 0 <= m < n < 2 * |given| :: PortOf(given, m) != PortOf(given, n)
    ensures (forall n | 0 <= n < 2 * |given| :: PortOf(given, n) != 0) <==> begin > 0 || given == []
  {
    var p := Pool(Descending(begin, end), []);
    forall k | 0 <= k < |given|
      ensures {given[k].video, given[k].command} == {begin + 2 * k, begin + 2 * k + 1}
      ensures given[k].video != given[k].command
    {
      assert Assigned(p, k, given[k]);
      HandedFromTheBack(p, 2 * k);
      HandedFromTheBack(p, 2 * k + 1);
    }
    forall n | 0 <= n < 2 * |given| ensures begin <= PortOf(given, n) && (PortOf(given, n) - begin) / 2 == n / 2 {
      assert PortOf(given, n) in {given[n / 2].video, given[n / 2].command};
    }
    if given != [] && begin == 0 {
      assert PortOf(given, 0) == given[0].video && PortOf(given, 1) == given[0].command;
      assert 0 in {given[0].video, given[0].command};
    }
  }

  /** Past the end of the pool a robot gets port zero, which the size check rules out. */
  lemma WithoutEnoughPorts(p: Pool, robots: nat)
    requires forall port | port in p.available :: port != 0
    ensures (forall n | 0 <= n < 2 * robots :: Handed(p, n) != 0) <==> EnoughPorts(p.available, robots)
  {
    forall n | 0 <= n < 2 * robots ensures Handed(p, n) != 0 <==> n < |p.available| {
      HandedFromTheBack(p, n);
      assert n < |p.available| ==> p.available[|p.available| - 1 - n] in p.available;
    }
    if !EnoughPorts(p.available, robots) {
      assert Handed(p, |p.available|) == 0;
    }
  }

  class Application {
    var availablePorts: seq<nat>
    var takenPorts: seq<nat>

    constructor ()
      ensures View() == Pool([], [])
    {
      availablePorts, takenPorts := [], [];
    }

    ghost function View(): Pool
      reads this
    {
      Pool(availablePorts, takenPorts)
    }

    method PopPort() returns (port: nat)
      modifies this
      ensures View() == Popped(old(View())) && port == Next(old(View()))
    {
      if availablePorts != [] {
        port := availablePorts[|availablePorts| - 1];
        availablePorts := availablePorts[..|availablePorts| - 1];
        takenPorts := takenPorts + [port];
      } else {
        port := 0;
      }
    }

    /** The part of initServer that gives the robots their ports. */
    method InitRobots(videoPorts: seq<nat>, robots: nat, commandFirst: nat -> bool) returns (given: seq<RobotPorts>)
      modifies this
      ensures |given| == robots
      ensures var p := Pool(videoPorts, old(takenPorts));
              View() == PoppedTimes(p, 2 * robots) && forall k | 0 <= k < robots :: Assigned(p, k, given[k])
    {
      availablePorts := videoPorts;
      ghost var p := View();
      given := [];
      for k := 0 to robots
        invariant |given| == k && View() == PoppedTimes(p, 2 * k)
        invariant forall j | 0 <= j < k :: Assigned(p, j, given[j])
      {
        var first := PopPort();
        var second := PopPort();
        assert PoppedTimes(p, 2 * k + 1) == Popped(PoppedTimes(p, 2 * k));
        assert PoppedTimes(p, 2 * k + 2) == Popped(PoppedTimes(p, 2 * k + 1));
        var ports := if commandFirst(k) then RobotPorts(second, first) else RobotPorts(first, second);
        assert Assigned(p, k, ports);
        given := given + [ports];
      }
    }
  }
}
