/**
 The server's two incoming channels. Each call tries them in an order that the call itself
 permutes, so neither channel can keep the other waiting.
 */
module Channels {
  import opened Options

  datatype Channel = PUBLISH | REPLY

  function Other(c: Channel): Channel {
    if c == PUBLISH then REPLY else PUBLISH
  }

  /** Who is tried first, and what is waiting on each channel, the oldest first. */
  datatype State<M> = State(first: Channel, publish: seq<M>, reply: seq<M>)

  datatype Taken<M> = Taken(channel: Channel, message: M)

  /** What happens to the channels: a message arrives on one, or the server makes a call. */
  datatype Input<M> = Arrive(channel: Channel, message: M) | Call

  function Waiting<M>(s: State<M>, c: Channel): seq<M> {
    if c == PUBLISH then s.publish else s.reply
  }

  function WithWaiting<M>(s: State<M>, c: Channel, messages: seq<M>): State<M> {
    if c == PUBLISH then s.(publish := messages) else s.(reply := messages)
  }

  /** The first channel in order with a message waiting. */
  function Picked<M>(s: State<M>): Option<Channel> {
    if Waiting(s, s.first) != [] then Some(s.first)
    else if Waiting(s, Other(s.first)) != [] then Some(Other(s.first))
    else None
  }

  function TakenBy<M>(s: State<M>): Option<Taken<M>> {
    match Picked(s)
    case Some(c) => Some(Taken(c, Waiting(s, c)[0]))
    case None => None
  }

  /** The message has left its queue. */
  function AfterTaking<M>(s: State<M>): State<M> {
    match Picked(s)
    case Some(c) => WithWaiting(s, c, Waiting(s, c)[1..])
    case None => s
  }

  /** The order is permuted once the message has been processed. */
  function AfterCall<M>(s: State<M>): State<M> {
    AfterTaking(s).(first := Other(s.first))
  }

  function Step<M>(s: State<M>, input: Input<M>): State<M> {
    match input
    case Arrive(c, message) => WithWaiting(s, c, Waiting(s, c) + [message])
    case Call => AfterCall(s)
  }

  function Run<M>(s: State<M>, inputs: seq<Input<M>>): State<M> {
    if inputs == [] then s
    else Step(Run(s, inputs[..|inputs| - 1]), inputs[|inputs| - 1])
  }

  lemma {:induction false} RunOfJoin<M>(s: State<M>, a: seq<Input<M>>, b: seq<Input<M>>)
    ensures Run(s, a + b) == Run(Run(s, a), b)
  {
    hide Step;
    if b == [] {
      assert a + b == a;
    } else {
      assert (a + b)[..|a + b| - 1] == a + b[..|b| - 1];
      RunOfJoin(s, a, b[..|b| - 1]);
    }
  }

  // ----- What a run has done

  function Calls<M>(inputs: seq<Input<M>>): nat {
    if inputs == [] then 0
    else Calls(inputs[..|inputs| - 1]) + if inputs[|inputs| - 1].Call? then 1 else 0
  }

  /** The messages that arrived on a channel, in order. */
  function Arrived<M>(inputs: seq<Input<M>>, c: Channel): seq<M> {
    if inputs == [] then []
    else
      var last := inputs[|inputs| - 1];
      Arrived(inputs[..|inputs| - 1], c) + if last.Arrive? && last.channel == c then [last.message] else []
  }

  /** The messages that calls took, in order, with their channels. */
  function Processed<M>(s: State<M>, inputs: seq<Input<M>>): seq<Taken<M>> {
    if inputs == [] then []
    else
      var most := inputs[..|inputs| - 1];
      var taken := if inputs[|inputs| - 1].Call? then TakenBy(Run(s, most)) else None;
      Processed(s, most) + if taken.Some? then [taken.value] else []
  }

  function OfChannel<M>(taken: seq<Taken<M>>, c: Channel): seq<M> {
    if taken == [] then []
    else
      var last := taken[|taken| - 1];
      OfChannel(taken[..|taken| - 1], c) + if last.channel == c then [last.message] else []
  }

  lemma OfChannelExtends<M>(taken: seq<Taken<M>>, last: Taken<M>, c: Channel)
    ensures OfChannel(taken + [last], c) == OfChannel(taken, c) + if last.channel == c then [last.message] else []
  {
    assert (taken + [last])[..|taken|] == taken;
  }

  /** What a step takes from one channel. */
  function Loses<M>(s: State<M>, input: Input<M>, c: Channel): seq<M> {
    if input.Call? && Picked(s) == Some(c) then [Waiting(s, c)[0]] else []
  }

  function Gains<M>(input: Input<M>, c: Channel): seq<M> {
    if input.Arrive? && input.channel == c then [input.message] else []
  }

  lemma WaitingAfter<M>(s: State<M>, c: Channel, messages: seq<M>, d: Channel, first: Channel)
    ensures Waiting(WithWaiting(s, c, messages), d) == if c == d then messages else Waiting(s, d)
    ensures Waiting(s.(first := first), d) == Waiting(s, d)
  {
  }

  lemma StepBalance<M>(s: State<M>, input: Input<M>, c: Channel)
    ensures Loses(s, input, c) + Waiting(Step(s, input), c) == Waiting(s, c) + Gains(input, c)
  {
    hide Waiting, WithWaiting, Picked;
    match input
    case Arrive(d, message) => WaitingAfter(s, d, Waiting(s, d) + [message], c, s.first);
    case Call =>
      WaitingAfter(AfterTaking(s), c, [], c, Other(s.first));
      PickedWaits(s);
      if Picked(s).Some? {
        var d := Picked(s).value;
        WaitingAfter(s, d, Waiting(s, d)[1..], c, s.first);
        assert [Waiting(s, d)[0]] + Waiting(s, d)[1..] == Waiting(s, d);
      }
  }

  lemma PickedWaits<M>(s: State<M>)
    ensures Picked(s).Some? ==> Waiting(s, Picked(s).value) != []
  {
  }

  lemma LastStep<M>(s: State<M>, inputs: seq<Input<M>>, c: Channel)
    requires inputs != []
    ensures var most, last := inputs[..|inputs| - 1], inputs[|inputs| - 1];
            && OfChannel(Processed(s, inputs), c) == OfChannel(Processed(s, most), c) + Loses(Run(s, most), last, c)
            && Arrived(inputs, c) == Arrived(most, c) + Gains(last, c)
  {
    hide Run;
    var most, last := inputs[..|inputs| - 1], inputs[|inputs| - 1];
    if last.Call? && TakenBy(Run(s, most)).Some? {
      OfChannelExtends(Processed(s, most), TakenBy(Run(s, most)).value, c);
    } else {
      assert Processed(s, inputs) == Processed(s, most);
    }
  }

  /** A call takes exactly one message if any is waiting, and none otherwise. */
  lemma CallTakesOne<M>(s: State<M>)
    ensures var r := AfterCall(s);
            var left := |s.publish| + |s.reply|;
            && |r.publish| + |r.reply| == (if left > 0 then left - 1 else 0)
            && (TakenBy(s).Some? <==> left > 0)
  {
  }

  /**
   Each channel is first in, first out, and loses nothing: what was processed followed by
   what is waiting is what was waiting at first followed by what has arrived.
   */
  lemma {:induction false} FirstInFirstOut<M>(s: State<M>, inputs: seq<Input<M>>, c: Channel)
    ensures OfChannel(Processed(s, inputs), c) + Waiting(Run(s, inputs), c) == Waiting(s, c) + Arrived(inputs, c)
  {
    hide Step, Loses, Gains, Waiting, OfChannel, Processed, Arrived;
    if inputs == [] {
      NothingYet(s, c);
    } else {
      var most, last := inputs[..|inputs| - 1], inputs[|inputs| - 1];
      FirstInFirstOut(s, most, c);
      LastStep(s, inputs, c);
      var before := Run(s, most);
      StepBalance(before, last, c);
      Regroup(OfChannel(Processed(s, most), c), Loses(before, last, c), Waiting(Step(before, last), c));
      Regroup(OfChannel(Processed(s, most), c), Waiting(before, c), Gains(last, c));
      Regroup(Waiting(s, c), Arrived(most, c), Gains(last, c));
    }
  }

  lemma Regroup<M>(a: seq<M>, b: seq<M>, c: seq<M>)
    ensures (a + b) + c == a + (b + c)
  {
  }

  lemma NothingYet<M>(s: State<M>, c: Channel)
    ensures OfChannel(Processed(s, []), c) == [] && Arrived<M>([], c) == []
  {
  }

  /** How many of n calls try the channel first. */
  function Turns<M>(s: State<M>, c: Channel, n: nat): nat {
    if s.first == c then (n + 1) / 2 else n / 2
  }

  lemma {:induction false} FirstAlternates<M>(s: State<M>, inputs: seq<Input<M>>)
    ensures Run(s, inputs).first == if Calls(inputs) % 2 == 0 then s.first else Other(s.first)
  {
    if inputs != [] {
      FirstAlternates(s, inputs[..|inputs| - 1]);
    }
  }

  /** Every turn of a channel takes one of the messages that were waiting, while there are any. */
  lemma {:induction false} TurnsAreUsed<M>(s: State<M>, inputs: seq<Input<M>>, c: Channel)
    ensures |OfChannel(Processed(s, inputs), c)| >= |Waiting(s, c)|
            || |OfChannel(Processed(s, inputs), c)| >= Turns(s, c, Calls(inputs))
  {
    hide Step, OfChannel, Processed, Arrived;
    if inputs == [] {
      NothingYet(s, c);
    } else {
      var most := inputs[..|inputs| - 1];
      TurnsAreUsed(s, most, c);
      FirstAlternates(s, most);
      FirstInFirstOut(s, most, c);
      LastStep(s, inputs, c);
    }
  }

  /**
   A message with k others before it is processed within 2(k + 1) calls, one fewer if its
   channel is tried first now, whatever arrives on either channel meanwhile; and it is the
   (k + 1)-th of its channel to be processed.
   */
  lemma ProcessedInTime<M>(s: State<M>, inputs: seq<Input<M>>, c: Channel, k: nat)
    requires k < |Waiting(s, c)|
    requires Calls(inputs) >= if s.first == c then 2 * k + 1 else 2 * k + 2
    ensures var done := OfChannel(Processed(s, inputs), c);
            k < |done| && done[k] == Waiting(s, c)[k]
  {
    TurnsAreUsed(s, inputs, c);
    FirstInFirstOut(s, inputs, c);
    var done := OfChannel(Processed(s, inputs), c);
    assert done[k] == (done + Waiting(Run(s, inputs), c))[k];
  }

  /** While both channels stay busy each gets its turns and no more, so the bound is tight. */
  lemma {:induction false} BusyChannelsShare<M>(s: State<M>, inputs: seq<Input<M>>, c: Channel)
    requires |s.publish| >= Calls(inputs) && |s.reply| >= Calls(inputs)
    ensures |OfChannel(Processed(s, inputs), c)| == Turns(s, c, Calls(inputs))
  {
    hide Step, OfChannel, Processed, Arrived;
    if inputs == [] {
      NothingYet(s, c);
    } else {
      var most := inputs[..|inputs| - 1];
      BusyChannelsShare(s, most, c);
      BusyChannelsShare(s, most, Other(c));
      FirstAlternates(s, most);
      FirstInFirstOut(s, most, c);
      FirstInFirstOut(s, most, Other(c));
      LastStep(s, inputs, c);
    }
  }

  // ----- The sockets and the order as the server keeps them

  class Inbox<M(0)> {
    const channels: array<Channel>
    var puller: seq<M>
    var replier: seq<M>

    constructor ()
      ensures Valid() && View() == State(PUBLISH, [], []) && fresh(channels)
    {
      channels := new Channel[2](i => if i == 0 then PUBLISH else REPLY);
      puller, replier := [], [];
    }

    ghost predicate Valid()
      reads channels
    {
      channels.Length == 2 && channels[1] == Other(channels[0])
    }

    ghost function View(): State<M>
      requires Valid()
      reads this, channels
    {
      State(channels[0], puller, replier)
    }

    method Arrives(c: Channel, message: M)
      requires Valid()
      modifies `puller, `replier
      ensures Valid() && View() == Step(old(View()), Arrive(c, message))
    {
      if c == PUBLISH {
        puller := puller + [message];
      } else {
        replier := replier + [message];
      }
    }

    method Receive(c: Channel) returns (message: Option<M>)
      requires Valid()
      modifies `puller, `replier
      ensures message.None? ==> Waiting(old(View()), c) == [] && View() == old(View())
      ensures message.Some? ==> Waiting(old(View()), c) != []
                                && message.value == Waiting(old(View()), c)[0]
                                && View() == WithWaiting(old(View()), c, Waiting(old(View()), c)[1..])
    {
      message := None;
      if c == PUBLISH {
        if puller != [] {
          message := Some(puller[0]);
          puller := puller[1..];
        }
      } else if replier != [] {
        message := Some(replier[0]);
        replier := replier[1..];
      }
    }

    /** std::next_permutation on the two channels. */
    method NextPermutation() returns (more: bool)
      requires Valid()
      modifies channels
      ensures Valid() && View() == old(View()).(first := Other(old(View()).first))
      ensures more <==> old(View()).first == PUBLISH
    {
      more := channels[0] == PUBLISH && channels[1] == REPLY;
      channels[0], channels[1] := channels[1], channels[0];
    }

    /** The message the call takes, to be handed to its callback before the order changes. */
    method TakeMessageIfAvailable() returns (taken: Option<Taken<M>>)
      requires Valid()
      modifies `puller, `replier
      ensures Valid() && View() == AfterTaking(old(View())) && taken == TakenBy(old(View()))
    {
      taken := None;
      var n := 0;
      ghost var s := View();
      while n < channels.Length && taken.None?
        invariant n <= 2 && Valid()
        invariant channels[0] == s.first
        invariant taken.None? ==> View() == s && forall i | 0 <= i < n :: Waiting(s, channels[i]) == []
        invariant taken.Some? ==> taken == TakenBy(s)
                                  && View() == WithWaiting(s, taken.value.channel, Waiting(s, taken.value.channel)[1..])
      {
        var message := Receive(channels[n]);
        if message.Some? {
          taken := Some(Taken(channels[n], message.value));
        }
        n := n + 1;
      }
    }
  }
}
