/** The stand-alone timer. */
module Clock {
  import Round

  datatype ClockState = ClockState(duration: int, running: bool, time: int, startTime: int)

  function Started(c: ClockState, now: int): ClockState {
    if c.running then c else c.(running := true, time := now, startTime := now)
  }

  function Ticked(c: ClockState, now: int): ClockState {
    if !c.running then c
    else c.(time := now, running := now - c.startTime < c.duration)
  }

  function ClockSecondsLeft(c: ClockState): nat {
    (if c.running then Round.TotalSeconds(c.duration) + Round.TotalSeconds(c.startTime - c.time)
     else Round.TotalSeconds(c.duration)) % Round.U64
  }

  /** A running clock is not started again. */
  lemma Starting(c: ClockState, now: int)
    ensures Started(c, now).running && Started(c, now).duration == c.duration
    ensures if c.running then Started(c, now) == c else Started(c, now).time == Started(c, now).startTime == now
  {
  }

  /** A tick reads the time and stops the clock once its duration has passed. */
  lemma Ticking(c: ClockState, now: int)
    ensures var r := Ticked(c, now);
            && (r.running <==> c.running && now < c.startTime + c.duration)
            && r == c.(running := r.running, time := if c.running then now else c.time)
  {
  }

  /** A clock that does not run has all its time left; one that runs, what has not passed. */
  lemma Remaining(c: ClockState)
    ensures 0 <= c.duration < 1_000_000 * 4_294_967_296 && !c.running ==>
              0 <= c.duration - 1_000_000 * ClockSecondsLeft(c) < 1_000_000
    ensures (forall k: nat | k <= 4_294_967_296 && c.running && c.duration == 1_000_000 * k
                             && c.startTime <= c.time < c.startTime + c.duration ::
               1_000_000 * ClockSecondsLeft(c) - 1_000_000 < c.startTime + c.duration - c.time
               <= 1_000_000 * ClockSecondsLeft(c))
  {
  }

  class Clock {
    var duration: int
    var isRunning: bool
    var time: int
    var startTime: int

    function View(): ClockState
      reads this
    {
      ClockState(duration, isRunning, time, startTime)
    }

    /** The times are unset until the clock starts, and nothing reads them before. */
    constructor (duration: int)
      ensures View().duration == duration && !View().running
    {
      this.duration := duration;
      isRunning := false;
    }

    method GetSecondsLeft() returns (seconds: nat)
      ensures seconds == ClockSecondsLeft(View())
    {
      var left := Round.TotalSeconds(duration);
      if isRunning {
        left := left + Round.TotalSeconds(startTime - time);
      }
      seconds := left % Round.U64;
    }

    method Start(now: int)
      modifies this
      ensures View() == Started(old(View()), now)
    {
      if isRunning {
        return;
      }
      isRunning := true;
      time := now;
      startTime := time;
    }

    method Stop()
      modifies this
      ensures View() == old(View()).(running := false)
    {
      if !isRunning {
        return;
      }
      isRunning := false;
    }

    method TickDelta(delta: int)
      modifies this
      ensures View() == Ticked(old(View()), old(time) + delta)
    {
      if isRunning {
        TickInternal(time + delta);
      }
    }

    method Tick(now: int)
      modifies this
      ensures View() == Ticked(old(View()), now)
    {
      if isRunning {
        TickInternal(now);
      }
    }

    method TickInternal(newTime: int)
      requires isRunning
      modifies this
      ensures View() == Ticked(old(View()), newTime)
    {
      time := newTime;
      CheckReachedDuration();
    }

    method CheckReachedDuration()
      requires isRunning
      modifies `isRunning
      ensures isRunning <==> time - startTime < duration
    {
      if time - startTime >= duration {
        isRunning := false;
      }
    }
  }
}
