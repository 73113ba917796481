/**
 * One game clock (scoreboard/clock.go): a number (period or jam count,
 * published with `updateOn` 1) and a time in milliseconds (published in
 * whole seconds), a counting direction, and running and adjustable flags.
 */
module Clocks {
  import opened MinMax

  /** A clock as values: what `State()` reads from the objects. */
  datatype ClockState = ClockState(number: Bounds, time: Bounds, countdown: bool, running: bool, adjustable: bool)

  /** Where the time starts: its maximum when counting down, its minimum when counting up. */
  function StartBound(c: ClockState): int
  {
    if c.countdown then c.time.max else c.time.min
  }

  /** The clock newClock builds, before anything resets it. */
  function NewClock(numMin: int, numMax: int, timeMin: int, timeMax: int, countdown: bool, running: bool): (c: ClockState)
    ensures InRange(c.number) && InRange(c.time) && !c.adjustable
  {
    ClockState(Initial(numMin, numMax, numMin), Initial(timeMin, timeMax, if countdown then timeMax else timeMin),
      countdown, running, false)
  }

  /** A new clock with sensible bounds starts at its first number, with its time at the start bound. */
  lemma NewClockStarts(numMin: int, numMax: int, timeMin: int, timeMax: int, countdown: bool, running: bool)
    requires numMin <= numMax && timeMin <= timeMax
    ensures var c := NewClock(numMin, numMax, timeMin, timeMax, countdown, running);
      && c.number == Bounds(numMin, numMax, numMin)
      && c.time == Bounds(timeMin, timeMax, StartBound(c))
      && c.countdown == countdown && c.running == running
  {
    InitialBounds(numMin, numMax, numMin);
    InitialBounds(timeMin, timeMax, if countdown then timeMax else timeMin);
  }

  /**
   * reset(full, incNumber): a full reset puts the number back to its
   * minimum; with incNumber the number goes up by one when the time had
   * left its start bound; the time returns to its start bound and the
   * clock stops.
   */
  function AfterReset(c: ClockState, full: bool, incNumber: bool): (r: ClockState)
    ensures !r.running && r.countdown == c.countdown && r.adjustable == c.adjustable
    ensures r.time == WithNum(c.time, StartBound(c))
  {
    var n0 := if full then WithNum(c.number, c.number.min) else c.number;
    var n1 := if incNumber && c.time.num != StartBound(c) then WithNum(n0, n0.num + 1) else n0;
    c.(number := n1, time := WithNum(c.time, StartBound(c)), running := false)
  }

  /**
   * After a reset the time stands at its start bound and the clock is
   * stopped; the number is the old one (its minimum after a full reset),
   * plus one exactly when incNumber is set, the time had left its start
   * bound and the number was below its maximum.
   */
  lemma ResetRestarts(c: ClockState, full: bool, incNumber: bool)
    requires InRange(c.number) && InRange(c.time)
    ensures var r := AfterReset(c, full, incNumber);
      var base := if full then c.number.min else c.number.num;
      && r.time.num == StartBound(c) && !r.running
      && InRange(r.number) && r.number.min == c.number.min && r.number.max == c.number.max
      && (r.number.num == base + 1 <==> incNumber && c.time.num != StartBound(c) && base < c.number.max)
      && (r.number.num != base + 1 ==> r.number.num == base)
  {
  }

  /**
   * tick(d): the time moves by d in the counting direction; when that
   * reaches or passes the bound the time stops at the bound, the clock
   * stops and the tick reports expiry.
   */
  function AfterTick(c: ClockState, d: int): (r: (ClockState, bool))
    ensures r.0.number == c.number && r.0.countdown == c.countdown && r.0.adjustable == c.adjustable
    ensures r.1 ==> !r.0.running
    ensures !r.1 ==> r.0.running == c.running
  {
    var (t, moved) := Adjusted(c.time, c.countdown, d);
    (c.(time := t, running := if moved then c.running else false), !moved)
  }

  /**
   * For a tick of positive length on a clock in range: no expiry means
   * the time moved by exactly d in the counting direction and stayed
   * strictly inside its bounds; expiry means it stopped at the bound it
   * was heading for.
   */
  lemma TickMoves(c: ClockState, d: int)
    requires InRange(c.time) && d > 0
    ensures var (r, expired) := AfterTick(c, d);
      && InRange(r.time)
      && (!expired <==> if c.countdown then c.time.num - d > c.time.min else c.time.num + d < c.time.max)
      && (!expired ==> r.time.num == if c.countdown then c.time.num - d else c.time.num + d)
      && (expired ==> r.time.num == if c.countdown then c.time.min else c.time.max)
  {
  }

  /** A tick of length d on a clock that may be stopped: only a running clock moves. */
  function TickedBy(c: ClockState, d: int): ClockState
  {
    if c.running then AfterTick(c, d).0 else c
  }

  /** The time moved back by `offset`, outside the counter's own operations: no clamp. */
  function Shifted(c: ClockState, offset: int): ClockState
  {
    c.(time := c.time.(num := c.time.num - offset))
  }

  /** incTime: a second up, whatever the counting direction. */
  function AfterIncTime(c: ClockState): (r: ClockState)
    ensures r.time.num == (if c.time.num + 1000 < c.time.max then c.time.num + 1000 else c.time.max)
  {
    c.(time := Adjusted(c.time, false, 1000).0)
  }

  /** decTime: a second down, whatever the counting direction (adjust up by -1000). */
  function AfterDecTime(c: ClockState): (r: ClockState)
    ensures r.time.num == (if c.time.num - 1000 > c.time.min then c.time.num - 1000 else c.time.min)
  {
    c.(time := Adjusted(c.time, false, -1000).0)
  }

  /** Away from both bounds, decTime undoes incTime and incTime undoes decTime. */
  lemma IncDecInverse(c: ClockState)
    requires c.time.min + 1000 < c.time.num && c.time.num + 1000 < c.time.max
    ensures AfterDecTime(AfterIncTime(c)) == c && AfterIncTime(AfterDecTime(c)) == c
  {
  }

  /** A counter publishes what its bounds and direction say it should. */
  ghost predicate Published(m: MinMaxNumber)
    reads m
  {
    m.updateOn > 0 && m.shown == Display(m.Value(), m.updateOn, m.countdown)
  }

  class Clock {
    var name: string
    const number: MinMaxNumber
    const time: MinMaxNumber
    var countdown: bool
    var running: bool
    var adjustable: bool

    /** Two distinct counters, with the time following the clock's direction. */
    ghost predicate Valid()
      reads this, time
    {
      number != time && number.updateOn == 1 && time.updateOn == 1000 && time.countdown == countdown
    }

    function State(): ClockState
      reads this, number, time
    {
      ClockState(number.Value(), time.Value(), countdown, running, adjustable)
    }

    /** newClock */
    constructor(name: string, numMin: int, numMax: int, timeMin: int, timeMax: int, countdown: bool, running: bool)
      ensures Valid() && fresh(number) && fresh(time)
      ensures this.name == name && State() == NewClock(numMin, numMax, timeMin, timeMax, countdown, running)
      ensures Published(number) && Published(time)
    {
      this.name := name;
      number := new MinMaxNumber(false, numMin, numMax, numMin, 1);
      time := new MinMaxNumber(countdown, timeMin, timeMax, if countdown then timeMax else timeMin, 1000);
      this.countdown := countdown;
      this.running := running;
      this.adjustable := false;
      new;
      SetCountDown(countdown);
    }

    method SetName(name: string)
      modifies this
      ensures this.name == name && State() == old(State())
    {
      this.name := name;
    }

    /** setCountDown: the clock's direction and its time's rounding direction together. */
    method SetCountDown(countdown: bool)
      requires time.updateOn > 0
      modifies this, time
      ensures this.countdown == countdown && time.countdown == countdown && name == old(name)
      ensures State() == old(State()).(countdown := countdown)
      ensures Published(time)
    {
      this.countdown := countdown;
      time.SetCountDown(countdown);
    }

    method SetRunning(running: bool)
      modifies this
      ensures State() == old(State()).(running := running) && name == old(name)
    {
      this.running := running;
    }

    method Start()
      modifies this
      ensures State() == old(State()).(running := true) && name == old(name)
    {
      running := true;
    }

    method Stop()
      modifies this
      ensures State() == old(State()).(running := false) && name == old(name)
    {
      running := false;
    }

    method SetAdjustable(adjustable: bool)
      modifies this
      ensures State() == old(State()).(adjustable := adjustable) && name == old(name)
    {
      this.adjustable := adjustable;
    }

    /** reset */
    method Reset(full: bool, incNumber: bool)
      requires Valid()
      modifies this, number, time
      ensures Valid() && name == old(name)
      ensures State() == AfterReset(old(State()), full, incNumber)
      ensures Published(time) && (full || old(Published(number)) ==> Published(number))
    {
      ResetNumber(full, incNumber);
      if countdown {
        time.SetNum(time.max);
      } else {
        time.SetNum(time.min);
      }
      Stop();
    }

    /**
     * reset's number step: back to its minimum on a full reset, then one
     * up when asked to and the time has left its start bound.
     */
    method ResetNumber(full: bool, incNumber: bool)
      requires Valid()
      modifies number
      ensures Valid() && number.Value() == AfterReset(old(State()), full, incNumber).number
      ensures full || old(Published(number)) ==> Published(number)
    {
      if full {
        number.SetNum(number.min);
      }
      if incNumber && time.num != (if countdown then time.max else time.min) {
        number.IncNum();
      }
    }

    /** tick: returns whether the clock ran out (and so stopped). */
    method Tick(d: int) returns (expired: bool)
      requires Valid()
      modifies this, time
      ensures Valid() && name == old(name)
      ensures (State(), expired) == AfterTick(old(State()), d)
      ensures Published(time)
    {
      var moved := time.Adjust(countdown, d);
      if !moved {
        Stop();
        return true;
      }
      return false;
    }

    /** ticker's step for one clock: only a running clock ticks. */
    method TickIfRunning(d: int) returns (expired: bool)
      requires Valid()
      modifies this, time
      ensures Valid() && State() == TickedBy(old(State()), d)
      ensures expired == (old(running) && AfterTick(old(State()), d).1)
    {
      expired := false;
      if running {
        expired := Tick(d);
      }
    }

    /** triggerClockStart's direct write `c.time.num = c.time.num - offset`: neither clamped nor republished. */
    method ShiftTime(offset: int)
      requires Valid()
      modifies time
      ensures Valid() && State() == Shifted(old(State()), offset)
    {
      time.num := time.num - offset;
    }

    /** incTime: the `.Time.Num.Inc` command. */
    method IncTime()
      requires Valid()
      modifies time
      ensures Valid() && State() == AfterIncTime(old(State())) && Published(time)
    {
      var _ := time.Adjust(false, time.updateOn);
    }

    /** decTime: the `.Time.Num.Dec` command. */
    method DecTime()
      requires Valid()
      modifies time
      ensures Valid() && State() == AfterDecTime(old(State())) && Published(time)
    {
      var _ := time.Adjust(false, -time.updateOn);
    }
  }
}
