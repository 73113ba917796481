/**
 * The master clock (scoreboard/master_clock.go): the five game clocks, the
 * time the game's tick count started from, and the tick count. Times are
 * `Time` values in nanoseconds; clock times are milliseconds. One tick is
 * 100 ms. The ticker goroutine's sleeping is not modelled: the game's
 * Ticker method (module Scoreboards) performs one wake of it, with the current
 * time as a parameter.
 */
module MasterClocks {
  import opened GoBase
  import opened GoStrconv
  import opened MinMax
  import opened Clocks

  /** The keys of mc.clocks. */
  datatype ClockId = Period | Jam | Lineup | Timeout | Intermission

  const AllIds := [Period, Jam, Lineup, Timeout, Intermission]

  function IdName(id: ClockId): string
  {
    match id
    case Period => "Period"
    case Jam => "Jam"
    case Lineup => "Lineup"
    case Timeout => "Timeout"
    case Intermission => "Intermission"
  }

  /** The lookup `mc.clocks[id]`: which clock, if any, a name denotes. */
  function ParseId(name: string): (r: Option<ClockId>)
    ensures r.Some? ==> IdName(r.value) == name
  {
    if name == "Period" then Some(Period)
    else if name == "Jam" then Some(Jam)
    else if name == "Lineup" then Some(Lineup)
    else if name == "Timeout" then Some(Timeout)
    else if name == "Intermission" then Some(Intermission)
    else None
  }

  /** Every clock is found by its own name. */
  lemma ParseIdName(id: ClockId)
    ensures ParseId(IdName(id)) == Some(id)
  {
    match id
    case Period =>
    case Jam =>
    case Lineup =>
    case Timeout =>
    case Intermission => assert IdName(id) != "Period" && IdName(id) != "Lineup" && IdName(id) != "Timeout";
  }

  const ClockTicksPerSecond := 10
  /** durationPerTick, in nanoseconds. */
  const DurationPerTick := 1_000_000_000 / ClockTicksPerSecond
  /** clockTimeTick: how far one tick moves a clock, in milliseconds. */
  const ClockTimeTick := 1000 / ClockTicksPerSecond

  const Minutes2 := 2 * 60 * 1000
  const Minutes15 := 15 * 60 * 1000
  const Minutes30 := 30 * 60 * 1000

  /** The five clocks as values. */
  datatype ClockView = ClockView(period: ClockState, jam: ClockState, lineup: ClockState,
                                 timeout: ClockState, intermission: ClockState)

  function Get(v: ClockView, id: ClockId): ClockState
  {
    match id
    case Period => v.period
    case Jam => v.jam
    case Lineup => v.lineup
    case Timeout => v.timeout
    case Intermission => v.intermission
  }

  function Set(v: ClockView, id: ClockId, c: ClockState): ClockView
  {
    match id
    case Period => v.(period := c)
    case Jam => v.(jam := c)
    case Lineup => v.(lineup := c)
    case Timeout => v.(timeout := c)
    case Intermission => v.(intermission := c)
  }

  /** The same change applied to every clock. */
  function MapAll(v: ClockView, f: ClockState -> ClockState): ClockView
  {
    ClockView(f(v.period), f(v.jam), f(v.lineup), f(v.timeout), f(v.intermission))
  }

  lemma GetSet(v: ClockView, id: ClockId, c: ClockState)
    ensures Get(Set(v, id, c), id) == c
    ensures forall o :: o != id ==> Get(Set(v, id, c), o) == Get(v, o)
  {
  }

  lemma SetSet(v: ClockView, id: ClockId, a: ClockState, b: ClockState)
    ensures Set(Set(v, id, a), id, b) == Set(v, id, b)
  {
  }

  lemma SetGet(v: ClockView, id: ClockId)
    ensures Set(v, id, Get(v, id)) == v
  {
  }

  lemma GetMapAll(v: ClockView, f: ClockState -> ClockState)
    ensures forall id :: Get(MapAll(v, f), id) == f(Get(v, id))
  {
  }

  /**
   * The time a clock has left before its displayed second changes, with
   * Go's `%`: counting down, the milliseconds past the whole second;
   * counting up, the milliseconds to the next one.
   */
  function TimeToTick(t: int, countdown: bool): int
  {
    if countdown then Rem(t, 1000) else Rem(1000 - Rem(t, 1000), 1000)
  }

  /**
   * calculateClockOffset: the difference between the master's and the
   * slave's time to their next second, brought into [-500, 500] and
   * negated for a slave counting down.
   */
  function ClockOffset(master: ClockState, slave: ClockState): (d: int)
    ensures master.time.num >= 0 && slave.time.num >= 0 ==> -500 <= d <= 500
  {
    var diff := TimeToTick(master.time.num, master.countdown) - TimeToTick(slave.time.num, slave.countdown);
    var norm := if diff < -500 then diff + 1000 else if diff > 500 then diff - 1000 else diff;
    if slave.countdown then -norm else norm
  }

  /**
   * What the offset is for: once the slave's time has the offset taken
   * off, its next second falls exactly when the master's does.
   */
  lemma OffsetAligns(master: ClockState, slave: ClockState)
    requires master.time.num >= 0 && slave.time.num >= 0
    requires slave.time.num - ClockOffset(master, slave) >= 0
    ensures TimeToTick(slave.time.num - ClockOffset(master, slave), slave.countdown)
         == TimeToTick(master.time.num, master.countdown)
  {
    var m := TimeToTick(master.time.num, master.countdown);
    var s := slave.time.num;
    var sTick := TimeToTick(s, slave.countdown);
    var off := ClockOffset(master, slave);
    TickForm(master.time.num, master.countdown);
    TickForm(s, slave.countdown);
    TickForm(s - off, slave.countdown);
    var norm := if slave.countdown then -off else off;
    if slave.countdown {
      AlignDown(m, s, norm);
    } else {
      AlignUp(m, s, norm);
    }
  }

  /** TimeToTick for a time that is not negative, with Euclidean `%`. */
  lemma TickForm(t: int, countdown: bool)
    requires t >= 0
    ensures 0 <= TimeToTick(t, countdown) < 1000
    ensures TimeToTick(t, countdown) == if countdown then t % 1000 else if t % 1000 == 0 then 0 else 1000 - t % 1000
  {
  }

  /** Counting down: adding a difference congruent to m minus the slave's tick lands on m. */
  lemma AlignDown(m: int, s: int, norm: int)
    requires 0 <= m < 1000 && s >= 0 && s + norm >= 0
    requires norm == m - s % 1000 || norm == m - s % 1000 + 1000 || norm == m - s % 1000 - 1000
    ensures (s + norm) % 1000 == m
  {
    var e := if norm == m - s % 1000 then 0 else if norm == m - s % 1000 + 1000 then 1 else -1;
    DivMod1000(s);
    Mod1000(s + norm, m, s / 1000 + e);
  }

  /** Counting up: taking off a difference congruent to m minus the slave's tick lands on m. */
  lemma AlignUp(m: int, s: int, norm: int)
    requires 0 <= m < 1000 && s >= 0 && s - norm >= 0
    requires var st := if s % 1000 == 0 then 0 else 1000 - s % 1000;
      norm == m - st || norm == m - st + 1000 || norm == m - st - 1000
    ensures var t := s - norm; (if t % 1000 == 0 then 0 else 1000 - t % 1000) == m
  {
    var r := s % 1000;
    var st := if r == 0 then 0 else 1000 - r;
    var e := if norm == m - st then 0 else if norm == m - st + 1000 then 1 else -1;
    DivMod1000(s);
    var a := s / 1000 + (if r == 0 then 0 else 1);
    var tr := if m == 0 then 0 else 1000 - m;
    Mod1000(s - norm, tr, a - e - (if m == 0 then 0 else 1));
  }

  lemma DivMod1000(s: int)
    ensures s == (s / 1000) * 1000 + s % 1000 && 0 <= s % 1000 < 1000
  {
  }

  lemma Mod1000(x: int, y: int, q: int)
    requires x == q * 1000 + y && 0 <= y < 1000
    ensures x % 1000 == y
  {
  }

  /** triggerClockStart on values: synchronise to Period when asked to and Period runs, then run. */
  function Started(v: ClockView, id: ClockId, sync: bool): ClockView
  {
    Set(v, id, Synced(v, id, sync).(running := true))
  }

  /** The clock `id` after triggerClockStart's alignment, before it is set running. */
  function Synced(v: ClockView, id: ClockId, sync: bool): ClockState
  {
    var c := Get(v, id);
    if sync && id != Period && v.period.running then Shifted(c, ClockOffset(v.period, c)) else c
  }

  /** startClock for each id in turn. */
  function StartedAll(v: ClockView, ids: seq<ClockId>, sync: bool): ClockView
  {
    if |ids| == 0 then v else Started(StartedAll(v, ids[..|ids| - 1], sync), ids[|ids| - 1], sync)
  }

  function Stop(c: ClockState): ClockState
  {
    c.(running := false)
  }

  /**
   * setRunningClocks: afterwards exactly the named clocks run, and no
   * number, direction or adjustable flag has changed.
   */
  lemma {:induction false} RunningExactly(v: ClockView, ids: seq<ClockId>, sync: bool)
    ensures var r := StartedAll(MapAll(v, Stop), ids, sync);
      forall id :: (
        && (Get(r, id).running <==> id in ids) && Get(r, id).number == Get(v, id).number
        && Get(r, id).countdown == Get(v, id).countdown && Get(r, id).adjustable == Get(v, id).adjustable
        && Get(r, id).time.min == Get(v, id).time.min && Get(r, id).time.max == Get(v, id).time.max)
  {
    if |ids| == 0 {
      GetMapAll(v, Stop);
    } else {
      RunningExactly(v, ids[..|ids| - 1], sync);
      StartedGet(StartedAll(MapAll(v, Stop), ids[..|ids| - 1], sync), ids[|ids| - 1], sync);
      assert forall k :: k in ids <==> k in ids[..|ids| - 1] || k == ids[|ids| - 1];
    }
  }

  /** startClock changes one clock: it runs, and only its time's value may move. */
  lemma StartedGet(v: ClockView, id: ClockId, sync: bool)
    ensures forall o :: o != id ==> Get(Started(v, id, sync), o) == Get(v, o)
    ensures var c := Get(v, id); var r := Get(Started(v, id, sync), id);
      && r.running && r.number == c.number && r.countdown == c.countdown && r.adjustable == c.adjustable
      && r.time.min == c.time.min && r.time.max == c.time.max
      && (id == Period ==> r.time == c.time)
      && (!(sync && id != Period && v.period.running) ==> r.time == c.time)
  {
    GetSet(v, id, Synced(v, id, sync).(running := true));
  }

  /** Period's time is never touched, and no time is unless Period is among the started clocks. */
  lemma {:induction false} TimesKept(v: ClockView, ids: seq<ClockId>, sync: bool)
    ensures var r := StartedAll(MapAll(v, Stop), ids, sync);
      && r.period.time == v.period.time
      && (Period !in ids ==> forall id :: Get(r, id).time == Get(v, id).time)
  {
    if |ids| == 0 {
      GetMapAll(v, Stop);
    } else {
      TimesKept(v, ids[..|ids| - 1], sync);
      RunningExactly(v, ids[..|ids| - 1], sync);
      StartedGet(StartedAll(MapAll(v, Stop), ids[..|ids| - 1], sync), ids[|ids| - 1], sync);
      assert Period !in ids ==> Period !in ids[..|ids| - 1];
    }
  }

  /**
   * Starting Period and then another clock, as startJam and stopJam do,
   * synchronises that clock to Period: its time has the offset against
   * the running Period taken off.
   */
  lemma SyncedWithPeriod(v: ClockView, id: ClockId)
    requires id != Period
    ensures var r := StartedAll(MapAll(v, Stop), [Period, id], true);
      && r.period.running && Get(r, id).running
      && Get(r, id).time.num == Get(v, id).time.num - ClockOffset(v.period.(running := true), Stop(Get(v, id)))
  {
    var s0 := MapAll(v, Stop);
    assert [Period, id][..1] == [Period];
    assert [Period][..0] == [];
    var s1 := Started(s0, Period, true);
    assert StartedAll(s0, [Period], true) == s1;
    assert s1.period == v.period.(running := true);
    assert Get(s1, id) == Stop(Get(v, id));
  }

  /** ticker's tick count: whole ticks since the start time, less the ticks already done. */
  function TicksToDo(now: Time, startTime: Time, ticks: int): (n: int)
    ensures now.nanos >= startTime.nanos ==>
      (ticks + n) * DurationPerTick <= now.nanos - startTime.nanos < (ticks + n + 1) * DurationPerTick
  {
    Quot(now.nanos - startTime.nanos, DurationPerTick) - ticks
  }

  /** CurrentTime: the start time plus the ticks done. */
  function CurrentTime(startTime: Time, ticks: int): (t: Time)
    ensures t.nanos - startTime.nanos == ticks * DurationPerTick
  {
    Time(startTime.nanos + ticks * DurationPerTick)
  }

  /** Once the ticker has caught up, the master's time is the last whole tick before now. */
  lemma CaughtUp(now: Time, startTime: Time, ticks: int)
    requires now.nanos >= startTime.nanos
    ensures var t := CurrentTime(startTime, ticks + TicksToDo(now, startTime, ticks));
      t.nanos <= now.nanos < t.nanos + DurationPerTick
  {
  }

  /** One tick of one clock: a running clock ticks once; a stopped one is left alone. */
  function Ticked(c: ClockState): ClockState
  {
    TickedBy(c, ClockTimeTick)
  }

  predicate AnyExpired(v: ClockView)
  {
    exists id :: Get(v, id).running && AfterTick(Get(v, id), ClockTimeTick).1
  }

  /** A full reset of one clock, as reset and resetClock do it. */
  function FullReset(c: ClockState): ClockState
  {
    AfterReset(c, true, false)
  }

  /**
   * What undo writes back into one clock: its running flag, then its time
   * and its number, each through the counter's own clamping setNum.
   */
  function Restored(c: ClockState, running: bool, time: int, number: int): (r: ClockState)
    ensures r.running == running && r.countdown == c.countdown && r.adjustable == c.adjustable
    ensures InRange(c.time) ==> r.time.min == c.time.min && r.time.max == c.time.max && InRange(r.time)
    ensures c.time.min <= time <= c.time.max ==> r.time.num == time
    ensures c.number.min <= number <= c.number.max ==> r.number.num == number
  {
    c.(running := running, time := WithNum(c.time, time), number := WithNum(c.number, number))
  }

  /** Two clocks that share no object. */
  predicate Apart(a: Clock, b: Clock)
  {
    a != b && a.number != b.number && a.number != b.time && a.time != b.number && a.time != b.time
  }

  class MasterClock {
    const syncClocks: bool
    const period: Clock
    const jam: Clock
    const lineup: Clock
    const timeout: Clock
    const intermission: Clock
    var startTime: Time
    var ticks: int

    /** mc.clocks */
    function ClockOf(id: ClockId): Clock
    {
      match id
      case Period => period
      case Jam => jam
      case Lineup => lineup
      case Timeout => timeout
      case Intermission => intermission
    }

    ghost function Objs(): set<object>
    {
      {period, period.number, period.time, jam, jam.number, jam.time, lineup, lineup.number, lineup.time,
       timeout, timeout.number, timeout.time, intermission, intermission.number, intermission.time}
    }

    ghost predicate Valid()
      reads Objs()
    {
      && this !in Objs()
      && period.Valid() && jam.Valid() && lineup.Valid() && timeout.Valid() && intermission.Valid()
      && Apart(period, jam) && Apart(period, lineup) && Apart(period, timeout) && Apart(period, intermission)
      && Apart(jam, lineup) && Apart(jam, timeout) && Apart(jam, intermission)
      && Apart(lineup, timeout) && Apart(lineup, intermission) && Apart(timeout, intermission)
    }

    lemma OthersApart(id: ClockId)
      requires Valid()
      ensures ClockOf(id).Valid()
      ensures forall o :: o != id ==> Apart(ClockOf(id), ClockOf(o))
    {
    }

    function View(): ClockView
      reads Objs()
    {
      ClockView(period.State(), jam.State(), lineup.State(), timeout.State(), intermission.State())
    }

    lemma ViewGet(id: ClockId)
      ensures Get(View(), id) == ClockOf(id).State()
    {
    }

    /**
     * newMasterClock, without the ticker goroutine: the five configured
     * clocks. The full reset it then gives each clock changes no value
     * (ConfiguredClocks), so it is left to its republishing.
     */
    constructor()
      ensures Valid() && syncClocks && ticks == 0 && startTime == ZeroTime
      ensures View() == Configured() && fresh(Objs())
    {
      syncClocks := true;
      var p, j, l, t, i := NewClocks();
      period, jam, lineup, timeout, intermission := p, j, l, t, i;
      startTime := ZeroTime;
      ticks := 0;
      new;
      NotOwnClock(this, period);
      NotOwnClock(this, jam);
      NotOwnClock(this, lineup);
      NotOwnClock(this, timeout);
      NotOwnClock(this, intermission);
    }

    /**
     * Every clock fully reset. The source walks the clock map in Go's
     * unspecified order; the clocks share nothing, so any order gives this.
     */
    method ResetAll()
      requires Valid()
      modifies Objs()
      ensures Valid() && View() == MapAll(old(View()), FullReset)
    {
      ghost var v0 := View();
      for i := 0 to 5
        invariant Valid() && View() == ApplyFirst(v0, FullReset, i)
      {
        ResetId(AllIds[i]);
      }
      ApplyAll(v0, FullReset);
    }

    /** reset: all clocks fully reset, the start time taken from now and the ticks cleared. */
    method Reset(now: Time)
      requires Valid()
      modifies this, Objs()
      ensures Valid() && startTime == now && ticks == 0
      ensures View() == MapAll(old(View()), FullReset)
    {
      ResetAll();
      SetStartTime(now);
      SetTicks(0);
    }

    /** setTicks */
    method SetTicks(v: int)
      modifies this
      ensures ticks == v && startTime == old(startTime)
    {
      ticks := v;
    }

    /** setStartTime */
    method SetStartTime(v: Time)
      modifies this
      ensures startTime == v && ticks == old(ticks)
    {
      startTime := v;
    }

    /** One clock stopped. */
    method StopId(id: ClockId)
      requires Valid()
      modifies ClockOf(id)
      ensures Valid() && View() == Set(old(View()), id, Stop(Get(old(View()), id)))
    {
      match id
      case Period => period.Stop();
      case Jam => jam.Stop();
      case Lineup => lineup.Stop();
      case Timeout => timeout.Stop();
      case Intermission => intermission.Stop();
    }

    /** One clock fully reset. */
    method ResetId(id: ClockId)
      requires Valid()
      modifies ClockOf(id), ClockOf(id).number, ClockOf(id).time
      ensures Valid() && View() == Set(old(View()), id, FullReset(Get(old(View()), id)))
    {
      match id
      case Period => period.Reset(true, false);
      case Jam => jam.Reset(true, false);
      case Lineup => lineup.Reset(true, false);
      case Timeout => timeout.Reset(true, false);
      case Intermission => intermission.Reset(true, false);
    }

    /** One clock reset, as clock.reset(full, incNumber) does it. */
    method ResetIdWith(id: ClockId, full: bool, incNumber: bool)
      requires Valid()
      modifies ClockOf(id), ClockOf(id).number, ClockOf(id).time
      ensures Valid() && View() == Set(old(View()), id, AfterReset(Get(old(View()), id), full, incNumber))
    {
      match id
      case Period => period.Reset(full, incNumber);
      case Jam => jam.Reset(full, incNumber);
      case Lineup => lineup.Reset(full, incNumber);
      case Timeout => timeout.Reset(full, incNumber);
      case Intermission => intermission.Reset(full, incNumber);
    }

    /** One clock written back by undo: setRunning, then time.setNum, then number.setNum. */
    method RestoreId(id: ClockId, running: bool, time: int, number: int)
      requires Valid()
      modifies ClockOf(id), ClockOf(id).number, ClockOf(id).time
      ensures Valid() && View() == Set(old(View()), id, Restored(Get(old(View()), id), running, time, number))
    {
      var c := ClockOf(id);
      c.SetRunning(running);
      c.time.SetNum(time);
      c.number.SetNum(number);
    }

    /** One running clock ticked once; reports whether it ran out. */
    method TickId(id: ClockId) returns (expired: bool)
      requires Valid()
      modifies ClockOf(id), ClockOf(id).time
      ensures Valid() && View() == Set(old(View()), id, Ticked(Get(old(View()), id)))
      ensures expired == (Get(old(View()), id).running && AfterTick(Get(old(View()), id), ClockTimeTick).1)
    {
      match id
      case Period => expired := period.TickIfRunning(ClockTimeTick);
      case Jam => expired := jam.TickIfRunning(ClockTimeTick);
      case Lineup => expired := lineup.TickIfRunning(ClockTimeTick);
      case Timeout => expired := timeout.TickIfRunning(ClockTimeTick);
      case Intermission => expired := intermission.TickIfRunning(ClockTimeTick);
    }

    /** One clock's adjustable flag set. */
    method AdjustableId(id: ClockId, adjustable: bool)
      requires Valid()
      modifies ClockOf(id)
      ensures Valid() && View() == Set(old(View()), id, Get(old(View()), id).(adjustable := adjustable))
    {
      match id
      case Period => period.SetAdjustable(adjustable);
      case Jam => jam.SetAdjustable(adjustable);
      case Lineup => lineup.SetAdjustable(adjustable);
      case Timeout => timeout.SetAdjustable(adjustable);
      case Intermission => intermission.SetAdjustable(adjustable);
    }

    /** Every clock stopped (the first loop of setRunningClocks). */
    method StopAll()
      requires Valid()
      modifies Objs()
      ensures Valid() && View() == MapAll(old(View()), Stop)
    {
      ghost var v0 := View();
      for i := 0 to 5
        invariant Valid() && View() == ApplyFirst(v0, Stop, i)
      {
        StopId(AllIds[i]);
      }
      ApplyAll(v0, Stop);
    }

    /**
     * triggerClockStart: a clock other than Period starts in step with a
     * running Period. (The source compares the clock objects; under
     * Valid() that is comparing the ids.)
     */
    method TriggerClockStart(id: ClockId)
      requires Valid()
      modifies Objs()
      ensures Valid() && View() == Started(old(View()), id, syncClocks)
    {
      ghost var v0 := View();
      ViewGet(id);
      if syncClocks && id != Period && period.running {
        var offset := ClockOffset(period.State(), ClockOf(id).State());
        ShiftTime(id, offset);
      } else {
        SetGet(v0, id);
      }
      ghost var v1 := View();
      assert v1 == Set(v0, id, Synced(v0, id, syncClocks));
      RunId(id);
      GetSet(v0, id, Synced(v0, id, syncClocks));
      SetSet(v0, id, Synced(v0, id, syncClocks), Synced(v0, id, syncClocks).(running := true));
    }

    /** The direct write to one clock's time (Clock.ShiftTime). */
    method ShiftTime(id: ClockId, offset: int)
      requires Valid()
      modifies ClockOf(id).time
      ensures Valid() && View() == Set(old(View()), id, Shifted(Get(old(View()), id), offset))
    {
      match id
      case Period => period.ShiftTime(offset);
      case Jam => jam.ShiftTime(offset);
      case Lineup => lineup.ShiftTime(offset);
      case Timeout => timeout.ShiftTime(offset);
      case Intermission => intermission.ShiftTime(offset);
    }

    /** One clock set running. */
    method RunId(id: ClockId)
      requires Valid()
      modifies ClockOf(id)
      ensures Valid() && View() == Set(old(View()), id, Get(old(View()), id).(running := true))
    {
      match id
      case Period => period.SetRunning(true);
      case Jam => jam.SetRunning(true);
      case Lineup => lineup.SetRunning(true);
      case Timeout => timeout.SetRunning(true);
      case Intermission => intermission.SetRunning(true);
    }

    /** startClock */
    method StartClock(name: string) returns (err: Option<Error>)
      requires Valid()
      modifies Objs()
      ensures Valid()
      ensures err == if ParseId(name).Some? then None else Some(ErrClockNotFound)
      ensures View() == if ParseId(name).Some? then Started(old(View()), ParseId(name).value, syncClocks) else old(View())
    {
      var id := ParseId(name);
      if id.None? {
        return Some(ErrClockNotFound);
      }
      TriggerClockStart(id.value);
      return None;
    }

    /** setRunningClocks: stop everything, then start the named clocks in order. */
    method SetRunningClocks(ids: seq<ClockId>)
      requires Valid()
      modifies Objs()
      ensures Valid() && View() == StartedAll(MapAll(old(View()), Stop), ids, syncClocks)
    {
      StopAll();
      for i := 0 to |ids|
        invariant Valid()
        invariant View() == StartedAll(MapAll(old(View()), Stop), ids[..i], syncClocks)
      {
        assert ids[..i + 1][..i] == ids[..i];
        ParseIdName(ids[i]);
        var _ := StartClock(IdName(ids[i]));
      }
      assert ids[..|ids|] == ids;
    }

    /** stopClock */
    method StopClock(name: string) returns (err: Option<Error>)
      requires Valid()
      modifies Objs()
      ensures Valid()
      ensures err == if ParseId(name).Some? then None else Some(ErrClockNotFound)
      ensures View() == if ParseId(name).Some?
        then Set(old(View()), ParseId(name).value, Stop(Get(old(View()), ParseId(name).value))) else old(View())
    {
      var id := ParseId(name);
      if id.None? {
        return Some(ErrClockNotFound);
      }
      StopId(id.value);
      return None;
    }

    /** setClockAdjustable */
    method SetClockAdjustable(name: string, adjustable: bool) returns (err: Option<Error>)
      requires Valid()
      modifies Objs()
      ensures Valid()
      ensures err == if ParseId(name).Some? then None else Some(ErrClockNotFound)
      ensures View() == if ParseId(name).Some?
        then Set(old(View()), ParseId(name).value, Get(old(View()), ParseId(name).value).(adjustable := adjustable))
        else old(View())
    {
      var id := ParseId(name);
      if id.None? {
        return Some(ErrClockNotFound);
      }
      AdjustableId(id.value, adjustable);
      return None;
    }

    /** resetClock */
    method ResetClock(name: string) returns (err: Option<Error>)
      requires Valid()
      modifies Objs()
      ensures Valid()
      ensures err == if ParseId(name).Some? then None else Some(ErrClockNotFound)
      ensures View() == if ParseId(name).Some?
        then Set(old(View()), ParseId(name).value, FullReset(Get(old(View()), ParseId(name).value))) else old(View())
    {
      var id := ParseId(name);
      if id.None? {
        return Some(ErrClockNotFound);
      }
      ResetId(id.value);
      return None;
    }

    /** startCmd: the first argument names the clock; no argument is a missing clock. */
    method StartCmd(data: seq<string>) returns (err: Option<Error>)
      requires Valid()
      modifies Objs()
      ensures Valid()
      ensures err == if |data| > 0 && ParseId(data[0]).Some? then None else Some(ErrClockNotFound)
      ensures View() == if |data| > 0 && ParseId(data[0]).Some?
        then Started(old(View()), ParseId(data[0]).value, syncClocks) else old(View())
    {
      if |data| < 1 {
        return Some(ErrClockNotFound);
      }
      err := StartClock(data[0]);
    }

    /** stopCmd */
    method StopCmd(data: seq<string>) returns (err: Option<Error>)
      requires Valid()
      modifies Objs()
      ensures Valid()
      ensures err == if |data| > 0 && ParseId(data[0]).Some? then None else Some(ErrClockNotFound)
      ensures View() == if |data| > 0 && ParseId(data[0]).Some?
        then Set(old(View()), ParseId(data[0]).value, Stop(Get(old(View()), ParseId(data[0]).value))) else old(View())
    {
      if |data| < 1 {
        return Some(ErrClockNotFound);
      }
      err := StopClock(data[0]);
    }

    /** resetCmd */
    method ResetCmd(data: seq<string>) returns (err: Option<Error>)
      requires Valid()
      modifies Objs()
      ensures Valid()
      ensures err == if |data| > 0 && ParseId(data[0]).Some? then None else Some(ErrClockNotFound)
      ensures View() == if |data| > 0 && ParseId(data[0]).Some?
        then Set(old(View()), ParseId(data[0]).value, FullReset(Get(old(View()), ParseId(data[0]).value)))
        else old(View())
    {
      if |data| < 1 {
        return Some(ErrClockNotFound);
      }
      err := ResetClock(data[0]);
    }

    /**
     * The clock part of one pass of ticker's loop: every running clock
     * ticks once, then the tick count goes up by one; reports whether any
     * clock ran out on this tick.
     */
    method TickClocks() returns (expired: bool)
      requires Valid()
      modifies this, Objs()
      ensures Valid() && ticks == old(ticks) + 1 && startTime == old(startTime)
      ensures View() == MapAll(old(View()), Ticked) && expired == AnyExpired(old(View()))
    {
      ghost var v0 := View();
      expired := false;
      for i := 0 to 5
        invariant Valid() && View() == ApplyFirst(v0, Ticked, i)
        invariant expired == AnyExpiredFirst(v0, i)
        invariant ticks == old(ticks) && startTime == old(startTime)
      {
        ApplyFirstLater(v0, Ticked, i, i);
        var e := TickId(AllIds[i]);
        expired := expired || e;
      }
      ApplyAll(v0, Ticked);
      ExpiredAll(v0);
      SetTicks(ticks + 1);
    }
  }

  /** The five clocks newMasterClock configures, each built by newClock, sharing no object. */
  method NewClocks() returns (p: Clock, j: Clock, l: Clock, t: Clock, i: Clock)
    ensures p.Valid() && j.Valid() && l.Valid() && t.Valid() && i.Valid()
    ensures Apart(p, j) && Apart(p, l) && Apart(p, t) && Apart(p, i)
    ensures Apart(j, l) && Apart(j, t) && Apart(j, i) && Apart(l, t) && Apart(l, i) && Apart(t, i)
    ensures ClockView(p.State(), j.State(), l.State(), t.State(), i.State()) == Configured()
    ensures fresh({p, p.number, p.time, j, j.number, j.time, l, l.number, l.time})
    ensures fresh({t, t.number, t.time, i, i.number, i.time})
  {
    p := new Clock("Period", 1, 2, 0, Minutes30, true, false);
    j := new Clock("Jam", 1, 99, 0, Minutes2, true, false);
    l := new Clock("Lineup", 1, 99, 0, Minutes30, false, false);
    t := new Clock("Timeout", 1, 99, 0, Minutes30, false, false);
    i := new Clock("Intermission", 1, 2, 0, Minutes15, true, false);
  }

  lemma NotOwnClock(m: MasterClock, c: Clock)
    ensures m !in {c, c.number, c.time}
  {
  }

  /** Whether one of the first n clocks of AllIds runs out on this tick. */
  predicate AnyExpiredFirst(v: ClockView, n: nat)
    requires n <= 5
  {
    n > 0 && (AnyExpiredFirst(v, n - 1) || (Get(v, AllIds[n - 1]).running && AfterTick(Get(v, AllIds[n - 1]), ClockTimeTick).1))
  }

  /** The clocks from the n-th on are still untouched. */
  lemma {:induction false} ApplyFirstLater(v: ClockView, f: ClockState -> ClockState, n: nat, j: nat)
    requires n <= j < 5
    ensures Get(ApplyFirst(v, f, n), AllIds[j]) == Get(v, AllIds[j])
  {
    if n > 0 {
      ApplyFirstLater(v, f, n - 1, j);
      assert AllIds[n - 1] != AllIds[j];
    }
  }

  lemma ExpiredAll(v: ClockView)
    ensures AnyExpiredFirst(v, 5) == AnyExpired(v)
  {
    assert AnyExpiredFirst(v, 1) == (v.period.running && AfterTick(v.period, ClockTimeTick).1);
    assert AnyExpiredFirst(v, 5) == (AnyExpiredFirst(v, 4) || (v.intermission.running && AfterTick(v.intermission, ClockTimeTick).1));
    assert AnyExpiredFirst(v, 4) == (AnyExpiredFirst(v, 3) || (v.timeout.running && AfterTick(v.timeout, ClockTimeTick).1));
    assert AnyExpiredFirst(v, 3) == (AnyExpiredFirst(v, 2) || (v.lineup.running && AfterTick(v.lineup, ClockTimeTick).1));
    assert AnyExpiredFirst(v, 2) == (AnyExpiredFirst(v, 1) || (v.jam.running && AfterTick(v.jam, ClockTimeTick).1));
    if AnyExpired(v) {
      var id :| Get(v, id).running && AfterTick(Get(v, id), ClockTimeTick).1;
      match id
      case Period =>
      case Jam =>
      case Lineup =>
      case Timeout =>
      case Intermission =>
    }
  }

  /** The change applied to the first n clocks of AllIds. */
  function ApplyFirst(v: ClockView, f: ClockState -> ClockState, n: nat): ClockView
    requires n <= 5
  {
    if n == 0 then v else
      var w := ApplyFirst(v, f, n - 1);
      Set(w, AllIds[n - 1], f(Get(w, AllIds[n - 1])))
  }

  lemma ApplyAll(v: ClockView, f: ClockState -> ClockState)
    ensures ApplyFirst(v, f, 5) == MapAll(v, f)
  {
    assert ApplyFirst(v, f, 1) == v.(period := f(v.period));
    assert ApplyFirst(v, f, 2) == v.(period := f(v.period), jam := f(v.jam));
    assert ApplyFirst(v, f, 3) == v.(period := f(v.period), jam := f(v.jam), lineup := f(v.lineup));
    assert ApplyFirst(v, f, 4) == v.(period := f(v.period), jam := f(v.jam), lineup := f(v.lineup), timeout := f(v.timeout));
  }

  /** Two views that agree on every clock are the same view. */
  lemma SameView(a: ClockView, b: ClockView)
    requires forall j :: 0 <= j < 5 ==> Get(a, AllIds[j]) == Get(b, AllIds[j])
    ensures a == b
  {
    assert Get(a, AllIds[0]) == Get(b, AllIds[0]);
    assert Get(a, AllIds[1]) == Get(b, AllIds[1]);
    assert Get(a, AllIds[2]) == Get(b, AllIds[2]);
    assert Get(a, AllIds[3]) == Get(b, AllIds[3]);
    assert Get(a, AllIds[4]) == Get(b, AllIds[4]);
  }

  /** The five clocks as newMasterClock configures them. */
  function Configured(): ClockView
  {
    ClockView(NewClock(1, 2, 0, Minutes30, true, false), NewClock(1, 99, 0, Minutes2, true, false),
              NewClock(1, 99, 0, Minutes30, false, false), NewClock(1, 99, 0, Minutes30, false, false),
              NewClock(1, 2, 0, Minutes15, true, false))
  }

  /**
   * The configured clocks: Period 1..2 over 30 minutes counting down, Jam
   * 1..99 over 2 minutes counting down, Lineup and Timeout 1..99 over 30
   * minutes counting up, Intermission 1..2 over 15 minutes counting down;
   * after the reset each stands at its first number and start bound,
   * stopped.
   */
  lemma ConfiguredClocks()
    ensures MapAll(Configured(), FullReset) == Configured()
    ensures Configured() == ClockView(
      ClockState(Bounds(1, 2, 1), Bounds(0, 1800000, 1800000), true, false, false),
      ClockState(Bounds(1, 99, 1), Bounds(0, 120000, 120000), true, false, false),
      ClockState(Bounds(1, 99, 1), Bounds(0, 1800000, 0), false, false, false),
      ClockState(Bounds(1, 99, 1), Bounds(0, 1800000, 0), false, false, false),
      ClockState(Bounds(1, 2, 1), Bounds(0, 900000, 900000), true, false, false))
  {
    NewClockStarts(1, 2, 0, Minutes30, true, false);
    NewClockStarts(1, 99, 0, Minutes2, true, false);
    NewClockStarts(1, 99, 0, Minutes30, false, false);
    NewClockStarts(1, 2, 0, Minutes15, true, false);
  }
}
