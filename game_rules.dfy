/**
 * The game's state machine (scoreboard/scoreboard.go) on values: the
 * scoreboard's state, its clocks, tick count and start time, each team's
 * counters, and its snapshots with the index of the active one. The
 * jams and the rosters, which are objects, are the Scoreboard class's
 * part (module Scoreboards); each of its transitions is proved against
 * the function here of the same name.
 */
module GameRules {
  import opened GoBase
  import opened GoStrconv
  import opened MinMax
  import opened Clocks
  import opened MasterClocks
  import opened Snapshots
  import Teams

  const StateNotRunning := ""
  const StatePreGame := "PreGame"
  const StateJam := "Jam"
  const StateLineup := "Lineup"
  const StateOTO := "OTO"
  const StateTTO1 := "TTO1"
  const StateTTO2 := "TTO2"
  const StateOR1 := "OR1"
  const StateOR2 := "OR2"
  const StateIntermission := "Intermission"
  const StateUnofficial := "UnofficialFinal"
  const StateFinal := "Final"

  /** isTimeoutState: an official timeout, a team timeout or an official review. */
  predicate IsTimeoutState(s: string)
  {
    s == StateOTO || s == StateTTO1 || s == StateTTO2 || s == StateOR1 || s == StateOR2
  }

  /**
   * The scoreboard as values. `active` is the index of the active snapshot
   * in `snapshots`; an index past the end stands for no active snapshot.
   */
  datatype Game = Game(state: string, clocks: ClockView, ticks: int, startTime: Time,
                       team1: Teams.TeamInfo, team2: Teams.TeamInfo,
                       snapshots: seq<Snapshot>, active: nat)

  // ------------------------------------------------------------ building blocks

  /** setState: the state, and the period clock adjustable exactly in a timeout state. */
  function WithState(g: Game, s: string): Game
  {
    g.(state := s, clocks := Set(g.clocks, Period, g.clocks.period.(adjustable := IsTimeoutState(s))))
  }

  /** snapshotStateStart: a new snapshot of the game as it stands becomes the active one. */
  function SnapshotStart(g: Game): Game
  {
    var s := NewSnapshot(|g.snapshots|, g.state, g.ticks, CurrentTime(g.startTime, g.ticks), g.team1, g.team2, g.clocks);
    g.(snapshots := g.snapshots + [s], active := |g.snapshots|)
  }

  /** snapshotStateEnd: the active snapshot, if any, ended now. */
  function SnapshotEnd(g: Game, canUndo: bool): Game
  {
    if g.active < |g.snapshots| then
      var s := Ended(g.snapshots[g.active], canUndo, CurrentTime(g.startTime, g.ticks), g.ticks, g.clocks);
      g.(snapshots := g.snapshots[g.active := s])
    else g
  }

  /** unend on the active snapshot, if any. */
  function SnapshotUnend(g: Game): Game
  {
    if g.active < |g.snapshots| then g.(snapshots := g.snapshots[g.active := Unended(g.snapshots[g.active], g.ticks)])
    else g
  }

  /** updateLength on the active snapshot, if any. */
  function SnapshotLength(g: Game): Game
  {
    if g.active < |g.snapshots| then g.(snapshots := g.snapshots[g.active := LengthAt(g.snapshots[g.active], g.ticks)])
    else g
  }

  /** clock.reset(full, incNumber) on one clock. */
  function WithReset(g: Game, id: ClockId, full: bool, incNumber: bool): Game
  {
    g.(clocks := Set(g.clocks, id, AfterReset(Get(g.clocks, id), full, incNumber)))
  }

  /** setRunningClocks, with clock synchronisation on. */
  function Running(g: Game, ids: seq<ClockId>): Game
  {
    g.(clocks := StartedAll(MapAll(g.clocks, Stop), ids, true))
  }

  // ---------------------------------------------------------------- transitions

  /** endOfIntermission: the period number moves on and the jam count starts again. */
  function AfterEndOfIntermission(g: Game): Game
  {
    WithReset(WithReset(g, Period, false, true), Jam, true, false)
  }

  /**
   * endOfPeriod: after period 1, intermission with only the (reset)
   * intermission clock running; otherwise the unofficial final with no
   * clock running. A new snapshot starts either way.
   */
  function AfterEndOfPeriod(g: Game, canUndo: bool): Game
  {
    var e := SnapshotEnd(g, canUndo);
    if e.clocks.period.number.num == 1 then
      SnapshotStart(Running(WithReset(WithState(e, StateIntermission), Intermission, false, false), [Intermission]))
    else
      SnapshotStart(Running(WithState(e, StateUnofficial), []))
  }

  /**
   * startJam: nothing in a jam. Otherwise the snapshot ends revertibly;
   * an intermission less than half over ends; the jam clock is reset with
   * its number moved on, and exactly the period and jam clocks run.
   */
  function AfterStartJam(g: Game): Game
  {
    if g.state == StateJam then g
    else SnapshotStart(JamStarted(SnapshotEnd(g, true)))
  }

  /** startJam between its two snapshots. */
  function JamStarted(e: Game): Game
  {
    var i := if e.state == StateIntermission && e.clocks.intermission.time.num < Quot(e.clocks.intermission.time.max, 2)
      then AfterEndOfIntermission(e) else e;
    Running(WithReset(WithState(i, StateJam), Jam, false, true), [Period, Jam])
  }

  /**
   * stopJam: nothing outside a jam; the end of the period when the period
   * clock has stopped; otherwise lineup, with exactly the period and
   * lineup clocks running. Undo may go back only if the jam clock moved.
   */
  function AfterStopJam(g: Game): Game
  {
    if g.state != StateJam then g
    else if !g.clocks.period.running then AfterEndOfPeriod(g, true)
    else SnapshotStart(LineupStarted(SnapshotEnd(g, g.clocks.jam.time.num != g.clocks.jam.time.min)))
  }

  /** stopJam between its two snapshots, when the period goes on. */
  function LineupStarted(e: Game): Game
  {
    Running(WithReset(WithState(e, StateLineup), Lineup, false, false), [Period, Lineup])
  }

  /** The state timeout asks for: the first argument when it names a timeout state, else an official timeout. */
  function TimeoutState(data: seq<string>): (s: string)
    ensures IsTimeoutState(s)
  {
    if |data| > 0 && IsTimeoutState(data[0]) then data[0] else StateOTO
  }

  /** Whether timeout refuses: already in an official timeout, or the team has none of that kind left. */
  predicate Refused(g: Game, s: string)
  {
    || (s == StateOTO && g.state == StateOTO)
    || (s == StateTTO1 && g.team1.timeouts <= 0)
    || (s == StateTTO2 && g.team2.timeouts <= 0)
    || (s == StateOR1 && g.team1.officialReviews <= 0)
    || (s == StateOR2 && g.team2.officialReviews <= 0)
  }

  /** useTimeout or useOfficialReview for the team the state names. */
  function Used(g: Game, s: string): Game
  {
    if s == StateTTO1 then g.(team1 := g.team1.(timeouts := g.team1.timeouts - 1))
    else if s == StateTTO2 then g.(team2 := g.team2.(timeouts := g.team2.timeouts - 1))
    else if s == StateOR1 then g.(team1 := g.team1.(officialReviews := g.team1.officialReviews - 1))
    else if s == StateOR2 then g.(team2 := g.team2.(officialReviews := g.team2.officialReviews - 1))
    else g
  }

  /**
   * timeout: the snapshot ends revertibly. A refused timeout unends it
   * again; otherwise the team's timeout or review is used, the state
   * changes and only the (reset) timeout clock runs.
   */
  function AfterTimeout(g: Game, data: seq<string>): Game
  {
    var s := TimeoutState(data);
    var e := SnapshotEnd(g, true);
    if Refused(g, s) then SnapshotUnend(e)
    else SnapshotStart(Running(WithReset(WithState(Used(e, s), s), Timeout, false, false), [Timeout]))
  }

  /** A refused timeout only ends and unends the active snapshot. */
  lemma TimeoutRefusedGoesBack(g: Game, data: seq<string>)
    requires Refused(SnapshotEnd(g, true), TimeoutState(data))
    ensures AfterTimeout(g, data) == SnapshotUnend(SnapshotEnd(g, true))
  {
  }

  /** A timeout taken uses it, sets the state and starts a snapshot with the timeout clock alone running. */
  lemma TimeoutTakenStarts(g: Game, data: seq<string>)
    requires !Refused(SnapshotEnd(g, true), TimeoutState(data))
    ensures var s := TimeoutState(data);
      AfterTimeout(g, data) == SnapshotStart(Running(WithReset(WithState(Used(SnapshotEnd(g, true), s), s), Timeout, false, false), [Timeout]))
  {
  }

  /** endTimeout: nothing outside a timeout; otherwise lineup with only the (reset) lineup clock running. */
  function AfterEndTimeout(g: Game): Game
  {
    if !IsTimeoutState(g.state) then g
    else SnapshotStart(Running(WithReset(WithState(SnapshotEnd(g, true), StateLineup), Lineup, false, false), [Lineup]))
  }

  /**
   * clocksExpired: in lineup, the end of the period when the period clock
   * stopped, else a jam; in a jam whose clock stopped, the end of the
   * period when the period clock stopped too, else the jam stops; in
   * intermission, the intermission ends while its number is 1.
   */
  function AfterClocksExpired(g: Game): Game
  {
    if g.state == StateLineup then
      if !g.clocks.period.running then AfterEndOfPeriod(g, false) else AfterStartJam(g)
    else if g.state == StateJam then
      if g.clocks.jam.running then g
      else if !g.clocks.period.running then AfterEndOfPeriod(g, false)
      else AfterStopJam(g)
    else if g.state == StateIntermission then
      if g.clocks.intermission.number.num == 1 then AfterEndOfIntermission(g) else g
    else g
  }

  /**
   * One pass of ticker's loop: every running clock ticks, the tick is
   * counted, the active snapshot's length is brought up to date, and an
   * expiry is routed through clocksExpired.
   */
  function TickOnce(g: Game): Game
  {
    var t := SnapshotLength(g.(clocks := MapAll(g.clocks, Ticked), ticks := g.ticks + 1));
    if AnyExpired(g.clocks) then AfterClocksExpired(t) else t
  }

  /** `n` passes of ticker's loop. */
  function TickTimes(g: Game, n: nat): Game
    decreases n
  {
    if n == 0 then g else TickTimes(TickOnce(g), n - 1)
  }

  /** No transition touches the tick count or the start time. */
  lemma ExpiredKeepsTicks(g: Game)
    ensures AfterClocksExpired(g).ticks == g.ticks && AfterClocksExpired(g).startTime == g.startTime
  {
  }

  /** One pass counts one tick. */
  lemma TickOnceCounts(g: Game)
    ensures (TickOnce(g).ticks, TickOnce(g).startTime) == (g.ticks + 1, g.startTime)
  {
    var t := SnapshotLength(g.(clocks := MapAll(g.clocks, Ticked), ticks := g.ticks + 1));
    assert t.ticks == g.ticks + 1 && t.startTime == g.startTime;
    ExpiredKeepsTicks(t);
  }

  /** ticker performs exactly `n` ticks: the count goes up by `n` whatever the clocks do. */
  lemma {:induction false} TicksCounted(g: Game, n: nat)
    ensures (TickTimes(g, n).ticks, TickTimes(g, n).startTime) == (g.ticks + n, g.startTime)
    decreases n
  {
    if n > 0 {
      TickOnceCounts(g);
      TicksCounted(TickOnce(g), n - 1);
    }
  }

  /** Whether undo goes back: the snapshot before the last one may be reverted to. */
  predicate UndoAllowed(g: Game)
  {
    |g.snapshots| > 1 && g.snapshots[|g.snapshots| - 2].canRevert
  }

  /**
   * undo's jam test as written: it goes back into a jam from any other
   * state. That is so after stopJam, which added a jam, but also after a
   * jam ended the period or a timeout was called during a jam, which add
   * none.
   */
  predicate UndoesJam(g: Game)
  {
    UndoAllowed(g) && g.state != StateJam && g.snapshots[|g.snapshots| - 2].state == StateJam
  }

  /**
   * The intended jam test: undo goes back from the lineup a stopJam began
   * into the jam, the only step that adds a jam.
   */
  predicate UndoesJamCorrected(g: Game)
  {
    UndoAllowed(g) && g.state == StateLineup && g.snapshots[|g.snapshots| - 2].state == StateJam
  }

  /** Undo right after stopJam in a running period takes back the jam it added, by either test. */
  lemma StopJamTakenBack(g: Game)
    requires Settled(g) && g.state == StateJam && g.clocks.period.running
    requires g.clocks.jam.time.num != g.clocks.jam.time.min
    ensures UndoesJam(AfterStopJam(g)) && UndoesJamCorrected(AfterStopJam(g))
  {
    var e := SnapshotEnd(g, true);
    assert e.snapshots[g.active].state == StateJam && e.snapshots[g.active].canRevert;
  }

  /**
   * A timeout called during a jam adds no jam, yet undo's test as written
   * takes one back after it; the intended test does not.
   */
  lemma TimeoutInJamAsWritten(g: Game, data: seq<string>)
    requires Settled(g) && g.state == StateJam && !Refused(g, TimeoutState(data))
    ensures UndoesJam(AfterTimeout(g, data)) && !UndoesJamCorrected(AfterTimeout(g, data))
  {
    var e := SnapshotEnd(g, true);
    assert e.snapshots[g.active].state == StateJam && e.snapshots[g.active].canRevert;
    assert IsTimeoutState(TimeoutState(data));
  }

  /**
   * A jam stopped once the period clock has run out ends the period and
   * adds no jam, yet undo's test as written takes one back after it; the
   * intended test does not.
   */
  lemma PeriodEndInJamAsWritten(g: Game)
    requires Settled(g) && g.state == StateJam && !g.clocks.period.running
    ensures UndoesJam(AfterStopJam(g)) && !UndoesJamCorrected(AfterStopJam(g))
  {
    var e := SnapshotEnd(g, true);
    assert e.snapshots[g.active].state == StateJam && e.snapshots[g.active].canRevert;
  }

  /**
   * undo before its closing ticker call, with `second` the snapshot team
   * written into team 2 (undo as written reads team 0 for both teams):
   * when the snapshot before the last may be reverted to, the clocks,
   * the teams' counters, the tick count and the state are written back
   * from it, it is unended and becomes the active snapshot, and the last
   * snapshot is dropped.
   */
  function RevertWith(g: Game, second: bool): Game
  {
    if |g.snapshots| <= 1 then g
    else
      var last := g.snapshots[|g.snapshots| - 2];
      if !last.canRevert then g
      else
        Resumed(RestoredFrom(g, last.clocks, last.teams.team0, TeamAt(last.teams, second)), last.endTicks, last.state)
  }

  /** When the snapshot before the last may be reverted to, undo is the write-back from it. */
  lemma RevertWithGoesBack(g: Game, second: bool)
    requires |g.snapshots| > 1 && g.snapshots[|g.snapshots| - 2].canRevert
    ensures var last := g.snapshots[|g.snapshots| - 2];
      RevertWith(g, second) == Resumed(RestoredFrom(g, last.clocks, last.teams.team0, TeamAt(last.teams, second)), last.endTicks, last.state)
  {
  }

  /** The clocks written back from `c`, team 1's counters from `first` and team 2's from `other`. */
  function RestoredFrom(g: Game, c: SnapClocks, first: SnapTeam, other: SnapTeam): Game
  {
    g.(clocks := Restore(g.clocks, c), team1 := RestoreTeam(g.team1, first), team2 := RestoreTeam(g.team2, other))
  }

  /**
   * The close of undo's write-back: the tick count and the state set, the
   * last snapshot dropped, and the one before it unended at those ticks and
   * made active.
   */
  function Resumed(g: Game, ticks: int, s: string): Game
    requires |g.snapshots| > 1
  {
    Reactivated(WithState(g.(ticks := ticks), s))
  }

  /** The last snapshot dropped; the one before it unended at the current ticks and made active. */
  function Reactivated(g: Game): Game
    requires |g.snapshots| > 1
  {
    var kept := g.snapshots[..|g.snapshots| - 1];
    g.(snapshots := kept[|kept| - 1 := Unended(g.snapshots[|g.snapshots| - 2], g.ticks)], active := |kept| - 1)
  }

  /** undo's revert as written. */
  function Reverted(g: Game): Game
  {
    RevertWith(g, false)
  }

  /** undo's revert with each team restored from its own snapshot team. */
  function RevertedCorrected(g: Game): Game
  {
    RevertWith(g, true)
  }

  // ------------------------------------------------------------- round trips

  /**
   * The scoreboard settled in a state: the active snapshot is the last
   * one, has not ended, and describes the game as it stands (state, teams'
   * counters, clocks' running flags and numbers, an up-to-date length);
   * the clocks are within their bounds and the period clock is adjustable
   * exactly in a timeout state.
   */
  predicate Settled(g: Game)
  {
    && |g.snapshots| > 0 && g.active == |g.snapshots| - 1
    && var a := g.snapshots[g.active];
    && Current(a) && a.state == g.state && a.teams == SnapTeams(TeamOf(g.team1), TeamOf(g.team2))
    && Describes(a.clocks, g.clocks) && LengthAt(a, g.ticks) == a
    && InRanges(g.clocks) && g.clocks.period.adjustable == IsTimeoutState(g.state)
  }

  /** A team whose only changes are to the counters a snapshot records. */
  predicate CountersOnly(before: Teams.TeamInfo, after: Teams.TeamInfo)
  {
    after == before.(timeouts := after.timeouts, officialReviews := after.officialReviews,
                     officialReviewRetained := after.officialReviewRetained)
  }

  /**
   * What a revertible transition does: it ends the active snapshot with
   * undo allowed and starts a new one; it changes the clocks only within
   * their bounds (and the period clock's adjustable flag), the teams only
   * in their counters, and not the ticks or the start time.
   */
  predicate Revertible(g: Game, h: Game)
  {
    && h.ticks == g.ticks && h.startTime == g.startTime
    && |h.snapshots| == |g.snapshots| + 1 && h.active == |g.snapshots|
    && h.snapshots[..|g.snapshots|] == SnapshotEnd(g, true).snapshots
    && (forall id :: SameBounds(Get(h.clocks, id), Get(g.clocks, id)))
    && (forall id :: id != Period ==> Get(h.clocks, id).adjustable == Get(g.clocks, id).adjustable)
    && CountersOnly(g.team1, h.team1) && CountersOnly(g.team2, h.team2)
  }

  /**
   * Undo's round trip: reverting a revertible transition out of a
   * settled game gives the game back, with the corrected revert always;
   * with the revert as written exactly when both teams' counters agree.
   */
  lemma RevertUndoes(g: Game, h: Game)
    requires Settled(g) && Revertible(g, h)
    ensures RevertedCorrected(h) == g
    ensures Reverted(h) == g <==> TeamOf(g.team1) == TeamOf(g.team2)
  {
    var a := g.snapshots[g.active];
    var ct := CurrentTime(g.startTime, g.ticks);
    var last := Ended(a, true, ct, g.ticks, g.clocks);
    assert h.snapshots[..|g.snapshots|][g.active] == last;
    assert h.snapshots[|h.snapshots| - 2] == last;
    EndRecords(a, true, ct, g.ticks, g.clocks);
    UnendUndoesEnd(a, true, ct, g.ticks, g.clocks, g.ticks);
    RestoreUndoes(a, true, ct, g.ticks, g.clocks, h.clocks);
    var c := WithState(h.(clocks := Restore(h.clocks, last.clocks)), a.state).clocks;
    forall id
      ensures Get(c, id) == Get(g.clocks, id)
    {
      GetSet(Restore(h.clocks, last.clocks), Period, Get(Restore(h.clocks, last.clocks), Period).(adjustable := IsTimeoutState(a.state)));
    }
    assert c == g.clocks by {
      assert c.period == Get(c, Period) && c.jam == Get(c, Jam) && c.lineup == Get(c, Lineup);
      assert c.timeout == Get(c, Timeout) && c.intermission == Get(c, Intermission);
    }
    var kept := h.snapshots[..|h.snapshots| - 1];
    assert kept == SnapshotEnd(g, true).snapshots;
    assert kept[|kept| - 1 := Unended(last, last.endTicks)] == g.snapshots;
    RestoreTeamUndoes(g.team1, h.team1);
    RestoreTeamUndoes(g.team2, h.team2);
  }

  /** `h` is `g` with another state and with its clocks moved within their bounds. */
  predicate ClocksMoved(g: Game, h: Game)
  {
    && h == g.(state := h.state, clocks := h.clocks)
    && (forall id :: SameBounds(Get(h.clocks, id), Get(g.clocks, id)))
    && (forall id :: id != Period ==> Get(h.clocks, id).adjustable == Get(g.clocks, id).adjustable)
  }

  lemma ClocksMovedTrans(a: Game, b: Game, c: Game)
    requires ClocksMoved(a, b) && ClocksMoved(b, c)
    ensures ClocksMoved(a, c)
  {
  }

  lemma WithStateMoves(g: Game, s: string)
    ensures ClocksMoved(g, WithState(g, s))
  {
    GetSet(g.clocks, Period, g.clocks.period.(adjustable := IsTimeoutState(s)));
  }

  lemma WithResetMoves(g: Game, id: ClockId, full: bool, incNumber: bool)
    ensures ClocksMoved(g, WithReset(g, id, full, incNumber))
  {
    GetSet(g.clocks, id, AfterReset(Get(g.clocks, id), full, incNumber));
  }

  lemma RunningMoves(g: Game, ids: seq<ClockId>)
    ensures ClocksMoved(g, Running(g, ids))
  {
    RunningExactly(g.clocks, ids, true);
  }

  /** The common tail of startJam, stopJam, timeout and endTimeout: a state, a reset clock, the clocks to run. */
  lemma SwitchMoves(g: Game, s: string, id: ClockId, incNumber: bool, ids: seq<ClockId>)
    ensures ClocksMoved(g, Running(WithReset(WithState(g, s), id, false, incNumber), ids))
  {
    var a := WithState(g, s);
    var b := WithReset(a, id, false, incNumber);
    WithStateMoves(g, s);
    WithResetMoves(a, id, false, incNumber);
    RunningMoves(b, ids);
    ClocksMovedTrans(g, a, b);
    ClocksMovedTrans(g, b, Running(b, ids));
  }

  /** A game whose clocks moved, with a new snapshot started, is a revertible step from `g`. */
  lemma StartedRevertible(g: Game, m: Game)
    requires Settled(g) && ClocksMoved(SnapshotEnd(g, true).(team1 := m.team1, team2 := m.team2), m)
    requires CountersOnly(g.team1, m.team1) && CountersOnly(g.team2, m.team2)
    ensures Revertible(g, SnapshotStart(m))
  {
    var h := SnapshotStart(m);
    assert h.snapshots[..|g.snapshots|] == m.snapshots;
  }

  /** Undo after startJam, out of a settled game not in a jam. */
  lemma UndoStartJam(g: Game)
    requires Settled(g) && g.state != StateJam
    ensures Revertible(g, AfterStartJam(g))
    ensures RevertedCorrected(AfterStartJam(g)) == g
    ensures Reverted(AfterStartJam(g)) == g <==> TeamOf(g.team1) == TeamOf(g.team2)
  {
    var e := SnapshotEnd(g, true);
    var i := if g.state == StateIntermission && e.clocks.intermission.time.num < Quot(e.clocks.intermission.time.max, 2)
      then AfterEndOfIntermission(e) else e;
    if i != e {
      var p := WithReset(e, Period, false, true);
      WithResetMoves(e, Period, false, true);
      WithResetMoves(p, Jam, true, false);
      ClocksMovedTrans(e, p, i);
    }
    SwitchMoves(i, StateJam, Jam, true, [Period, Jam]);
    ClocksMovedTrans(e, i, Running(WithReset(WithState(i, StateJam), Jam, false, true), [Period, Jam]));
    StartedRevertible(g, Running(WithReset(WithState(i, StateJam), Jam, false, true), [Period, Jam]));
    RevertUndoes(g, AfterStartJam(g));
  }

  /** endOfPeriod with undo allowed is a revertible step. */
  lemma EndOfPeriodRevertible(g: Game)
    requires Settled(g)
    ensures Revertible(g, AfterEndOfPeriod(g, true))
  {
    var e := SnapshotEnd(g, true);
    if e.clocks.period.number.num == 1 {
      SwitchMoves(e, StateIntermission, Intermission, false, [Intermission]);
      StartedRevertible(g, Running(WithReset(WithState(e, StateIntermission), Intermission, false, false), [Intermission]));
    } else {
      WithStateMoves(e, StateUnofficial);
      RunningMoves(WithState(e, StateUnofficial), []);
      ClocksMovedTrans(e, WithState(e, StateUnofficial), Running(WithState(e, StateUnofficial), []));
      StartedRevertible(g, Running(WithState(e, StateUnofficial), []));
    }
  }

  /** Undo after stopJam, out of a settled jam whose clock moved (or whose period is over). */
  lemma UndoStopJam(g: Game)
    requires Settled(g) && g.state == StateJam
    requires g.clocks.period.running ==> g.clocks.jam.time.num != g.clocks.jam.time.min
    ensures Revertible(g, AfterStopJam(g))
    ensures RevertedCorrected(AfterStopJam(g)) == g
    ensures Reverted(AfterStopJam(g)) == g <==> TeamOf(g.team1) == TeamOf(g.team2)
  {
    if !g.clocks.period.running {
      EndOfPeriodRevertible(g);
    } else {
      var e := SnapshotEnd(g, true);
      SwitchMoves(e, StateLineup, Lineup, false, [Period, Lineup]);
      StartedRevertible(g, Running(WithReset(WithState(e, StateLineup), Lineup, false, false), [Period, Lineup]));
    }
    RevertUndoes(g, AfterStopJam(g));
  }

  /** Undo after a timeout that was granted. */
  lemma UndoTimeout(g: Game, data: seq<string>)
    requires Settled(g) && !Refused(g, TimeoutState(data))
    ensures Revertible(g, AfterTimeout(g, data))
    ensures RevertedCorrected(AfterTimeout(g, data)) == g
    ensures Reverted(AfterTimeout(g, data)) == g <==> TeamOf(g.team1) == TeamOf(g.team2)
  {
    var s := TimeoutState(data);
    var u := Used(SnapshotEnd(g, true), s);
    SwitchMoves(u, s, Timeout, false, [Timeout]);
    StartedRevertible(g, Running(WithReset(WithState(u, s), Timeout, false, false), [Timeout]));
    RevertUndoes(g, AfterTimeout(g, data));
  }

  /** Undo after endTimeout. */
  lemma UndoEndTimeout(g: Game)
    requires Settled(g) && IsTimeoutState(g.state)
    ensures Revertible(g, AfterEndTimeout(g))
    ensures RevertedCorrected(AfterEndTimeout(g)) == g
    ensures Reverted(AfterEndTimeout(g)) == g <==> TeamOf(g.team1) == TeamOf(g.team2)
  {
    var e := SnapshotEnd(g, true);
    SwitchMoves(e, StateLineup, Lineup, false, [Lineup]);
    StartedRevertible(g, Running(WithReset(WithState(e, StateLineup), Lineup, false, false), [Lineup]));
    RevertUndoes(g, AfterEndTimeout(g));
  }

  /** A refused timeout leaves a settled game as it was: its end and unend cancel. */
  lemma RefusedTimeoutKeeps(g: Game, data: seq<string>)
    requires Settled(g) && Refused(g, TimeoutState(data))
    ensures AfterTimeout(g, data) == g
  {
    var a := g.snapshots[g.active];
    UnendUndoesEnd(a, true, CurrentTime(g.startTime, g.ticks), g.ticks, g.clocks, g.ticks);
    assert SnapshotUnend(SnapshotEnd(g, true)).snapshots == g.snapshots;
  }

  /**
   * A tick on which no clock runs out keeps the game settled: the running
   * clocks move within their bounds, none stops, and the length follows.
   * So undo still goes back exactly after any number of quiet ticks.
   */
  lemma QuietTickSettled(g: Game)
    requires Settled(g) && !AnyExpired(g.clocks)
    ensures Settled(TickOnce(g))
  {
    var v := MapAll(g.clocks, Ticked);
    GetMapAll(g.clocks, Ticked);
    forall id
      ensures Get(v, id).running == Get(g.clocks, id).running && Get(v, id).number == Get(g.clocks, id).number
      ensures InRange(Get(v, id).time)
    {
      if Get(g.clocks, id).running {
        TickMoves(Get(g.clocks, id), ClockTimeTick);
      }
    }
    var a := g.snapshots[g.active];
    assert TickOnce(g).snapshots == g.snapshots[g.active := LengthAt(a, g.ticks + 1)];
  }
}
