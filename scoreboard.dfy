/**
 * The scoreboard controller (scoreboard/scoreboard.go, with blankJam,
 * newJam and findJam from scoreboard/jam.go, findStateSnapshot and the snapshot
 * updaters from scoreboard/state_snapshot.go and ticker from
 * scoreboard/master_clock.go) as a class over its teams, its master
 * clock, its snapshots and its jams. Every transition is proved against
 * the function of module GameRules that describes it on values, through
 * View(); the jams and the rosters, which are objects, are stated here.
 */
module Scoreboards {
  import opened GoBase
  import opened GoStrconv
  import opened Utils
  import opened MinMax
  import opened Clocks
  import opened MasterClocks
  import opened Snapshots
  import opened GameRules
  import Skaters
  import Teams
  import Jams

  /** What a snapshot updater answers: an error or none, or a panic on a negative index. */
  datatype Reply = Replied(err: Option<Error>) | Panics

  /** What undo did: nothing, a revert, or a panic indexing the jam list. */
  datatype UndoResult = NoUndo | Undid | UndoPanics

  /** A team's roster with the jammer and pivot ids it tracks. */
  datatype Roster = Roster(skaters: map<string, Skaters.Skater>, jammer: string, pivot: string)

  /** newJam on one team: every skater out of the box benched, as Team.BenchAll promises. */
  predicate Benched(before: Roster, after: Roster)
  {
    Teams.BenchProgress(before.skaters, before.jammer, before.pivot, {}, after.skaters, after.jammer, after.pivot)
  }

  /** The jam team newJam records for a roster: its skaters' positions taken in some order. */
  ghost predicate TeamRecorded(m: map<string, Skaters.Skater>, jt: Jams.JamTeam)
  {
    exists order, ss :: Jams.Enumerates(m, order, {}) && Jams.Lists(m, order, ss)
      && jt == Jams.RecordedAsWritten(Jams.EmptyJamTeam, ss)
  }

  function RosterOf(t: Teams.Team): Roster
    reads t
  {
    Roster(t.skaters, t.jammer, t.pivot)
  }

  /**
   * newJam's loop over one team: every skater sent to the bench, then the
   * team's positions recorded in the new jam `j`, still blank for it.
   */
  method FieldTeam(t: Teams.Team, j: Jams.Jam, teamId: int)
    requires t.Valid() && (teamId == 1 || teamId == 2) && Jams.RecordOf(j.teams, teamId) == Jams.EmptyJamTeam
    modifies t, j
    ensures t.Valid() && t.Info() == old(t.Info()) && Benched(old(RosterOf(t)), RosterOf(t))
    ensures TeamRecorded(t.skaters, Jams.RecordOf(j.teams, teamId))
    ensures Jams.RecordOf(j.teams, 3 - teamId) == old(Jams.RecordOf(j.teams, 3 - teamId))
    ensures j.period == old(j.period) && j.jam == old(j.jam) && j.live == old(j.live)
  {
    t.BenchAll();
    var order, ss := j.RecordTeam(teamId, t.skaters);
    assert Jams.Enumerates(t.skaters, order, {}) && Jams.Lists(t.skaters, order, ss)
      && Jams.RecordOf(j.teams, teamId) == Jams.RecordedAsWritten(Jams.EmptyJamTeam, ss);
  }

  /** The period and jam numbers newJam gives the jam it adds to a list of `count` jams. */
  function NewJamNumbers(count: int, periodNumber: int, jamNumber: int): (int, int)
  {
    if count == 0 then (1, 1) else (periodNumber, jamNumber + 1)
  }

  /** newJam's blank jam number `idx`, numbered after the period and jam numbers it is given. */
  method NumberedJam(idx: int, lastJam: Jams.Jam?, periodNumber: int, jamNumber: int) returns (j: Jams.Jam)
    ensures fresh(j) && j.idx == idx && j.lastJam == lastJam && j.live
    ensures (j.period, j.jam) == NewJamNumbers(idx, periodNumber, jamNumber)
    ensures j.teams == Jams.JamTeams(Jams.EmptyJamTeam, Jams.EmptyJamTeam)
  {
    j := new Jams.Jam.Blank(idx, lastJam);
    if idx == 0 {
      j.UpdateJam(1, 1);
    } else {
      j.UpdateJam(periodNumber, jamNumber + 1);
    }
  }

  /** What team reset leaves in team `id`'s counters and names. */
  function ResetInfo(id: int): Teams.TeamInfo
  {
    Teams.TeamInfo("Team " + FormatInt(id), if id == 1 then "Black" else "White", Teams.Scores(0, 0), 3, 1, false, Teams.LeadNo, false)
  }

  /** One team's timeout (or, with `review`, official review) used when it has one left. */
  method UseTeam(t: Teams.Team, review: bool) returns (ok: bool)
    requires t.Valid()
    modifies t
    ensures t.Valid() && RosterOf(t) == old(RosterOf(t))
    ensures ok == if review then old(t.officialReviews) > 0 else old(t.timeouts) > 0
    ensures t.Info() == if !ok then old(t.Info())
      else if review then old(t.Info()).(officialReviews := old(t.officialReviews) - 1)
      else old(t.Info()).(timeouts := old(t.timeouts) - 1)
  {
    if review {
      ok := t.UseOfficialReview();
    } else {
      ok := t.UseTimeout();
    }
  }

  /** undo's write-back of one team's counters from snapshot team `s`. */
  method RestoreCounters(t: Teams.Team, s: SnapTeam)
    requires t.Valid()
    modifies t
    ensures t.Valid() && RosterOf(t) == old(RosterOf(t)) && t.Info() == RestoreTeam(old(t.Info()), s)
  {
    t.SetTimeouts(s.timeouts);
    t.SetOfficialReviews(s.officialReviews);
    t.SetOfficialReviewRetained(s.officialReviewRetained);
  }

  /** undo's loop over the snapshot's clocks: each clock's running flag, time and number written back. */
  method RestoreClocks(mc: MasterClock, c: SnapClocks)
    requires mc.Valid()
    modifies mc.Objs()
    ensures mc.Valid() && mc.View() == Restore(old(mc.View()), c)
  {
    ghost var v := mc.View();
    for k := 0 to 5
      invariant mc.Valid() && mc.View() == RestoreFirst(v, c, k)
    {
      var s := ClockAt(c, AllIds[k]);
      mc.RestoreId(AllIds[k], s.running, s.endTime, s.number);
    }
    RestoreFirstAll(v, c);
  }

  /** reset's loop over the jams: each one deleted. */
  method DeleteJams(js: seq<Jams.Jam>)
    modifies js
    ensures forall j :: j in js ==> !j.live
  {
    for i := 0 to |js|
      invariant forall k :: 0 <= k < i ==> !js[k].live
    {
      js[i].Delete();
    }
  }

  /** The teams and the master clock a new scoreboard owns, before reset fills them in. */
  method NewParts() returns (t1: Teams.Team, t2: Teams.Team, mc: MasterClock)
    ensures fresh(t1) && fresh(t2) && fresh(mc) && fresh(mc.Objs())
    ensures t1 != t2 && t1.id == 1 && t2.id == 2 && t1.Valid() && t2.Valid()
    ensures mc.Valid() && mc.syncClocks && t1 !in mc.Objs() && t2 !in mc.Objs()
  {
    t1 := new Teams.Team(1);
    t2 := new Teams.Team(2);
    mc := new MasterClock();
  }

  class Scoreboard {
    const team1: Teams.Team
    const team2: Teams.Team
    const clock: MasterClock
    var state: string
    var snapshots: seq<Snapshot>
    /** activeSnapshot, as an index into snapshots. */
    var active: nat
    var jams: seq<Jams.Jam>
    var activeJam: Jams.Jam?

    /** Everything but an active snapshot and jam, which reset clears and rebuilds. */
    ghost predicate Parts()
      reads this, team1, team2, clock, clock.Objs()
    {
      && TeamsValid() && clock.Valid() && clock.syncClocks && Indexed(snapshots)
      && this !in clock.Objs() && team1 !in clock.Objs() && team2 !in clock.Objs() && activeJam !in clock.Objs()
      && forall i :: 0 <= i < |jams| ==> jams[i] !in clock.Objs()
    }

    ghost predicate TeamsValid()
      reads this, team1, team2
    {
      team1 != team2 && team1.id == 1 && team2.id == 2 && team1.Valid() && team2.Valid()
    }

    ghost predicate Valid()
      reads this, team1, team2, clock, clock.Objs()
    {
      Parts() && active < |snapshots| && activeJam != null
    }

    /** The scoreboard as the values module GameRules works on. */
    function View(): Game
      reads this, team1, team2, clock, clock.Objs()
    {
      Game(state, clock.View(), clock.ticks, clock.startTime, team1.Info(), team2.Info(), snapshots, active)
    }

    function Rosters(): (Roster, Roster)
      reads team1, team2
    {
      (RosterOf(team1), RosterOf(team2))
    }

    /** New, with `now` the time reset reads from the clock. */
    constructor(now: Time)
      ensures Valid() && state == StateNotRunning && clock.ticks == 0 && clock.startTime == now
      ensures |snapshots| == 1 && |jams| == 1 && activeJam == jams[0]
      ensures team1.Info() == ResetInfo(1) && team2.Info() == ResetInfo(2)
    {
      state := StateNotRunning;
      snapshots := [];
      active := 0;
      jams := [];
      activeJam := null;
      var t1, t2, mc := NewParts();
      team1, team2, clock := t1, t2, mc;
      new;
      assert this !in clock.Objs();
      assert Parts();
      Reset(now);
    }

    /** setState */
    method SetState(s: string)
      requires Parts()
      modifies this, clock.period
      ensures Parts() && View() == WithState(old(View()), s)
      ensures jams == old(jams) && activeJam == old(activeJam)
    {
      state := s;
      clock.AdjustableId(Period, IsTimeoutState(s));
    }

    /** snapshotStateStart: a snapshot of the game as it stands is appended and becomes the active one. */
    method SnapshotStateStart()
      requires Parts()
      modifies this
      ensures Parts() && active < |snapshots| && View() == SnapshotStart(old(View()))
      ensures jams == old(jams) && activeJam == old(activeJam)
    {
      var s := NewSnapshot(|snapshots|, state, clock.ticks, CurrentTime(clock.startTime, clock.ticks),
                           team1.Info(), team2.Info(), clock.View());
      active := |snapshots|;
      snapshots := snapshots + [s];
    }

    /** snapshotStateEnd: the active snapshot ended now. */
    method SnapshotStateEnd(canUndo: bool)
      requires Parts()
      modifies this
      ensures Parts() && View() == SnapshotEnd(old(View()), canUndo)
      ensures jams == old(jams) && activeJam == old(activeJam)
    {
      if active < |snapshots| {
        var s := Ended(snapshots[active], canUndo, CurrentTime(clock.startTime, clock.ticks), clock.ticks, clock.View());
        snapshots := snapshots[active := s];
      }
    }

    /** endOfIntermission */
    method EndOfIntermission()
      requires Parts()
      ensures Parts() && View() == AfterEndOfIntermission(old(View()))
      modifies clock.Objs()
    {
      clock.ResetIdWith(Period, false, true);
      clock.ResetIdWith(Jam, true, false);
    }

    /** One clock reset, then exactly the listed clocks running (setRunningClocks). */
    method RestartClocks(id: ClockId, full: bool, incNumber: bool, ids: seq<ClockId>)
      requires Parts()
      modifies clock.Objs()
      ensures Parts() && View() == Running(WithReset(old(View()), id, full, incNumber), ids)
    {
      ghost var g := View();
      clock.ResetIdWith(id, full, incNumber);
      assert View() == WithReset(g, id, full, incNumber);
      clock.SetRunningClocks(ids);
    }

    /** The middle of endOfPeriod: intermission after period 1, otherwise the unofficial final. */
    method PeriodOver()
      requires Parts()
      modifies this, clock.Objs()
      ensures Parts() && jams == old(jams) && activeJam == old(activeJam)
      ensures View() == if old(clock.period.number.num) == 1
        then Running(WithReset(WithState(old(View()), StateIntermission), Intermission, false, false), [Intermission])
        else Running(WithState(old(View()), StateUnofficial), [])
    {
      if clock.period.number.num == 1 {
        SetState(StateIntermission);
        RestartClocks(Intermission, false, false, [Intermission]);
      } else {
        SetState(StateUnofficial);
        clock.SetRunningClocks([]);
      }
    }

    /** endOfPeriod */
    method EndOfPeriod(canUndo: bool)
      requires Parts()
      modifies this, clock.Objs()
      ensures Parts() && active < |snapshots| && View() == AfterEndOfPeriod(old(View()), canUndo)
      ensures jams == old(jams) && activeJam == old(activeJam)
    {
      SnapshotStateEnd(canUndo);
      PeriodOver();
      SnapshotStateStart();
    }

    /** The active snapshot unended (the refused branch of timeout). */
    method SnapshotStateUnend()
      requires Parts()
      modifies this
      ensures Parts() && View() == SnapshotUnend(old(View()))
      ensures jams == old(jams) && activeJam == old(activeJam)
    {
      if active < |snapshots| {
        snapshots := snapshots[active := Unended(snapshots[active], clock.ticks)];
      }
    }

    /** updateLength on the active snapshot. */
    method SnapshotStateLength()
      requires Parts()
      modifies this
      ensures Parts() && View() == SnapshotLength(old(View()))
      ensures jams == old(jams) && activeJam == old(activeJam)
    {
      if active < |snapshots| {
        snapshots := snapshots[active := LengthAt(snapshots[active], clock.ticks)];
      }
    }

    /**
     * What newJam leaves: the jam `a` appended to `oldJams`, giving `js`, and made active,
     * numbered by its place, following `oldActive`, in period `numbers.0`
     * as jam `numbers.1`; each team benched from `before` and recorded.
     */
    ghost predicate JamAdded(js: seq<Jams.Jam>, a: Jams.Jam?, oldJams: seq<Jams.Jam>, oldActive: Jams.Jam?,
                             before: (Roster, Roster), numbers: (int, int))
      reads team1, team2, a
    {
      && a != null && js == oldJams + [a]
      && a.idx == |oldJams| && a.lastJam == oldActive && a.live
      && a.period == numbers.0 && a.jam == numbers.1
      && Benched(before.0, RosterOf(team1)) && Benched(before.1, RosterOf(team2))
      && TeamRecorded(team1.skaters, a.teams.first) && TeamRecorded(team2.skaters, a.teams.second)
    }

    /**
     * newJam: a blank jam appended and made active, numbered from the
     * clocks (period 1, jam 1 for the first); every skater of each team
     * sent to the bench, then each team's positions recorded in the jam.
     */
    method NewJam()
      requires Parts()
      modifies this, team1, team2
      ensures Parts() && View() == old(View()) && fresh(activeJam)
      ensures JamAdded(jams, activeJam, old(jams), old(activeJam), old(Rosters()),
                       NewJamNumbers(|old(jams)|, old(clock.period.number.num), old(clock.jam.number.num)))
    {
      AppendJam();
      FieldTeams();
    }

    /** newJam's first half: a blank jam appended, made active and numbered. */
    method AppendJam()
      requires Parts()
      modifies this
      ensures Parts() && View() == old(View()) && fresh(activeJam) && jams == old(jams) + [activeJam]
      ensures activeJam.idx == |old(jams)| && activeJam.lastJam == old(activeJam) && activeJam.live
      ensures (activeJam.period, activeJam.jam) ==
              NewJamNumbers(|old(jams)|, clock.period.number.num, clock.jam.number.num)
      ensures activeJam.teams == Jams.JamTeams(Jams.EmptyJamTeam, Jams.EmptyJamTeam)
    {
      var j := NumberedJam(|jams|, activeJam, clock.period.number.num, clock.jam.number.num);
      jams := jams + [j];
      activeJam := j;
    }

    /** newJam's loop over the teams, on the jam it just made active. */
    method FieldTeams()
      requires Parts() && activeJam != null && activeJam.teams == Jams.JamTeams(Jams.EmptyJamTeam, Jams.EmptyJamTeam)
      modifies team1, team2, activeJam
      ensures Parts() && View() == old(View())
      ensures activeJam.idx == old(activeJam.idx) && activeJam.lastJam == old(activeJam.lastJam) && activeJam.live == old(activeJam.live)
      ensures activeJam.period == old(activeJam.period) && activeJam.jam == old(activeJam.jam)
      ensures Benched(old(RosterOf(team1)), RosterOf(team1)) && Benched(old(RosterOf(team2)), RosterOf(team2))
      ensures TeamRecorded(team1.skaters, activeJam.teams.first) && TeamRecorded(team2.skaters, activeJam.teams.second)
    {
      ghost var g := View();
      FieldTeam(team1, activeJam, 1);
      assert View() == g;
      FieldTeam(team2, activeJam, 2);
      assert View() == g;
    }

    /** The middle of startJam: the intermission may end, then the jam starts on the clocks. */
    method JamStarting()
      requires Parts()
      modifies this, clock.Objs()
      ensures Parts() && jams == old(jams) && activeJam == old(activeJam)
      ensures View() == JamStarted(old(View()))
    {
      if state == StateIntermission && clock.intermission.time.num < Quot(clock.intermission.time.max, 2) {
        EndOfIntermission();
      }
      SetState(StateJam);
      RestartClocks(Jam, false, true, [Period, Jam]);
    }

    /** startJam */
    method StartJam()
      requires Valid()
      modifies this, clock.Objs(), activeJam
      ensures Valid() && View() == AfterStartJam(old(View()))
      ensures jams == old(jams) && activeJam == old(activeJam)
      ensures activeJam.teams == old(activeJam.teams) && activeJam.live == old(activeJam.live)
      ensures old(state) == StateJam ==> activeJam.period == old(activeJam.period) && activeJam.jam == old(activeJam.jam)
      ensures old(state) != StateJam ==> activeJam.period == clock.period.number.num && activeJam.jam == clock.jam.number.num
    {
      if state == StateJam {
        return;
      }
      SnapshotStateEnd(true);
      JamStarting();
      NumberActiveJam();
      SnapshotStateStart();
    }

    /** The active jam takes the period and jam numbers the clocks show. */
    method NumberActiveJam()
      requires Valid()
      modifies activeJam
      ensures Valid() && View() == old(View())
      ensures activeJam.period == clock.period.number.num && activeJam.jam == clock.jam.number.num
      ensures activeJam.teams == old(activeJam.teams) && activeJam.live == old(activeJam.live)
    {
      activeJam.UpdateJam(clock.period.number.num, clock.jam.number.num);
    }

    /** The middle of stopJam, outside the end of a period: lineup, a new jam, and the lineup clock. */
    method JamStopping()
      requires Parts()
      modifies this, clock.Objs(), team1, team2
      ensures Parts() && View() == LineupStarted(old(View()))
      ensures fresh(activeJam)
      ensures JamAdded(jams, activeJam, old(jams), old(activeJam), old(Rosters()),
                       NewJamNumbers(|old(jams)|, old(clock.period.number.num), old(clock.jam.number.num)))
    {
      SetState(StateLineup);
      NewJam();
      RestartClocks(Lineup, false, false, [Period, Lineup]);
    }

    /** stopJam */
    method StopJam()
      requires Valid()
      modifies this, clock.Objs(), team1, team2
      ensures Valid() && View() == AfterStopJam(old(View()))
      ensures var added := old(state) == StateJam && old(clock.period.running);
        && (added ==> fresh(activeJam) && JamAdded(jams, activeJam, old(jams), old(activeJam), old(Rosters()),
                        NewJamNumbers(|old(jams)|, old(clock.period.number.num), old(clock.jam.number.num))))
        && (!added ==> jams == old(jams) && activeJam == old(activeJam) && Rosters() == old(Rosters()))
    {
      if state != StateJam {
        return;
      }
      if !clock.period.running {
        EndOfPeriod(true);
        return;
      }
      JamOver();
    }

    /** stopJam with the period clock still running: the snapshot ends, lineup begins with a new jam. */
    method JamOver()
      requires Valid()
      modifies this, clock.Objs(), team1, team2
      ensures Valid() && fresh(activeJam)
      ensures View() == SnapshotStart(LineupStarted(SnapshotEnd(old(View()), old(clock.jam.time.num != clock.jam.time.min))))
      ensures JamAdded(jams, activeJam, old(jams), old(activeJam), old(Rosters()),
                       NewJamNumbers(|old(jams)|, old(clock.period.number.num), old(clock.jam.number.num)))
    {
      SnapshotStateEnd(clock.jam.time.num != clock.jam.time.min);
      LineupBegins();
    }

    /** JamStopping, then the new snapshot. */
    method LineupBegins()
      requires Valid()
      modifies this, clock.Objs(), team1, team2
      ensures Valid() && fresh(activeJam) && View() == SnapshotStart(LineupStarted(old(View())))
      ensures JamAdded(jams, activeJam, old(jams), old(activeJam), old(Rosters()),
                       NewJamNumbers(|old(jams)|, old(clock.period.number.num), old(clock.jam.number.num)))
    {
      JamStopping();
      SnapshotStateStart();
    }

    /** timeout's switch: the team's timeout or review used, or the request refused. */
    method UseFor(s: string) returns (ok: bool)
      requires Parts()
      modifies team1, team2
      ensures Parts() && ok == !Refused(old(View()), s) && Rosters() == old(Rosters())
      ensures View() == if ok then Used(old(View()), s) else old(View())
    {
      ok := true;
      if s == StateOTO {
        ok := state != StateOTO;
      } else if s == StateTTO1 {
        ok := UseTeam(team1, false);
      } else if s == StateTTO2 {
        ok := UseTeam(team2, false);
      } else if s == StateOR1 {
        ok := UseTeam(team1, true);
      } else if s == StateOR2 {
        ok := UseTeam(team2, true);
      }
    }

    /** timeout (the Scoreboard.Timeout command) */
    method CallTimeout(data: seq<string>)
      requires Valid()
      modifies this, clock.Objs(), team1, team2
      ensures Valid() && View() == AfterTimeout(old(View()), data)
      ensures jams == old(jams) && activeJam == old(activeJam) && Rosters() == old(Rosters())
    {
      ghost var g := View();
      var s := TimeoutState(data);
      SnapshotStateEnd(true);
      var ok := UseFor(s);
      if !ok {
        SnapshotStateUnend();
        TimeoutRefusedGoesBack(g, data);
        return;
      }
      EnterAlone(s, Timeout);
      TimeoutTakenStarts(g, data);
    }

    /** The state set, the one clock reset and running alone, and a new snapshot started: the tail of timeout and endTimeout. */
    method EnterAlone(s: string, id: ClockId)
      requires Parts() && activeJam != null
      modifies this, clock.Objs()
      ensures Valid() && View() == SnapshotStart(Running(WithReset(WithState(old(View()), s), id, false, false), [id]))
      ensures jams == old(jams) && activeJam == old(activeJam) && Rosters() == old(Rosters())
    {
      SetState(s);
      RestartClocks(id, false, false, [id]);
      SnapshotStateStart();
    }

    /** endTimeout */
    method EndTimeout()
      requires Valid()
      modifies this, clock.Objs()
      ensures Valid() && View() == AfterEndTimeout(old(View()))
      ensures jams == old(jams) && activeJam == old(activeJam)
    {
      if !IsTimeoutState(state) {
        return;
      }
      SnapshotStateEnd(true);
      EnterAlone(StateLineup, Lineup);
    }

    /** clocksExpired */
    method ClocksExpired()
      requires Valid()
      modifies this, clock.Objs(), team1, team2, activeJam
      ensures Valid() && View() == AfterClocksExpired(old(View()))
      ensures var added := old(state) == StateJam && !old(clock.jam.running) && old(clock.period.running);
        && (added ==> fresh(activeJam) && JamAdded(jams, activeJam, old(jams), old(activeJam), old(Rosters()),
                        NewJamNumbers(|old(jams)|, old(clock.period.number.num), old(clock.jam.number.num))))
        && (!added ==> jams == old(jams) && activeJam == old(activeJam) && Rosters() == old(Rosters()))
    {
      if state == StateLineup {
        if !clock.period.running {
          EndOfPeriod(false);
        } else {
          StartJam();
        }
      } else if state == StateJam {
        if !clock.jam.running {
          if !clock.period.running {
            EndOfPeriod(false);
            return;
          }
          StopJam();
        }
      } else if state == StateIntermission {
        if clock.intermission.number.num == 1 {
          EndOfIntermission();
        }
      }
    }

    /** One pass of ticker's loop. */
    method TickPass()
      requires Valid()
      modifies this, clock, clock.Objs(), team1, team2, activeJam
      ensures Valid() && View() == TickOnce(old(View()))
      ensures activeJam == old(activeJam) || fresh(activeJam)
    {
      var expired := TickClocks();
      if expired {
        ClocksExpired();
      }
    }

    /** The clock part of a pass: the running clocks ticked and counted, the active snapshot's length brought up to date. */
    method TickClocks() returns (expired: bool)
      requires Valid()
      modifies this, clock, clock.Objs()
      ensures Valid() && jams == old(jams) && activeJam == old(activeJam) && expired == AnyExpired(old(View()).clocks)
      ensures View() == SnapshotLength(old(View()).(clocks := MapAll(old(View()).clocks, Ticked), ticks := old(View()).ticks + 1))
    {
      expired := clock.TickClocks();
      SnapshotStateLength();
    }

    /**
     * ticker, woken at time `now`: as many passes as whole ticks have gone
     * by since the clock's start time beyond those already counted. Each
     * pass ticks the running clocks, counts the tick, brings the active
     * snapshot's length up to date and, when a clock ran out, runs
     * clocksExpired.
     */
    method Ticker(now: Time)
      requires Valid()
      modifies this, clock, clock.Objs(), team1, team2, activeJam
      ensures Valid()
      ensures var n := TicksToDo(now, old(clock.startTime), old(clock.ticks));
        View() == TickTimes(old(View()), if n > 0 then n else 0)
    {
      var n := TicksToDo(now, clock.startTime, clock.ticks);
      ghost var m: nat := if n > 0 then n else 0;
      ghost var g0 := View();
      var i: nat := 0;
      while i < n
        invariant Valid() && i <= m
        invariant TickTimes(View(), m - i) == TickTimes(g0, m)
        invariant activeJam == old(activeJam) || fresh(activeJam)
      {
        TickPass();
        i := i + 1;
      }
    }

    /** reset's opening: the state cleared, both teams and the master clock reset. */
    method ResetOwned(now: Time)
      requires Parts()
      modifies this, clock, clock.Objs(), team1, team2
      ensures Parts() && jams == old(jams) && activeJam == old(activeJam)
      ensures View() == Game(StateNotRunning, MapAll(WithState(old(View()), StateNotRunning).clocks, FullReset),
                             0, now, ResetInfo(1), ResetInfo(2), old(snapshots), old(active))
    {
      SetState(StateNotRunning);
      ResetTeams();
      clock.Reset(now);
    }

    /** reset's loop over the teams. */
    method ResetTeams()
      requires TeamsValid()
      modifies team1, team2
      ensures TeamsValid() && team1.Info() == ResetInfo(1) && team2.Info() == ResetInfo(2)
    {
      team1.Reset();
      team2.Reset();
    }

    /** reset up to its first snapshot: state, teams and clock reset, jams deleted, lists emptied. */
    method Clear(now: Time)
      requires Parts()
      modifies this, clock, clock.Objs(), team1, team2, jams
      ensures Parts() && jams == [] && activeJam == null
      ensures View() == Game(StateNotRunning, MapAll(WithState(old(View()), StateNotRunning).clocks, FullReset),
                             0, now, ResetInfo(1), ResetInfo(2), [], 0)
      ensures forall j :: j in old(jams) ==> !j.live
    {
      ResetOwned(now);
      DropAll();
    }

    /** reset's loops over the snapshots and the jams, and the lists emptied. */
    method DropAll()
      requires Parts()
      modifies this, jams
      ensures Parts() && jams == [] && activeJam == null && View() == old(View()).(snapshots := [], active := 0)
      ensures forall j :: j in old(jams) ==> !j.live
    {
      ghost var v := View();
      DeleteJams(jams);
      assert View() == v;
      snapshots := [];
      jams := [];
      active := 0;
      activeJam := null;
    }

    /**
     * reset: the state cleared, both teams and the master clock reset
     * (the clock's start time read as `now`), the jams deleted, the lists
     * emptied, then a first snapshot and a first jam.
     */
    method Reset(now: Time)
      requires Parts()
      modifies this, clock, clock.Objs(), team1, team2, jams
      ensures Valid() && fresh(activeJam) && jams == [activeJam]
      ensures View() == SnapshotStart(Game(StateNotRunning, MapAll(WithState(old(View()), StateNotRunning).clocks, FullReset),
                                           0, now, ResetInfo(1), ResetInfo(2), [], 0))
      ensures activeJam.idx == 0 && activeJam.lastJam == null && activeJam.period == 1 && activeJam.jam == 1
      ensures forall j :: j in old(jams) ==> !j.live
    {
      Clear(now);
      Restart();
    }

    /** The close of reset: a first snapshot and a first jam on an emptied scoreboard. */
    method Restart()
      requires Parts() && snapshots == [] && jams == [] && activeJam == null
      modifies this, team1, team2
      ensures Valid() && fresh(activeJam) && jams == [activeJam] && View() == SnapshotStart(old(View()))
      ensures activeJam.idx == 0 && activeJam.lastJam == null && activeJam.period == 1 && activeJam.jam == 1
    {
      SnapshotStateStart();
      NewJam();
    }

    /** undo's write-back of the teams' counters: team 1 from `first`, team 2 from `other`. */
    method RestoreTeams(first: SnapTeam, other: SnapTeam)
      requires Parts()
      modifies team1, team2
      ensures Parts() && Rosters() == old(Rosters())
      ensures View() == old(View()).(team1 := RestoreTeam(old(team1.Info()), first), team2 := RestoreTeam(old(team2.Info()), other))
    {
      ghost var g := View();
      RestoreCounters(team1, first);
      assert View() == g.(team1 := team1.Info());
      RestoreCounters(team2, other);
    }

    /**
     * undo up to its closing ticker call, with team 2 restored from the
     * snapshot's second team when `second` holds, and `drop` jams removed
     * when undo takes back a jam, by the intended test when `intended`
     * holds and by the test as written otherwise.
     */
    method RevertSnapshot(second: bool, drop: nat, intended: bool) returns (r: UndoResult)
      requires Valid() && 1 <= drop <= 2
      modifies this, clock, clock.Objs(), team1, team2, activeJam
      ensures Valid() && Rosters() == old(Rosters())
      ensures var g := old(View()); var back := UndoAllowed(g); var jamBack := UndoTakesJam(g, intended);
        && r == (if !back then NoUndo else if jamBack && |old(jams)| < 2 then UndoPanics else Undid)
        && (r == Undid ==> View() == RevertWith(g, second))
        && (r != Undid ==> View() == g)
        && (jamBack ==> !old(activeJam).live)
        && (jamBack && r == Undid ==> activeJam == old(jams)[|old(jams)| - 2] && jams == old(jams)[..|old(jams)| - drop])
        && (!jamBack || r == UndoPanics ==> jams == old(jams) && activeJam == old(activeJam))
        && (!jamBack ==> activeJam.live == old(activeJam.live))
    {
      if |snapshots| <= 1 {
        return NoUndo;
      }
      var last := snapshots[|snapshots| - 2];
      if !last.canRevert {
        return NoUndo;
      }
      r := GoBack(second, drop, intended);
    }

    /** undo once it goes back: the jam taken back if there is one, then the write-back. */
    method GoBack(second: bool, drop: nat, intended: bool) returns (r: UndoResult)
      requires Valid() && 1 <= drop <= 2 && UndoAllowed(View())
      modifies this, clock, clock.Objs(), team1, team2, activeJam
      ensures Valid() && Rosters() == old(Rosters())
      ensures var g := old(View()); var jamBack := UndoTakesJam(g, intended);
        && r == (if jamBack && |old(jams)| < 2 then UndoPanics else Undid)
        && (r == Undid ==> View() == RevertWith(g, second))
        && (r != Undid ==> View() == g)
        && (jamBack ==> !old(activeJam).live)
        && (jamBack && r == Undid ==> activeJam == old(jams)[|old(jams)| - 2] && jams == old(jams)[..|old(jams)| - drop])
        && (!jamBack || r == UndoPanics ==> jams == old(jams) && activeJam == old(activeJam))
        && (!jamBack ==> activeJam.live == old(activeJam.live))
    {
      var last := snapshots[|snapshots| - 2];
      var jamBack := if intended then state == StateLineup && last.state == StateJam else state != StateJam && last.state == StateJam;
      assert UndoTakesJam(View(), intended) == jamBack;
      if jamBack {
        var panics := JamUndone(drop);
        if panics {
          return UndoPanics;
        }
      }
      WriteBack(second);
      return Undid;
    }

    /** undo's step back over a jam: the active jam deleted, the one before made active, `drop` jams removed. */
    method JamUndone(drop: nat) returns (panics: bool)
      requires Valid() && 1 <= drop <= 2
      modifies this, activeJam
      ensures Valid() && View() == old(View()) && Rosters() == old(Rosters()) && !old(activeJam).live
      ensures panics == (|old(jams)| < 2)
      ensures panics ==> jams == old(jams) && activeJam == old(activeJam)
      ensures !panics ==> activeJam == old(jams)[|old(jams)| - 2] && jams == old(jams)[..|old(jams)| - drop]
    {
      activeJam.Delete();
      if |jams| < 2 {
        // sb.jams[len(sb.jams)-2] is out of range: the source panics here
        return true;
      }
      activeJam := jams[|jams| - 2];
      jams := jams[..|jams| - drop];
      return false;
    }

    /**
     * undo's write-back from the snapshot before the last one: clocks,
     * teams' counters, tick count and state, then that snapshot unended
     * and made active in place of the last.
     */
    method WriteBack(second: bool)
      requires Valid() && |snapshots| > 1 && snapshots[|snapshots| - 2].canRevert
      modifies this, clock, clock.Objs(), team1, team2
      ensures Valid() && View() == RevertWith(old(View()), second)
      ensures jams == old(jams) && activeJam == old(activeJam) && Rosters() == old(Rosters())
    {
      RevertWithGoesBack(View(), second);
      var last := snapshots[|snapshots| - 2];
      RestoreFrom(last.clocks, last.teams.team0, TeamAt(last.teams, second));
      Resume(last.endTicks, last.state);
    }

    /** The tick count and the state written back, then the snapshot before the last made active. */
    method Resume(ticks: int, s: string)
      requires Parts() && |snapshots| > 1
      modifies this, clock, clock.period
      ensures Parts() && active < |snapshots| && jams == old(jams) && activeJam == old(activeJam)
      ensures View() == Resumed(old(View()), ticks, s)
    {
      ghost var g := View();
      clock.SetTicks(ticks);
      assert View() == g.(ticks := ticks);
      SetState(s);
      ReactivatePrior();
    }

    /** The clocks and the teams' counters written back. */
    method RestoreFrom(c: SnapClocks, first: SnapTeam, other: SnapTeam)
      requires Parts()
      modifies clock.Objs(), team1, team2
      ensures Parts() && Rosters() == old(Rosters())
      ensures View() == RestoredFrom(old(View()), c, first, other)
    {
      RestoreClocks(clock, c);
      RestoreTeams(first, other);
    }

    /** The last snapshot dropped; the one before it unended at the current tick count and made active. */
    method ReactivatePrior()
      requires Parts() && |snapshots| > 1
      modifies this
      ensures Parts() && active < |snapshots| && jams == old(jams) && activeJam == old(activeJam)
      ensures View() == Reactivated(old(View()))
    {
      var last := snapshots[|snapshots| - 2];
      snapshots := snapshots[..|snapshots| - 1];
      snapshots := snapshots[|snapshots| - 1 := Unended(last, clock.ticks)];
      active := |snapshots| - 1;
    }

    /** undo's revert as written: both teams from the snapshot's first team, two jams dropped. */
    method Revert() returns (r: UndoResult)
      requires Valid()
      modifies this, clock, clock.Objs(), team1, team2, activeJam
      ensures Valid() && Rosters() == old(Rosters())
      ensures var g := old(View()); var back := UndoAllowed(g); var jamBack := UndoesJam(g);
        && r == (if !back then NoUndo else if jamBack && |old(jams)| < 2 then UndoPanics else Undid)
        && (r == Undid ==> View() == Reverted(g))
        && (r != Undid ==> View() == g)
        && (jamBack ==> !old(activeJam).live)
        && (jamBack && r == Undid ==> activeJam == old(jams)[|old(jams)| - 2] && jams == old(jams)[..|old(jams)| - 2])
        && (!jamBack || r == UndoPanics ==> jams == old(jams) && activeJam == old(activeJam))
    {
      r := RevertSnapshot(false, 2, false);
    }

    /**
     * undo's revert corrected: each team from its own snapshot team, and a
     * jam taken back, only one dropped, only when undo goes from lineup back
     * into the jam.
     */
    method RevertCorrected() returns (r: UndoResult)
      requires Valid()
      modifies this, clock, clock.Objs(), team1, team2, activeJam
      ensures Valid() && Rosters() == old(Rosters())
      ensures var g := old(View()); var back := UndoAllowed(g); var jamBack := UndoesJamCorrected(g);
        && r == (if !back then NoUndo else if jamBack && |old(jams)| < 2 then UndoPanics else Undid)
        && (r == Undid ==> View() == RevertedCorrected(g))
        && (r != Undid ==> View() == g)
        && (jamBack ==> !old(activeJam).live)
        && (jamBack && r == Undid ==>
              activeJam == old(jams)[|old(jams)| - 2] && jams == old(jams)[..|old(jams)| - 1] && activeJam == jams[|jams| - 1])
        && (!jamBack || r == UndoPanics ==> jams == old(jams) && activeJam == old(activeJam))
    {
      r := RevertSnapshot(true, 1, true);
    }

    /** undo (the Scoreboard.Undo command) as written, woken at `now` for its closing ticker call. */
    method Undo(now: Time) returns (r: UndoResult)
      requires Valid()
      modifies this, clock, clock.Objs(), team1, team2, activeJam, jams
      ensures Valid()
      ensures var g := old(View());
        && (r == Undid ==> var n := TicksToDo(now, g.startTime, Reverted(g).ticks);
              View() == TickTimes(Reverted(g), if n > 0 then n else 0))
        && (r != Undid ==> View() == g)
    {
      r := Revert();
      if r == Undid {
        Ticker(now);
      }
    }

    /** undo with the corrected revert. */
    method UndoCorrected(now: Time) returns (r: UndoResult)
      requires Valid()
      modifies this, clock, clock.Objs(), team1, team2, activeJam, jams
      ensures Valid()
      ensures var g := old(View());
        && (r == Undid ==> var n := TicksToDo(now, g.startTime, RevertedCorrected(g).ticks);
              View() == TickTimes(RevertedCorrected(g), if n > 0 then n else 0))
        && (r != Undid ==> View() == g)
    {
      r := RevertCorrected();
      if r == Undid {
        Ticker(now);
      }
    }

    /**
     * findStateSnapshot: the key's first id, parsed, names a snapshot; the
     * list is first padded with blank snapshots up to it. A key with no id
     * or a non-numeric one finds nothing; a negative id indexes out of range.
     */
    method FindStateSnapshot(k: string) returns (r: Teams.Lookup)
      requires Valid()
      modifies this
      ensures Valid() && r == Teams.TripLookup(k)
      ensures r.At? ==> r.index < |snapshots| && snapshots == PaddedSnaps(old(snapshots), r.index)
      ensures !r.At? ==> snapshots == old(snapshots)
      ensures state == old(state) && active == old(active) && jams == old(jams) && activeJam == old(activeJam)
    {
      var ids := IDs(k);
      if |ids| == 0 {
        return Teams.Missing;
      }
      var p := ParseInt(ids[0]);
      if p.err.Some? {
        return Teams.Missing;
      }
      var id := p.value;
      PadSnapshots(id);
      if id < 0 {
        return Teams.OutOfRange;
      }
      return Teams.At(id);
    }

    /** findStateSnapshot's padding loop: blank snapshots appended until `id` is an index. */
    method PadSnapshots(id: int)
      requires Valid()
      modifies this
      ensures Valid() && snapshots == PaddedSnaps(old(snapshots), id)
      ensures state == old(state) && active == old(active) && jams == old(jams) && activeJam == old(activeJam)
    {
      ghost var ss := snapshots;
      while |snapshots| <= id
        invariant |ss| <= |snapshots| && snapshots[..|ss|] == ss
        invariant |ss| < |snapshots| ==> |snapshots| <= id + 1
        invariant forall i :: |ss| <= i < |snapshots| ==> snapshots[i] == Blank(i)
        invariant Valid() && state == old(state) && active == old(active)
        invariant jams == old(jams) && activeJam == old(activeJam)
        decreases id - |snapshots|
      {
        snapshots := snapshots + [Blank(|snapshots|)];
      }
    }

    /**
     * The ss*, ssc* and sst* updaters: the snapshot the key names is found
     * and written, and one set in progress becomes the active snapshot.
     */
    method SnapshotUpdate(k: string, w: SnapshotWrite) returns (reply: Reply)
      requires Valid()
      modifies this
      ensures Valid() && (reply, snapshots, active) == SnapshotUpdated(old(snapshots), old(active), k, w)
      ensures state == old(state) && jams == old(jams) && activeJam == old(activeJam)
    {
      SnapshotUpdateKeeps(snapshots, active, k, w);
      var r := FindStateSnapshot(k);
      match r
      case Missing =>
        reply := Replied(Some(ErrSnapshotNotFound));
      case OutOfRange =>
        reply := Panics;
      case At(i) =>
        var (err, s) := Written(snapshots[i], k, w);
        snapshots := snapshots[i := s];
        if w == SsInProgress(true) {
          active := i;
        }
        reply := Replied(err);
    }

    /**
     * reinstatePositions of jam `j`: each team's skaters benched, then put
     * back at the positions the jam recorded for that team.
     */
    method ReinstatePositions(j: Jams.Jam)
      requires Parts()
      modifies team1, team2
      ensures Parts() && View() == old(View())
      ensures var r := j.teams.first;
        RosterOf(team1) == Roster(Teams.Reinstated(old(team1.skaters), r.jammer, r.pivot, r.blockers), old(team1.jammer), old(team1.pivot))
      ensures var r := j.teams.second;
        RosterOf(team2) == Roster(Teams.Reinstated(old(team2.skaters), r.jammer, r.pivot, r.blockers), old(team2.jammer), old(team2.pivot))
    {
      ghost var g := View();
      team1.Reinstate(j.teams.first.jammer, j.teams.first.pivot, j.teams.first.blockers);
      assert View() == g;
      team2.Reinstate(j.teams.second.jammer, j.teams.second.pivot, j.teams.second.blockers);
    }

    /** blankJam: a blank jam numbered by the list's length, following the active jam, appended and made active. */
    method BlankJam() returns (j: Jams.Jam)
      requires Parts()
      modifies this
      ensures Parts() && View() == old(View()) && jams == old(jams) + [j] && activeJam == j
      ensures fresh(j) && IsBlankJam(j) && j.idx == |old(jams)| && j.lastJam == old(activeJam)
    {
      j := new Jams.Jam.Blank(|jams|, activeJam);
      jams := jams + [j];
      activeJam := j;
    }

    /**
     * findJam's padding loop as written: blankJam already appends the jam
     * it makes and sets it active, and the loop appends it a second time.
     * The loop counts steps, not the list, so each step adds two places.
     */
    method PadJamsAsWritten(id: int)
      requires Parts()
      modifies this
      ensures Parts() && View() == old(View())
      ensures |jams| == if |old(jams)| <= id then |old(jams)| + 2 * (id + 1 - |old(jams)|) else |old(jams)|
      ensures jams[..|old(jams)|] == old(jams)
      ensures |jams| == |old(jams)| ==> activeJam == old(activeJam)
      ensures |jams| > |old(jams)| ==> activeJam == jams[|jams| - 1]
      ensures BlanksAsWritten(jams, |old(jams)|, old(activeJam))
    {
      ghost var n := |jams|;
      var i := |jams|;
      while i <= id
        invariant n <= i && (n < i ==> i <= id + 1)
        invariant |jams| == n + 2 * (i - n) && jams[..n] == old(jams)
        invariant Parts() && View() == old(View())
        invariant |jams| == n ==> activeJam == old(activeJam)
        invariant |jams| > n ==> activeJam == jams[|jams| - 1]
        invariant BlanksAsWritten(jams, n, old(activeJam))
        decreases id - i
      {
        ghost var before := jams;
        BlankPairAsWritten(n, old(activeJam));
        assert jams[..n] == before[..n];
        i := i + 1;
      }
    }

    /** One step of findJam's padding loop as written: blankJam, then the jam appended again. */
    method BlankPairAsWritten(ghost n: nat, ghost prev: Jams.Jam?)
      requires Parts() && BlanksAsWritten(jams, n, prev)
      requires |jams| == n ==> activeJam == prev
      requires |jams| > n ==> activeJam == jams[|jams| - 1]
      modifies this
      ensures Parts() && View() == old(View())
      ensures jams == old(jams) + [activeJam, activeJam] && fresh(activeJam)
      ensures BlanksAsWritten(jams, n, prev)
    {
      ghost var before := jams;
      var j := BlankJam();
      AppendAgain(j);
      BlankPairAdded(before, n, prev, j);
    }

    /** The jam appended to the list once more, nothing else changed. */
    method AppendAgain(j: Jams.Jam)
      requires Parts() && j !in clock.Objs()
      modifies this
      ensures Parts() && View() == old(View()) && jams == old(jams) + [j] && activeJam == old(activeJam)
    {
      jams := jams + [j];
    }

    /**
     * findJam as written: the jam list padded by PadJamsAsWritten up to
     * the key's first id, so the place asked for holds an earlier blank
     * jam whenever its distance from the old end of the list is odd.
     */
    method FindJamAsWritten(k: string) returns (r: Teams.Lookup)
      requires Valid()
      modifies this
      ensures Valid() && r == Teams.TripLookup(k) && View() == old(View())
      ensures |jams| == if r.At? && |old(jams)| <= r.index then |old(jams)| + 2 * (r.index + 1 - |old(jams)|) else |old(jams)|
      ensures r.At? ==> r.index < |jams|
      ensures jams[..|old(jams)|] == old(jams)
      ensures |jams| == |old(jams)| ==> activeJam == old(activeJam)
      ensures |jams| > |old(jams)| ==> activeJam == jams[|jams| - 1]
      ensures BlanksAsWritten(jams, |old(jams)|, old(activeJam))
    {
      var ids := IDs(k);
      r := Teams.Missing;
      if |ids| > 0 {
        var p := ParseInt(ids[0]);
        if p.err.None? {
          PadJamsAsWritten(p.value);
          r := if p.value < 0 then Teams.OutOfRange else Teams.At(p.value);
        }
      }
    }

    /** findJam's padding as intended: one blank jam per missing place, numbered by its place. */
    method PadJams(id: int)
      requires Parts()
      modifies this
      ensures Parts() && View() == old(View())
      ensures |jams| == if |old(jams)| <= id then id + 1 else |old(jams)|
      ensures jams[..|old(jams)|] == old(jams)
      ensures |jams| == |old(jams)| ==> activeJam == old(activeJam)
      ensures |jams| > |old(jams)| ==> activeJam == jams[|jams| - 1]
      ensures forall p :: |old(jams)| <= p < |jams| ==> fresh(jams[p])
      ensures Blanks(jams, |old(jams)|, old(activeJam))
    {
      ghost var n := |jams|;
      while |jams| <= id
        invariant n <= |jams| && (n < |jams| ==> |jams| <= id + 1) && jams[..n] == old(jams)
        invariant Parts() && View() == old(View())
        invariant |jams| == n ==> activeJam == old(activeJam)
        invariant |jams| > n ==> activeJam == jams[|jams| - 1]
        invariant forall q :: n <= q < |jams| ==> fresh(jams[q])
        invariant Blanks(jams, n, old(activeJam))
        decreases id - |jams|
      {
        ghost var before := jams;
        BlankStep(n, old(activeJam));
        assert jams[..n] == before[..n] && jams[|before|] == activeJam;
      }
    }

    /** One step of findJam's padding loop as intended: blankJam, its jam numbered by its place. */
    method BlankStep(ghost n: nat, ghost prev: Jams.Jam?)
      requires Parts() && Blanks(jams, n, prev)
      requires |jams| == n ==> activeJam == prev
      requires |jams| > n ==> activeJam == jams[|jams| - 1]
      modifies this
      ensures Parts() && View() == old(View())
      ensures jams == old(jams) + [activeJam] && fresh(activeJam)
      ensures Blanks(jams, n, prev)
    {
      ghost var before := jams;
      var j := BlankJam();
      BlankAdded(before, n, prev, j);
    }

    /** findJam as intended: the jam at the key's first id, the list padded by PadJams. */
    method FindJam(k: string) returns (r: Teams.Lookup)
      requires Valid()
      modifies this
      ensures Valid() && r == Teams.TripLookup(k) && View() == old(View())
      ensures |jams| == if r.At? && |old(jams)| <= r.index then r.index + 1 else |old(jams)|
      ensures r.At? ==> r.index < |jams|
      ensures jams[..|old(jams)|] == old(jams)
      ensures |jams| == |old(jams)| ==> activeJam == old(activeJam)
      ensures |jams| > |old(jams)| ==> activeJam == jams[|jams| - 1]
      ensures forall p :: |old(jams)| <= p < |jams| ==> fresh(jams[p])
      ensures Blanks(jams, |old(jams)|, old(activeJam))
    {
      var ids := IDs(k);
      r := Teams.Missing;
      if |ids| > 0 {
        var p := ParseInt(ids[0]);
        if p.err.None? {
          PadJams(p.value);
          r := if p.value < 0 then Teams.OutOfRange else Teams.At(p.value);
        }
      }
    }
  }

  /** The jam test undo makes: as written, or the intended one. */
  predicate UndoTakesJam(g: Game, intended: bool)
  {
    if intended then UndoesJamCorrected(g) else UndoesJam(g)
  }

  /** A jam as blankJam leaves it: numbered 0 in period 0, nothing recorded. */
  predicate IsBlankJam(j: Jams.Jam)
    reads j
  {
    j.live && j.period == 0 && j.jam == 0 && j.teams == Jams.JamTeams(Jams.EmptyJamTeam, Jams.EmptyJamTeam)
  }

  /**
   * The places from `n` on of a jam list that findJam as written padded:
   * blank jams numbered n, n+2, n+4, ..., each at two places in a row; the
   * first follows `prev` and each later one the jam numbered two below it.
   */
  ghost predicate BlanksAsWritten(js: seq<Jams.Jam>, n: nat, prev: Jams.Jam?)
    reads js
  {
    && n <= |js| && (|js| - n) % 2 == 0
    && (forall q :: n <= q < |js| ==> IsBlankJam(js[q]))
    && (forall q :: n <= q < |js| ==> js[q].idx == if (q - n) % 2 == 0 then q else q - 1)
    && (forall q :: n <= q < |js| && q < n + 2 ==> js[q].lastJam == prev)
    && (forall p, q :: n <= p < |js| && n <= q < |js| && js[q].idx == js[p].idx + 2 ==> js[q].lastJam == js[p])
    && (forall p, q :: n <= p < |js| && n <= q < |js| && js[q].idx == js[p].idx ==> js[q] == js[p])
  }

  /** The places from `n` on of a jam list padded one blank jam per place, each numbered by its place. */
  ghost predicate Blanks(js: seq<Jams.Jam>, n: nat, prev: Jams.Jam?)
    reads js
  {
    && n <= |js|
    && (n < |js| ==> js[n].lastJam == prev)
    && (forall q :: n <= q < |js| ==> IsBlankJam(js[q]) && js[q].idx == q)
    && (forall p, q :: n <= p < |js| && n <= q < |js| && js[q].idx == js[p].idx + 1 ==> js[q].lastJam == js[p])
  }

  /** One step of findJam as written: the blank jam blankJam made, appended twice. */
  lemma BlankPairAdded(js: seq<Jams.Jam>, n: nat, prev: Jams.Jam?, j: Jams.Jam)
    requires BlanksAsWritten(js, n, prev) && j !in js
    requires IsBlankJam(j) && j.idx == |js| && j.lastJam == if |js| == n then prev else js[|js| - 1]
    ensures BlanksAsWritten(js + [j] + [j], n, prev)
  {
    var r := js + [j] + [j];
    forall q | 0 <= q < |r|
      ensures r[q] == if q < |js| then js[q] else j
    {
      if q < |js| {
        assert r[q] == js[q];
      }
    }
    PairNumbered(js, n, prev, j, r);
    PairLinked(js, n, prev, j, r);
    PairShared(js, n, prev, j, r);
  }

  /** The two copies of the blank jam are numbered by the first of their places. */
  lemma PairNumbered(js: seq<Jams.Jam>, n: nat, prev: Jams.Jam?, j: Jams.Jam, r: seq<Jams.Jam>)
    requires BlanksAsWritten(js, n, prev) && IsBlankJam(j) && j.idx == |js|
    requires |r| == |js| + 2 && forall q :: 0 <= q < |r| ==> r[q] == if q < |js| then js[q] else j
    ensures forall q :: n <= q < |r| ==> IsBlankJam(r[q]) && r[q].idx == if (q - n) % 2 == 0 then q else q - 1
    ensures forall q :: n <= q < |r| ==> r[q].idx <= |js|
  {
    forall q | n <= q < |r|
      ensures IsBlankJam(r[q]) && r[q].idx == (if (q - n) % 2 == 0 then q else q - 1) && r[q].idx <= |js|
    {
      if q < |js| {
        assert r[q] == js[q];
      } else {
        assert r[q] == j;
      }
    }
  }

  /** The blank jam links back to the jam two numbers before it, or to `prev` when it is the first. */
  lemma PairLinked(js: seq<Jams.Jam>, n: nat, prev: Jams.Jam?, j: Jams.Jam, r: seq<Jams.Jam>)
    requires BlanksAsWritten(js, n, prev) && IsBlankJam(j) && j.idx == |js|
    requires j.lastJam == if |js| == n then prev else js[|js| - 1]
    requires |r| == |js| + 2 && forall q :: 0 <= q < |r| ==> r[q] == if q < |js| then js[q] else j
    requires forall q :: n <= q < |r| ==> r[q].idx <= |js|
    ensures forall q :: n <= q < |r| && q < n + 2 ==> r[q].lastJam == prev
    ensures forall p, q :: n <= p < |r| && n <= q < |r| && r[q].idx == r[p].idx + 2 ==> r[q].lastJam == r[p]
  {
    forall p, q | n <= p < |r| && n <= q < |r| && r[q].idx == r[p].idx + 2
      ensures r[q].lastJam == r[p]
    {
      if q < |js| {
        assert r[q] == js[q] && r[p] == js[p];
      } else {
        assert r[q] == j && p < |js| && r[p] == js[p];
        assert js[|js| - 1].idx + 2 == |js|;
      }
    }
  }

  /** Places holding the same number hold the same jam. */
  lemma PairShared(js: seq<Jams.Jam>, n: nat, prev: Jams.Jam?, j: Jams.Jam, r: seq<Jams.Jam>)
    requires BlanksAsWritten(js, n, prev) && j.idx == |js|
    requires |r| == |js| + 2 && forall q :: 0 <= q < |r| ==> r[q] == if q < |js| then js[q] else j
    requires forall q :: n <= q < |r| ==> r[q].idx <= |js|
    ensures forall p, q :: n <= p < |r| && n <= q < |r| && r[q].idx == r[p].idx ==> r[q] == r[p]
  {
    forall p, q | n <= p < |r| && n <= q < |r| && r[q].idx == r[p].idx
      ensures r[q] == r[p]
    {
      if p < |js| && q < |js| {
        assert r[q] == js[q] && r[p] == js[p];
      }
    }
  }

  /** One step of findJam as intended: the blank jam appended once. */
  lemma BlankAdded(js: seq<Jams.Jam>, n: nat, prev: Jams.Jam?, j: Jams.Jam)
    requires Blanks(js, n, prev)
    requires IsBlankJam(j) && j.idx == |js| && j.lastJam == if |js| == n then prev else js[|js| - 1]
    ensures Blanks(js + [j], n, prev)
  {
    var r := js + [j];
    forall q | n <= q < |r|
      ensures r[q] == if q < |js| then js[q] else j
    {
      if q < |js| {
        assert r[q] == js[q];
      }
    }
  }

  /**
   * A snapshot updater on the list of snapshots and the active index: the
   * snapshot the key names, once the list is padded, is written; one set
   * in progress becomes active.
   */
  function SnapshotUpdated(ss: seq<Snapshot>, active: nat, k: string, w: SnapshotWrite): (Reply, seq<Snapshot>, nat)
  {
    UpdatedAt(ss, active, Teams.TripLookup(k), k, w)
  }

  /** The same update once the key's lookup `l` is known. */
  function UpdatedAt(ss: seq<Snapshot>, active: nat, l: Teams.Lookup, k: string, w: SnapshotWrite): (Reply, seq<Snapshot>, nat)
  {
    match l
    case Missing => (Replied(Some(ErrSnapshotNotFound)), ss, active)
    case OutOfRange => (Panics, ss, active)
    case At(i) =>
      var padded := PaddedSnaps(ss, i);
      var (err, s) := Written(padded[i], k, w);
      (Replied(err), padded[i := s], if w == SsInProgress(true) then i else active)
  }

  /**
   * A snapshot updater keeps the list numbered by place and the active
   * index inside it; it fails with errSnapshotNotFound exactly when the key
   * has no numeric id; it changes no snapshot but the one named, and pads
   * the list only with blank ones; and the snapshot it sets in progress is
   * the active one afterwards.
   */
  lemma SnapshotUpdateKeeps(ss: seq<Snapshot>, active: nat, k: string, w: SnapshotWrite)
    requires Indexed(ss) && active < |ss|
    ensures var (reply, r, a) := SnapshotUpdated(ss, active, k, w);
      && Indexed(r) && a < |r| && |ss| <= |r|
      && (reply == Replied(Some(ErrSnapshotNotFound)) <==> Teams.TripLookup(k).Missing?)
      && (reply == Panics <==> Teams.TripLookup(k).OutOfRange?)
      && (forall j :: 0 <= j < |r| && Teams.TripLookup(k) != Teams.At(j) ==>
            r[j] == if j < |ss| then ss[j] else Blank(j))
      && (Teams.TripLookup(k).At? && w == SsInProgress(true) ==> a == Teams.TripLookup(k).index && r[a].inProgress)
  {
    UpdatedAtKeeps(ss, active, Teams.TripLookup(k), k, w);
  }

  /** SnapshotUpdateKeeps for a known lookup. */
  lemma UpdatedAtKeeps(ss: seq<Snapshot>, active: nat, l: Teams.Lookup, k: string, w: SnapshotWrite)
    requires Indexed(ss) && active < |ss|
    ensures var (reply, r, a) := UpdatedAt(ss, active, l, k, w);
      && Indexed(r) && a < |r| && |ss| <= |r|
      && (reply == Replied(Some(ErrSnapshotNotFound)) <==> l.Missing?)
      && (reply == Panics <==> l.OutOfRange?)
      && (forall j :: 0 <= j < |r| && l != Teams.At(j) ==> r[j] == if j < |ss| then ss[j] else Blank(j))
      && (l.At? && w == SsInProgress(true) ==> a == l.index && r[a].inProgress)
  {
    match l
    case Missing =>
    case OutOfRange =>
    case At(i) =>
      var padded := PaddedSnaps(ss, i);
      PaddedIndexed(ss, i);
      var (err, s) := Written(padded[i], k, w);
      var r := padded[i := s];
      assert UpdatedAt(ss, active, l, k, w).1 == r;
      forall j | 0 <= j < |r| && j != i
        ensures r[j] == if j < |ss| then ss[j] else Blank(j)
      {
        if j < |ss| {
          assert padded[j] == padded[..|ss|][j];
        }
      }
      assert Indexed(r) by {
        forall j | 0 <= j < |r|
          ensures r[j].idx == j
        {
          assert padded[j].idx == j;
        }
      }
  }

  /**
   * From one jam, findJam as written for id 2 leaves five jams, and place 2
   * holds the blank jam numbered 1 (also at place 1), not one numbered 2.
   */
  lemma FindJamAsWrittenMisnumbers(js: seq<Jams.Jam>, prev: Jams.Jam?)
    requires |js| == 1 + 2 * (2 + 1 - 1) && BlanksAsWritten(js, 1, prev)
    ensures js[2] == js[1] && js[2].idx == 1 && js[4].idx == 3
  {
  }
}
