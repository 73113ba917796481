/**
 * The game's state snapshots (scoreboard/state_snapshot.go). A snapshot
 * records, when a game state begins, the state's name, the tick count and
 * time, each team's timeouts and official reviews, and each clock's number,
 * time and running flag; when the state ends it records the end tick, the
 * end time and each clock's time. Undo reads the snapshot before the last.
 * The scoreboard keeps its snapshots as values in its list (module
 * Scoreboards); the store writes each setter also makes are not modelled.
 */
module Snapshots {
  import opened GoBase
  import opened GoStrconv
  import opened Utils
  import opened MinMax
  import opened Clocks
  import opened MasterClocks
  import Teams

  /** stateSnapshotTeam */
  datatype SnapTeam = SnapTeam(timeouts: int, officialReviews: int, officialReviewRetained: bool)

  /** stateSnapshotClock: the number and time when the state began, the time when it ended. */
  datatype SnapClock = SnapClock(number: int, startTime: int, endTime: int, running: bool)

  /** The snapshot's two teams (its slice always holds two). */
  datatype SnapTeams = SnapTeams(team0: SnapTeam, team1: SnapTeam)

  /** The snapshot's clock map, which always holds the five clocks of the master clock. */
  datatype SnapClocks = SnapClocks(period: SnapClock, jam: SnapClock, lineup: SnapClock,
                                   timeout: SnapClock, intermission: SnapClock)

  /** stateSnapshot, without its back pointer and its state ids. */
  datatype Snapshot = Snapshot(idx: int, state: string, inProgress: bool, canRevert: bool,
                               startTicks: int, endTicks: int, length: int, startTime: Time, endTime: Time,
                               teams: SnapTeams, clocks: SnapClocks)

  function ClockAt(c: SnapClocks, id: ClockId): SnapClock
  {
    match id
    case Period => c.period
    case Jam => c.jam
    case Lineup => c.lineup
    case Timeout => c.timeout
    case Intermission => c.intermission
  }

  function WithClock(c: SnapClocks, id: ClockId, x: SnapClock): SnapClocks
  {
    match id
    case Period => c.(period := x)
    case Jam => c.(jam := x)
    case Lineup => c.(lineup := x)
    case Timeout => c.(timeout := x)
    case Intermission => c.(intermission := x)
  }

  function TeamAt(ts: SnapTeams, t: bool): SnapTeam
  {
    if t then ts.team1 else ts.team0
  }

  function WithTeam(ts: SnapTeams, t: bool, x: SnapTeam): SnapTeams
  {
    if t then ts.(team1 := x) else ts.(team0 := x)
  }

  lemma ClockAtWith(c: SnapClocks, id: ClockId, x: SnapClock)
    ensures ClockAt(WithClock(c, id, x), id) == x
    ensures forall o :: o != id ==> ClockAt(WithClock(c, id, x), o) == ClockAt(c, o)
  {
  }

  const BlankTeam := SnapTeam(0, 0, false)
  const BlankClock := SnapClock(0, 0, 0, false)

  /** blankStateSnapshot: two teams and five clocks, every value zero. */
  function Blank(idx: int): Snapshot
  {
    Snapshot(idx, "", false, false, 0, 0, 0, ZeroTime, ZeroTime, SnapTeams(BlankTeam, BlankTeam),
      SnapClocks(BlankClock, BlankClock, BlankClock, BlankClock, BlankClock))
  }

  function TeamOf(t: Teams.TeamInfo): SnapTeam
  {
    SnapTeam(t.timeouts, t.officialReviews, t.officialReviewRetained)
  }

  /** One clock as newStateSnapshot records it: no end time yet. */
  function Capture(c: ClockState): SnapClock
  {
    SnapClock(c.number.num, c.time.num, 0, c.running)
  }

  function CaptureAll(v: ClockView): SnapClocks
  {
    SnapClocks(Capture(v.period), Capture(v.jam), Capture(v.lineup), Capture(v.timeout), Capture(v.intermission))
  }

  /** A snapshot whose state has not ended: nothing of an end is recorded in it. */
  predicate Current(s: Snapshot)
  {
    && s.inProgress && !s.canRevert && s.endTicks == 0 && s.endTime == ZeroTime
    && forall id :: ClockAt(s.clocks, id).endTime == 0
  }

  /** The snapshot still describes the clocks: their running flags and numbers are the ones it recorded. */
  predicate Describes(c: SnapClocks, v: ClockView)
  {
    forall id :: ClockAt(c, id).running == Get(v, id).running && ClockAt(c, id).number == Get(v, id).number.num
  }

  /**
   * newStateSnapshot: the game's state, ticks and time, each team's
   * counters and each clock's number, time and running flag, recorded at
   * the start of a state, with a length of 0.
   */
  function NewSnapshot(idx: int, state: string, ticks: int, startTime: Time,
                       team1: Teams.TeamInfo, team2: Teams.TeamInfo, v: ClockView): (s: Snapshot)
    ensures Current(s) && Describes(s.clocks, v) && s.length == 0
    ensures s.teams == SnapTeams(TeamOf(team1), TeamOf(team2))
    ensures forall id :: ClockAt(s.clocks, id).startTime == Get(v, id).time.num
  {
    Snapshot(idx, state, true, false, ticks, 0, 0, startTime, ZeroTime, SnapTeams(TeamOf(team1), TeamOf(team2)), CaptureAll(v))
  }

  /** updateLength: a snapshot of a named state measures the clock time since it began. */
  function LengthAt(s: Snapshot, ticks: int): Snapshot
  {
    if s.state != "" then s.(length := (ticks - s.startTicks) * ClockTimeTick) else s
  }

  /**
   * The length updateLength records is the master clock's time between the
   * snapshot's start tick and `ticks`, in milliseconds; nothing else changes.
   */
  lemma LengthIsElapsed(s: Snapshot, startTime: Time, ticks: int)
    requires s.state != ""
    ensures var r := LengthAt(s, ticks);
      && r.length * 1_000_000 == CurrentTime(startTime, ticks).nanos - CurrentTime(startTime, s.startTicks).nanos
      && r == s.(length := r.length)
  {
    assert DurationPerTick == 100_000_000 && ClockTimeTick == 100;
    var d := ticks - s.startTicks;
    assert LengthAt(s, ticks).length == d * 100;
    assert CurrentTime(startTime, ticks).nanos - CurrentTime(startTime, s.startTicks).nanos == d * 100_000_000;
  }

  /** The end times `end` records: where each clock stands. */
  function EndAll(c: SnapClocks, v: ClockView): SnapClocks
  {
    SnapClocks(c.period.(endTime := v.period.time.num), c.jam.(endTime := v.jam.time.num),
      c.lineup.(endTime := v.lineup.time.num), c.timeout.(endTime := v.timeout.time.num),
      c.intermission.(endTime := v.intermission.time.num))
  }

  function ReopenAll(c: SnapClocks): SnapClocks
  {
    SnapClocks(c.period.(endTime := 0), c.jam.(endTime := 0), c.lineup.(endTime := 0),
      c.timeout.(endTime := 0), c.intermission.(endTime := 0))
  }

  /** end: the end tick and time, whether undo may go back to it, no longer in progress, the length, each clock's time. */
  function Ended(s: Snapshot, canRevert: bool, endTime: Time, ticks: int, v: ClockView): Snapshot
  {
    LengthAt(s.(endTicks := ticks, endTime := endTime, canRevert := canRevert, inProgress := false), ticks)
      .(clocks := EndAll(s.clocks, v))
  }

  /** unend: the end cleared again, in progress, the length brought up to `ticks`. */
  function Unended(s: Snapshot, ticks: int): Snapshot
  {
    LengthAt(s.(canRevert := false, endTicks := 0, endTime := ZeroTime, inProgress := true), ticks)
      .(clocks := ReopenAll(s.clocks))
  }

  /**
   * What end records: the snapshot is over, undo may go back to it exactly
   * when asked, and each clock keeps what it recorded at the start with the
   * time it stands at now as its end time.
   */
  lemma EndRecords(s: Snapshot, canRevert: bool, endTime: Time, ticks: int, v: ClockView)
    ensures var e := Ended(s, canRevert, endTime, ticks, v);
      && !e.inProgress && e.canRevert == canRevert && e.endTicks == ticks && e.endTime == endTime
      && e.state == s.state && e.idx == s.idx && e.startTicks == s.startTicks && e.teams == s.teams
      && forall id :: ClockAt(e.clocks, id) == ClockAt(s.clocks, id).(endTime := Get(v, id).time.num)
  {
  }

  /** Ending a snapshot that has not ended and unending it gives it back, its length brought up to date. */
  lemma UnendUndoesEnd(s: Snapshot, canRevert: bool, endTime: Time, t1: int, v: ClockView, t2: int)
    requires Current(s)
    ensures Unended(Ended(s, canRevert, endTime, t1, v), t2) == LengthAt(s, t2)
  {
    var c := s.clocks;
    assert c.period.endTime == ClockAt(c, Period).endTime;
    assert c.jam.endTime == ClockAt(c, Jam).endTime;
    assert c.lineup.endTime == ClockAt(c, Lineup).endTime;
    assert c.timeout.endTime == ClockAt(c, Timeout).endTime;
    assert c.intermission.endTime == ClockAt(c, Intermission).endTime;
  }

  /** An unended snapshot is current again. */
  lemma UnendedIsCurrent(s: Snapshot, ticks: int)
    ensures Current(Unended(s, ticks))
  {
    var r := Unended(s, ticks);
    forall id
      ensures ClockAt(r.clocks, id).endTime == 0
    {
    }
  }

  // ---------------------------------------------------------------- undo

  /**
   * undo's loop over the snapshot's clocks: each clock gets the running
   * flag and number recorded at the start of the snapshot's state and the
   * time recorded at its end. The clocks share no object, so Go's map
   * order does not matter.
   */
  function Restore(v: ClockView, c: SnapClocks): ClockView
  {
    ClockView(
      Restored(v.period, c.period.running, c.period.endTime, c.period.number),
      Restored(v.jam, c.jam.running, c.jam.endTime, c.jam.number),
      Restored(v.lineup, c.lineup.running, c.lineup.endTime, c.lineup.number),
      Restored(v.timeout, c.timeout.running, c.timeout.endTime, c.timeout.number),
      Restored(v.intermission, c.intermission.running, c.intermission.endTime, c.intermission.number))
  }

  lemma RestoreGet(v: ClockView, c: SnapClocks, id: ClockId)
    ensures Get(Restore(v, c), id) ==
      Restored(Get(v, id), ClockAt(c, id).running, ClockAt(c, id).endTime, ClockAt(c, id).number)
  {
  }

  /** The write-back applied to the first n clocks of AllIds, in that order. */
  function RestoreFirst(v: ClockView, c: SnapClocks, n: nat): ClockView
    requires n <= 5
  {
    if n == 0 then v else
      var w := RestoreFirst(v, c, n - 1);
      var s := ClockAt(c, AllIds[n - 1]);
      Set(w, AllIds[n - 1], Restored(Get(w, AllIds[n - 1]), s.running, s.endTime, s.number))
  }

  /** Writing the five clocks back one after another gives Restore. */
  lemma RestoreFirstAll(v: ClockView, c: SnapClocks)
    ensures RestoreFirst(v, c, 5) == Restore(v, c)
  {
    assert RestoreFirst(v, c, 1) == v.(period := Restore(v, c).period);
    assert RestoreFirst(v, c, 2) == v.(period := Restore(v, c).period, jam := Restore(v, c).jam);
    assert RestoreFirst(v, c, 3) == Restore(v, c).(timeout := v.timeout, intermission := v.intermission);
    assert RestoreFirst(v, c, 4) == Restore(v, c).(intermission := v.intermission);
  }

  /** Two clocks with the same bounds and direction. */
  predicate SameBounds(a: ClockState, b: ClockState)
  {
    && a.number.min == b.number.min && a.number.max == b.number.max
    && a.time.min == b.time.min && a.time.max == b.time.max
    && a.countdown == b.countdown
  }

  predicate InRanges(v: ClockView)
  {
    forall id :: InRange(Get(v, id).number) && InRange(Get(v, id).time)
  }

  /**
   * The clock half of undo's round trip: clocks that kept their bounds
   * since the state ended are restored exactly to where they stood then
   * (the adjustable flag is not restored), provided the snapshot still
   * described them when it ended.
   */
  lemma RestoreUndoes(s: Snapshot, canRevert: bool, endTime: Time, ticks: int, v0: ClockView, v1: ClockView)
    requires Describes(s.clocks, v0) && InRanges(v0)
    requires forall id :: SameBounds(Get(v1, id), Get(v0, id))
    ensures forall id :: Get(Restore(v1, Ended(s, canRevert, endTime, ticks, v0).clocks), id)
                           == Get(v0, id).(adjustable := Get(v1, id).adjustable)
  {
    var e := Ended(s, canRevert, endTime, ticks, v0);
    EndRecords(s, canRevert, endTime, ticks, v0);
    forall id
      ensures Get(Restore(v1, e.clocks), id) == Get(v0, id).(adjustable := Get(v1, id).adjustable)
    {
      RestoreGet(v1, e.clocks, id);
      var r := Get(Restore(v1, e.clocks), id);
      assert r.time == Get(v0, id).time && r.number == Get(v0, id).number;
    }
  }

  /** undo's write-back of one team's counters. */
  function RestoreTeam(t: Teams.TeamInfo, s: SnapTeam): Teams.TeamInfo
  {
    t.(timeouts := s.timeouts, officialReviews := s.officialReviews, officialReviewRetained := s.officialReviewRetained)
  }

  /** Writing back what a team's counters were recorded as gives the team back. */
  lemma RestoreTeamUndoes(t: Teams.TeamInfo, u: Teams.TeamInfo)
    requires u == t.(timeouts := u.timeouts, officialReviews := u.officialReviews,
                     officialReviewRetained := u.officialReviewRetained)
    ensures RestoreTeam(u, TeamOf(t)) == t
  {
  }

  // -------------------------------------------------------------- finding

  /** A snapshot's state path base. */
  function Base(idx: int): string
  {
    "Scoreboard.Snapshot(" + FormatInt(idx) + ")"
  }

  function ClockBase(idx: int, id: ClockId): string
  {
    Base(idx) + ".Clock(" + IdName(id) + ")"
  }

  function TeamBase(idx: int, t: nat): string
  {
    Base(idx) + ".Team(" + FormatInt(t) + ")"
  }

  /** The clock names differ in their first letter. */
  lemma NamesDiffer(a: ClockId, b: ClockId)
    requires IdName(a)[0] == IdName(b)[0]
    ensures a == b
  {
  }

  /** No two clocks of a snapshot match the same key: the scan order over the clock map does not matter. */
  lemma ClockBaseUnique(idx: int, k: string, a: ClockId, b: ClockId)
    requires HasPrefix(k, ClockBase(idx, a) + ".") && HasPrefix(k, ClockBase(idx, b) + ".")
    ensures a == b
  {
    var p := Base(idx) + ".Clock(";
    var x, y := ClockBase(idx, a) + ".", ClockBase(idx, b) + ".";
    assert x == p + IdName(a) + ")." && y == p + IdName(b) + ").";
    assert x[|p|] == IdName(a)[0] && y[|p|] == IdName(b)[0];
    assert k[|p|] == x[|p|] == y[|p|] by {
      assert k[..|x|][|p|] == k[|p|] && k[..|y|][|p|] == k[|p|];
    }
    NamesDiffer(a, b);
  }

  /** findClock: the clock whose base, with a dot, starts the key. */
  function FindClock(s: Snapshot, k: string): (r: Option<ClockId>)
    ensures r.Some? ==> HasPrefix(k, ClockBase(s.idx, r.value) + ".")
    ensures r.None? <==> forall id :: !HasPrefix(k, ClockBase(s.idx, id) + ".")
  {
    if HasPrefix(k, ClockBase(s.idx, Period) + ".") then Some(Period)
    else if HasPrefix(k, ClockBase(s.idx, Jam) + ".") then Some(Jam)
    else if HasPrefix(k, ClockBase(s.idx, Lineup) + ".") then Some(Lineup)
    else if HasPrefix(k, ClockBase(s.idx, Timeout) + ".") then Some(Timeout)
    else if HasPrefix(k, ClockBase(s.idx, Intermission) + ".") then Some(Intermission)
    else None
  }

  /** The two team bases differ in the character after "Team(". */
  lemma TeamBaseUnique(idx: int, k: string)
    ensures !(HasPrefix(k, TeamBase(idx, 0) + ".") && HasPrefix(k, TeamBase(idx, 1) + "."))
  {
    var p := Base(idx) + ".Team(";
    assert FormatInt(0) == "0" && FormatInt(1) == "1";
    var x, y := TeamBase(idx, 0) + ".", TeamBase(idx, 1) + ".";
    assert x == p + "0)." && y == p + "1).";
    assert x[|p|] == '0' && y[|p|] == '1';
  }

  /**
   * findTeam: the team (false for team 0, true for team 1) whose base,
   * with a dot, starts the key; at most one does (TeamBaseUnique).
   */
  function FindTeam(s: Snapshot, k: string): (r: Option<bool>)
    ensures r.Some? ==> HasPrefix(k, TeamBase(s.idx, if r.value then 1 else 0) + ".")
    ensures r.None? <==> !HasPrefix(k, TeamBase(s.idx, 0) + ".") && !HasPrefix(k, TeamBase(s.idx, 1) + ".")
  {
    if HasPrefix(k, TeamBase(s.idx, 0) + ".") then Some(false)
    else if HasPrefix(k, TeamBase(s.idx, 1) + ".") then Some(true)
    else None
  }

  /** The snapshot updaters' values, one case per registered pattern. */
  datatype SnapshotWrite =
    | SsState(state: string)
    | SsInProgress(flag: bool)
    | SsCanRevert(flag: bool)
    | SsStartTicks(n: int)
    | SsEndTicks(n: int)
    | SsLength(n: int)
    | SsStartTime(t: Time)
    | SsEndTime(t: Time)
    | SscNumber(n: int)
    | SscStartTime(n: int)
    | SscEndTime(n: int)
    | SscRunning(flag: bool)
    | SstTimeouts(n: int)
    | SstOfficialReviews(n: int)
    | SstOfficialReviewRetained(flag: bool)

  predicate ClockWrite(w: SnapshotWrite)
  {
    w.SscNumber? || w.SscStartTime? || w.SscEndTime? || w.SscRunning?
  }

  predicate TeamWrite(w: SnapshotWrite)
  {
    w.SstTimeouts? || w.SstOfficialReviews? || w.SstOfficialReviewRetained?
  }

  function ClockWritten(c: SnapClock, w: SnapshotWrite): SnapClock
  {
    match w
    case SscNumber(n) => c.(number := n)
    case SscStartTime(n) => c.(startTime := n)
    case SscEndTime(n) => c.(endTime := n)
    case SscRunning(b) => c.(running := b)
    case _ => c
  }

  function TeamWritten(t: SnapTeam, w: SnapshotWrite): SnapTeam
  {
    match w
    case SstTimeouts(n) => t.(timeouts := n)
    case SstOfficialReviews(n) => t.(officialReviews := n)
    case SstOfficialReviewRetained(b) => t.(officialReviewRetained := b)
    case _ => t
  }

  /**
   * One snapshot updater applied to the snapshot the key named: a clock
   * or team setter first finds its part by the key, and reports that part
   * missing when no base matches.
   */
  function Written(s: Snapshot, k: string, w: SnapshotWrite): (r: (Option<Error>, Snapshot))
    ensures r.1.idx == s.idx
  {
    if ClockWrite(w) then
      match FindClock(s, k)
      case None => (Some(ErrSnapshotClockNotFound), s)
      case Some(id) => (None, s.(clocks := WithClock(s.clocks, id, ClockWritten(ClockAt(s.clocks, id), w))))
    else if TeamWrite(w) then
      match FindTeam(s, k)
      case None => (Some(ErrSnapshotTeamNotFound), s)
      case Some(t) => (None, s.(teams := WithTeam(s.teams, t, TeamWritten(TeamAt(s.teams, t), w))))
    else
      match w
      case SsState(v) => (None, s.(state := v))
      case SsInProgress(b) => (None, s.(inProgress := b))
      case SsCanRevert(b) => (None, s.(canRevert := b))
      case SsStartTicks(n) => (None, s.(startTicks := n))
      case SsEndTicks(n) => (None, s.(endTicks := n))
      case SsLength(n) => (None, s.(length := n))
      case SsStartTime(t) => (None, s.(startTime := t))
      case SsEndTime(t) => (None, s.(endTime := t))
  }

  /**
   * A snapshot updater changes only what it addresses: the snapshot keeps
   * its index; a clock setter fails exactly when no clock matches the key
   * and otherwise changes that one clock; a team setter likewise.
   */
  lemma WrittenIsLocal(s: Snapshot, k: string, w: SnapshotWrite)
    ensures var (err, r) := Written(s, k, w);
      && r.idx == s.idx
      && (ClockWrite(w) ==> (
        && (err.Some? <==> forall id :: !HasPrefix(k, ClockBase(s.idx, id) + "."))
        && (err.Some? ==> err == Some(ErrSnapshotClockNotFound) && r == s)
        && (forall id :: HasPrefix(k, ClockBase(s.idx, id) + ".") ==>
              && ClockAt(r.clocks, id) == ClockWritten(ClockAt(s.clocks, id), w)
              && forall o :: o != id ==> ClockAt(r.clocks, o) == ClockAt(s.clocks, o))))
      && (TeamWrite(w) ==> (
        && (err.Some? <==> !HasPrefix(k, TeamBase(s.idx, 0) + ".") && !HasPrefix(k, TeamBase(s.idx, 1) + "."))
        && (err.Some? ==> err == Some(ErrSnapshotTeamNotFound) && r == s)
        && (forall t :: HasPrefix(k, TeamBase(s.idx, if t then 1 else 0) + ".") ==>
              r.clocks == s.clocks && r.teams == WithTeam(s.teams, t, TeamWritten(TeamAt(s.teams, t), w)))))
      && (!ClockWrite(w) && !TeamWrite(w) ==> err.None? && r.clocks == s.clocks && r.teams == s.teams)
  {
    var (err, r) := Written(s, k, w);
    if ClockWrite(w) {
      forall id | HasPrefix(k, ClockBase(s.idx, id) + ".")
        ensures ClockAt(r.clocks, id) == ClockWritten(ClockAt(s.clocks, id), w)
        ensures forall o :: o != id ==> ClockAt(r.clocks, o) == ClockAt(s.clocks, o)
      {
        var f := FindClock(s, k).value;
        ClockBaseUnique(s.idx, k, f, id);
        ClockAtWith(s.clocks, id, ClockWritten(ClockAt(s.clocks, id), w));
      }
    }
    if TeamWrite(w) {
      TeamBaseUnique(s.idx, k);
    }
  }

  // -------------------------------------------------------------- padding

  /** findStateSnapshot's padding: blank snapshots appended, numbered by position, until `id` is an index. */
  function PaddedSnaps(ss: seq<Snapshot>, id: int): (r: seq<Snapshot>)
    ensures |r| == if id < |ss| then |ss| else id + 1
    ensures r[..|ss|] == ss
    ensures forall i :: |ss| <= i < |r| ==> r[i] == Blank(i)
  {
    if id < |ss| then ss else ss + seq(id + 1 - |ss|, i => Blank(|ss| + i))
  }

  /** Each snapshot's index is its place in the list. */
  predicate Indexed(ss: seq<Snapshot>)
  {
    forall i :: 0 <= i < |ss| ==> ss[i].idx == i
  }

  /** Padding keeps the list numbered. */
  lemma PaddedIndexed(ss: seq<Snapshot>, id: int)
    requires Indexed(ss)
    ensures Indexed(PaddedSnaps(ss, id))
  {
    var r := PaddedSnaps(ss, id);
    forall i | 0 <= i < |r|
      ensures r[i].idx == i
    {
      if i < |ss| {
        assert r[i] == r[..|ss|][i];
      }
    }
  }
}
