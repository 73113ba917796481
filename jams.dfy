/**
 * A jam of the game (scoreboard/jam.go): its index in the scoreboard's list
 * of jams, the period and jam numbers it was played under, and for each of
 * the two teams the skaters it fielded. The game (module Scoreboards) owns the
 * list and makes jams; a jam records positions and can put them back.
 */
module Jams {
  import opened GoBase
  import opened Skaters
  import opened Teams

  /** What a jam remembers of one team: its star pass, jammer, pivot and blockers. */
  datatype JamTeam = JamTeam(starPass: string, jammer: string, pivot: string, noPivot: bool, blockers: seq<string>)

  /** A team of a jam just made: nothing recorded. */
  const EmptyJamTeam := JamTeam("", "", "", false, [])

  /**
   * setTeamPosition as written: a jammer's id is recorded as the jam's
   * jammer, a blocker's appended to the blockers, and a pivot's id is also
   * written to the jammer field.
   */
  function TeamPositionAsWritten(jt: JamTeam, s: Skater): JamTeam
  {
    if s.position == Jammer then jt.(jammer := s.id)
    else if s.position == Pivot then jt.(jammer := s.id)
    else if s.position == Blocker then jt.(blockers := jt.blockers + [s.id])
    else jt
  }

  /** setTeamPosition as evidently intended: a pivot's id recorded as the jam's pivot. */
  function TeamPosition(jt: JamTeam, s: Skater): JamTeam
  {
    if s.position == Jammer then jt.(jammer := s.id)
    else if s.position == Pivot then jt.(pivot := s.id)
    else if s.position == Blocker then jt.(blockers := jt.blockers + [s.id])
    else jt
  }

  /**
   * As written, a jam fielding jammer "j" and pivot "p" (met in that order)
   * remembers "p" as its jammer and no pivot at all; corrected, it remembers both.
   */
  lemma PivotRecordedAsJammerAsWritten()
    ensures var j := BlankSkater("j").(position := Jammer);
      var p := BlankSkater("p").(position := Pivot);
      && TeamPositionAsWritten(TeamPositionAsWritten(EmptyJamTeam, j), p) == EmptyJamTeam.(jammer := "p")
      && TeamPosition(TeamPosition(EmptyJamTeam, j), p) == EmptyJamTeam.(jammer := "j", pivot := "p")
  {
  }

  /** The skaters under `order`, in that order. */
  function Listed(m: map<string, Skater>, order: seq<string>): (ss: seq<Skater>)
    requires forall i :: 0 <= i < |order| ==> order[i] in m
    ensures |ss| == |order| && forall i :: 0 <= i < |order| ==> ss[i] == m[order[i]]
  {
    if order == [] then [] else Listed(m, order[..|order| - 1]) + [m[order[|order| - 1]]]
  }

  /** A run of setTeamPosition over `ss`, corrected. */
  function Recorded(jt: JamTeam, ss: seq<Skater>): JamTeam
  {
    if ss == [] then jt else TeamPosition(Recorded(jt, ss[..|ss| - 1]), ss[|ss| - 1])
  }

  /** A run of setTeamPosition over `ss`, as written. */
  function RecordedAsWritten(jt: JamTeam, ss: seq<Skater>): JamTeam
  {
    if ss == [] then jt else TeamPositionAsWritten(RecordedAsWritten(jt, ss[..|ss| - 1]), ss[|ss| - 1])
  }

  /** `who` is `init` when nobody in `ss` holds `pos`, and otherwise the id of one who does. */
  predicate Holder(ss: seq<Skater>, pos: string, init: string, who: string)
  {
    && ((forall i :: 0 <= i < |ss| ==> ss[i].position != pos) ==> who == init)
    && ((exists i :: 0 <= i < |ss| && ss[i].position == pos) ==> exists i :: 0 <= i < |ss| && ss[i].position == pos && ss[i].id == who)
  }

  /**
   * What a corrected run records: the blockers are exactly the blockers
   * met, and the jammer and pivot are each one met at that position.
   */
  lemma {:induction false} RecordedFacts(jt: JamTeam, ss: seq<Skater>)
    ensures forall id :: id in Recorded(jt, ss).blockers <==>
      id in jt.blockers || exists i :: 0 <= i < |ss| && ss[i].position == Blocker && ss[i].id == id
    ensures Holder(ss, Jammer, jt.jammer, Recorded(jt, ss).jammer)
    ensures Holder(ss, Pivot, jt.pivot, Recorded(jt, ss).pivot)
  {
    if ss != [] {
      var init, last := ss[..|ss| - 1], ss[|ss| - 1];
      RecordedFacts(jt, init);
      var before := Recorded(jt, init);
      assert Recorded(jt, ss) == TeamPosition(before, last);
      forall id
        ensures id in Recorded(jt, ss).blockers <==>
          id in jt.blockers || exists i :: 0 <= i < |ss| && ss[i].position == Blocker && ss[i].id == id
      {
        if exists i :: 0 <= i < |ss| && ss[i].position == Blocker && ss[i].id == id {
          var i :| 0 <= i < |ss| && ss[i].position == Blocker && ss[i].id == id;
          if i < |init| {
            assert init[i] == ss[i];
          }
        }
        if exists i :: 0 <= i < |init| && init[i].position == Blocker && init[i].id == id {
          var i :| 0 <= i < |init| && init[i].position == Blocker && init[i].id == id;
          assert ss[i] == init[i];
        }
      }
      HolderStep(init, last, ss, Jammer, jt.jammer, before.jammer, Recorded(jt, ss).jammer);
      HolderStep(init, last, ss, Pivot, jt.pivot, before.pivot, Recorded(jt, ss).pivot);
    }
  }

  lemma HolderStep(init: seq<Skater>, last: Skater, ss: seq<Skater>, pos: string, start: string, who: string, who2: string)
    requires ss == init + [last] && Holder(init, pos, start, who)
    requires who2 == if last.position == pos then last.id else who
    ensures Holder(ss, pos, start, who2)
  {
    assert forall i :: 0 <= i < |init| ==> ss[i] == init[i];
    assert ss[|init|] == last;
    if last.position != pos && exists i :: 0 <= i < |ss| && ss[i].position == pos {
      var i :| 0 <= i < |ss| && ss[i].position == pos;
      assert init[i].position == pos;
    }
  }

  /** Two different members make a set of at least two. */
  lemma TwoMembers(s: set<string>, a: string, b: string)
    requires a in s && b in s && a != b
    ensures |s| >= 2
  {
    Cardinality(s, a);
    Cardinality(s - {a}, b);
  }

  /**
   * Recording a roster (corrected) and reinstating it later puts every
   * skater back where it stood, however the roster moved in between, when
   * each skater is keyed by its id, no key is "", at most one skater holds
   * Jammer and at most one Pivot, and every position is one of the four.
   */
  lemma RecordThenReinstate(m: map<string, Skater>, order: seq<string>, m2: map<string, Skater>, k: string)
    requires forall i :: 0 <= i < |order| ==> order[i] in m
    requires forall key :: key in m ==> key in order
    requires forall key :: key in m ==> m[key].id == key
    requires "" !in m
    requires |HoldersOf(m, Jammer)| <= 1 && |HoldersOf(m, Pivot)| <= 1
    requires forall key :: key in m ==> m[key].position in {Bench, Jammer, Pivot, Blocker}
    requires Repositioned(m, m2) && k in m2
    ensures var r := Recorded(EmptyJamTeam, Listed(m, order));
      Reinstated(m2, r.jammer, r.pivot, r.blockers)[k].position == m[k].position
  {
    var ss := Listed(m, order);
    var r := Recorded(EmptyJamTeam, ss);
    var i :| 0 <= i < |order| && order[i] == k;
    ListedIds(m, order);
    RecordedFacts(EmptyJamTeam, ss);
    RecordedHolder(m, order, ss, k, i, Pivot, r.pivot);
    RecordedHolder(m, order, ss, k, i, Jammer, r.jammer);
    RecordedBlocker(m, order, ss, k, i, r.blockers);
    ReinstatedPositions(m2, r.jammer, r.pivot, r.blockers, k);
  }

  /** Listing skaters keyed by their ids lists the keys' ids. */
  lemma ListedIds(m: map<string, Skater>, order: seq<string>)
    requires forall i :: 0 <= i < |order| ==> order[i] in m
    requires forall key :: key in m ==> m[key].id == key
    ensures forall j :: 0 <= j < |order| ==> Listed(m, order)[j].id == order[j]
  {
  }

  /** The recorded blockers hold `k` exactly when `k` is a blocker. */
  lemma RecordedBlocker(m: map<string, Skater>, order: seq<string>, ss: seq<Skater>, k: string, i: int, blockers: seq<string>)
    requires forall j :: 0 <= j < |order| ==> order[j] in m
    requires |ss| == |order| && forall j :: 0 <= j < |order| ==> ss[j] == m[order[j]] && ss[j].id == order[j]
    requires 0 <= i < |order| && order[i] == k
    requires forall id :: id in blockers <==> id in EmptyJamTeam.blockers || exists j :: 0 <= j < |ss| && ss[j].position == Blocker && ss[j].id == id
    ensures k in blockers <==> m[k].position == Blocker
  {
    if m[k].position == Blocker {
      assert ss[i].position == Blocker && ss[i].id == k;
    } else {
      forall j | 0 <= j < |ss| && ss[j].position == Blocker
        ensures ss[j].id != k
      {
        assert m[order[j]].position == Blocker;
      }
    }
  }

  /** With at most one holder of `pos`, the recorded holder is `k` exactly when `k` holds it. */
  lemma RecordedHolder(m: map<string, Skater>, order: seq<string>, ss: seq<Skater>, k: string, i: int, pos: string, who: string)
    requires forall j :: 0 <= j < |order| ==> order[j] in m
    requires |ss| == |order| && forall j :: 0 <= j < |order| ==> ss[j] == m[order[j]] && ss[j].id == order[j]
    requires "" !in m && |HoldersOf(m, pos)| <= 1
    requires 0 <= i < |order| && order[i] == k
    requires Holder(ss, pos, "", who)
    ensures who == k <==> m[k].position == pos
  {
    if m[k].position == pos {
      assert ss[i].position == pos;
      var j :| 0 <= j < |ss| && ss[j].position == pos && ss[j].id == who;
      if order[j] != k {
        TwoMembers(HoldersOf(m, pos), k, order[j]);
      }
    } else if exists j :: 0 <= j < |ss| && ss[j].position == pos {
      var j :| 0 <= j < |ss| && ss[j].position == pos && ss[j].id == who;
      assert m[order[j]].position == pos;
    } else {
      assert who == "";
    }
  }

  /** jam.teams, a Go array of two: team 1's record, then team 2's. */
  datatype JamTeams = JamTeams(first: JamTeam, second: JamTeam)

  /** The record of team `teamId` (1 or 2), as `teams[teamId-1]` indexes it. */
  function RecordOf(ts: JamTeams, teamId: int): JamTeam
  {
    if teamId == 1 then ts.first else ts.second
  }

  /** `ts` with team `teamId`'s record replaced. */
  function WithRecord(ts: JamTeams, teamId: int, jt: JamTeam): (r: JamTeams)
    requires teamId == 1 || teamId == 2
    ensures RecordOf(r, teamId) == jt && RecordOf(r, 3 - teamId) == RecordOf(ts, 3 - teamId)
  {
    if teamId == 1 then ts.(first := jt) else ts.(second := jt)
  }

  /** A jam; `live` is false once it has been deleted from the game. */
  class Jam {
    const idx: int
    const lastJam: Jam?
    var period: int
    var jam: int
    var teams: JamTeams
    var live: bool

    /**
     * blankJam: numbered 0 in period 0, nothing recorded, following the
     * game's active jam. Appending it to the game's list is the game's part.
     */
    constructor Blank(idx: int, lastJam: Jam?)
      ensures this.idx == idx && this.lastJam == lastJam && live
      ensures period == 0 && jam == 0 && teams == JamTeams(EmptyJamTeam, EmptyJamTeam)
    {
      this.idx := idx;
      this.lastJam := lastJam;
      period := 0;
      jam := 0;
      teams := JamTeams(EmptyJamTeam, EmptyJamTeam);
      live := true;
    }

    /** updateJam: the period and jam numbers taken from the master clock. */
    method UpdateJam(periodNumber: int, jamNumber: int)
      modifies this
      ensures period == periodNumber && jam == jamNumber && teams == old(teams) && live == old(live)
    {
      period := periodNumber;
      jam := jamNumber;
    }

    /** delete: the jam leaves the game. */
    method Delete()
      modifies this
      ensures !live && period == old(period) && jam == old(jam) && teams == old(teams)
    {
      live := false;
    }

    /** clearTeamPositions: team `teamId`'s jammer, pivot and blockers forgotten. */
    method ClearTeamPositions(teamId: int)
      requires teamId == 1 || teamId == 2
      modifies this
      ensures period == old(period) && jam == old(jam) && live == old(live)
      ensures teams == WithRecord(old(teams), teamId, RecordOf(old(teams), teamId).(jammer := "", pivot := "", blockers := []))
    {
      teams := WithRecord(teams, teamId, RecordOf(teams, teamId).(jammer := "", pivot := "", blockers := []));
    }

    /** setTeamPosition as written, for a skater of team `teamId`. */
    method SetTeamPosition(teamId: int, s: Skater)
      requires teamId == 1 || teamId == 2
      modifies this
      ensures period == old(period) && jam == old(jam) && live == old(live)
      ensures teams == WithRecord(old(teams), teamId, TeamPositionAsWritten(RecordOf(old(teams), teamId), s))
    {
      var jt := RecordOf(teams, teamId);
      if s.position == Jammer {
        jt := jt.(jammer := s.id);
      } else if s.position == Pivot {
        jt := jt.(jammer := s.id);
      } else if s.position == Blocker {
        jt := jt.(blockers := jt.blockers + [s.id]);
      }
      teams := WithRecord(teams, teamId, jt);
    }

    /** setTeamPosition corrected: a pivot recorded as the pivot. */
    method SetTeamPositionCorrected(teamId: int, s: Skater)
      requires teamId == 1 || teamId == 2
      modifies this
      ensures period == old(period) && jam == old(jam) && live == old(live)
      ensures teams == WithRecord(old(teams), teamId, TeamPosition(RecordOf(old(teams), teamId), s))
    {
      var jt := RecordOf(teams, teamId);
      if s.position == Jammer {
        jt := jt.(jammer := s.id);
      } else if s.position == Pivot {
        jt := jt.(pivot := s.id);
      } else if s.position == Blocker {
        jt := jt.(blockers := jt.blockers + [s.id]);
      }
      teams := WithRecord(teams, teamId, jt);
    }

    /**
     * newJam's recording of one team's roster `m`: setTeamPosition for each
     * skater in the roster's unspecified order, which `order` reports, with
     * `ss` the skaters in that order.
     */
    method RecordTeam(teamId: int, m: map<string, Skater>) returns (ghost order: seq<string>, ghost ss: seq<Skater>)
      requires teamId == 1 || teamId == 2
      modifies this
      ensures period == old(period) && jam == old(jam) && live == old(live)
      ensures Enumerates(m, order, {}) && Lists(m, order, ss)
      ensures teams == WithRecord(old(teams), teamId, RecordedAsWritten(RecordOf(old(teams), teamId), ss))
    {
      order, ss := [], [];
      var todo := m.Keys;
      while todo != {}
        invariant period == old(period) && jam == old(jam) && live == old(live)
        invariant Enumerates(m, order, todo) && Lists(m, order, ss)
        invariant teams == WithRecord(old(teams), teamId, RecordedAsWritten(RecordOf(old(teams), teamId), ss))
        decreases |todo|
      {
        var k :| k in todo;
        var rest := todo - {k};
        assert |rest| < |todo|;
        // setTeamPosition, as written
        teams := WithRecord(teams, teamId, TeamPositionAsWritten(RecordOf(teams, teamId), m[k]));
        EnumerateStep(m, order, ss, k, todo, rest);
        assert (ss + [m[k]])[..|ss|] == ss;
        order, ss := order + [k], ss + [m[k]];
        todo := rest;
      }
    }
  }

  /** `order` lists keys of `m` outside `todo`, and every key of `m` outside `todo`. */
  predicate Enumerates(m: map<string, Skater>, order: seq<string>, todo: set<string>)
  {
    && todo <= m.Keys
    && (forall i :: 0 <= i < |order| ==> order[i] in m && order[i] !in todo)
    && (forall x :: x in m && x !in todo ==> x in order)
  }

  /** `ss` holds the skaters under `order`. */
  predicate Lists(m: map<string, Skater>, order: seq<string>, ss: seq<Skater>)
  {
    |ss| == |order| && forall i :: 0 <= i < |order| ==> order[i] in m && ss[i] == m[order[i]]
  }

  /** One more key done. */
  lemma EnumerateStep(m: map<string, Skater>, order: seq<string>, ss: seq<Skater>, k: string, todo: set<string>, rest: set<string>)
    requires k in todo && rest == todo - {k} && Enumerates(m, order, todo) && Lists(m, order, ss)
    ensures Enumerates(m, order + [k], rest) && Lists(m, order + [k], ss + [m[k]])
  {
  }

  /** The skaters a listing holds are Listed's. */
  lemma ListsListed(m: map<string, Skater>, order: seq<string>, ss: seq<Skater>)
    requires Lists(m, order, ss)
    ensures ss == Listed(m, order)
  {
  }
}
