/**
 * A team of the game (scoreboard/team.go), with the skater operations that
 * work through it (scoreboard/skater.go): its scores, timeouts and official
 * reviews, its lead and star-pass flags, the ids of its jammer and pivot,
 * and its skaters keyed by the id in their state path. Every published
 * write to the state store is left out; the team's fields are what the
 * model keeps.
 */
module Teams {
  import opened GoBase
  import opened GoStrconv
  import opened Utils
  import opened Skaters

  const LeadLead := "Lead"
  const LeadNo := "No"
  const LeadLost := "Lost"

  // ---------------------------------------------------------------- scores

  /** A team's score and its score at the end of the last jam. */
  datatype Scores = Scores(score: int, lastScore: int)

  /** What setScore and setLastScore keep: neither score negative, the last no higher than the current. */
  predicate ScoresValid(c: Scores)
  {
    0 <= c.lastScore <= c.score
  }

  /** The published JamScore: points scored since the last jam ended. */
  function JamScore(c: Scores): int
  {
    c.score - c.lastScore
  }

  /**
   * setScore: a negative score is ignored; otherwise the score is taken and
   * the last score is pulled down to it when it would exceed it.
   */
  function ScoreSet(c: Scores, v: int): (r: Scores)
    ensures ScoresValid(c) ==> ScoresValid(r) && JamScore(r) >= 0
    ensures v < 0 ==> r == c
    ensures v >= 0 ==> r.score == v && r.lastScore <= c.lastScore && (r.lastScore == c.lastScore || r.lastScore == v)
  {
    if v < 0 then c else Scores(v, if v < c.lastScore then v else c.lastScore)
  }

  /** setLastScore: taken only when between 0 and the current score. */
  function LastScoreSet(c: Scores, v: int): (r: Scores)
    ensures ScoresValid(c) ==> ScoresValid(r)
    ensures r.score == c.score
    ensures r.lastScore == (if 0 <= v <= c.score then v else c.lastScore)
  {
    if v < 0 || v > c.score then c else Scores(c.score, v)
  }

  /** Score.Inc then Score.Dec gives the scores back. */
  lemma IncThenDec(c: Scores)
    requires ScoresValid(c)
    ensures ScoreSet(ScoreSet(c, c.score + 1), c.score) == c
  {
  }

  /**
   * Score.Dec then Score.Inc gives the score back, but a last score equal to
   * the score stays one lower; at 0, Dec changes nothing.
   */
  lemma DecThenInc(c: Scores)
    requires ScoresValid(c)
    ensures c.score > 0 && c.lastScore == c.score ==>
      ScoreSet(ScoreSet(c, c.score - 1), c.score) == Scores(c.score, c.score - 1)
    ensures c.lastScore < c.score ==> ScoreSet(ScoreSet(c, c.score - 1), c.score) == c
    ensures c.score == 0 ==> ScoreSet(c, c.score - 1) == c
  {
  }

  /** LastScore.Inc stops at the score; LastScore.Dec stops at 0. */
  lemma LastScoreStops(c: Scores)
    requires ScoresValid(c)
    ensures c.lastScore == c.score ==> LastScoreSet(c, c.lastScore + 1) == c
    ensures c.lastScore == 0 ==> LastScoreSet(c, c.lastScore - 1) == c
    ensures c.lastScore < c.score ==> LastScoreSet(LastScoreSet(c, c.lastScore + 1), c.lastScore) == c
  {
  }

  // ------------------------------------------------------ official reviews

  /**
   * retainOfficialReview: a used review not yet retained is given back and
   * marked retained; a retained one is taken away again; otherwise nothing.
   */
  function ReviewRetained(reviews: int, retained: bool): (r: (int, bool))
    ensures r != (reviews, retained) <==> (reviews == 0 && !retained) || (reviews == 1 && retained)
  {
    if reviews == 0 && !retained then (1, true)
    else if reviews == 1 && retained then (0, false)
    else (reviews, retained)
  }

  /** Retaining twice gives the review state back. */
  lemma RetainTwice(reviews: int, retained: bool)
    ensures ReviewRetained(ReviewRetained(reviews, retained).0, ReviewRetained(reviews, retained).1) == (reviews, retained)
  {
  }

  // ------------------------------------------------------------- positions

  /** The keys of the skaters holding `pos`. */
  function HoldersOf(m: map<string, Skater>, pos: string): set<string>
  {
    set k | k in m && m[k].position == pos
  }

  /**
   * What updatePositions leaves in the team's jammer or pivot id: "" when
   * nobody holds the position, else the id of someone who holds it.
   */
  predicate Tracks(m: map<string, Skater>, who: string, pos: string)
  {
    && (HoldersOf(m, pos) == {} ==> who == "")
    && (HoldersOf(m, pos) != {} ==> exists k :: k in HoldersOf(m, pos) && m[k].id == who)
  }

  /** How many blockers a skater moving to blocker leaves room for, before counting them. */
  function Open(m: map<string, Skater>, pivot: string, key: string): int
    requires key in m
  {
    if pivot == "" || m[key].position == Pivot then 4 else 3
  }

  /** Jammer and Pivot are reached first, and move someone else to Bench or Blocker. */
  function Rank(pos: string): nat
  {
    if pos == Jammer || pos == Pivot then 1 else 0
  }

  /**
   * The error setPosition returns for skater `key` asked to take `v`: none
   * when it already holds it; in the box, it may not move; to Jammer or
   * Pivot, whatever moving the current holder away returns; any other
   * position is a blocker's and is refused once the blockers fill it.
   */
  function PositionRefusal(m: map<string, Skater>, jammer: string, pivot: string, key: string, v: string): Option<Error>
    requires key in m
    decreases Rank(v)
  {
    var s := m[key];
    if v == s.position then None
    else if InBox(s) then Some(ErrSkaterInBox)
    else if v == Bench then None
    else if v == Jammer then
      (if jammer in m then PositionRefusal(m, jammer, pivot, jammer, Bench) else None)
    else if v == Pivot then
      (if pivot in m then PositionRefusal(m, jammer, pivot, pivot, if s.position == Blocker then Blocker else Bench) else None)
    else if |HoldersOf(m, Blocker)| >= Open(m, pivot, key) then Some(ErrPositionFull)
    else None
  }

  /** Skater `k`'s new position when `key` takes `v` and displaces it. */
  predicate Displaced(m: map<string, Skater>, jammer: string, pivot: string, key: string, v: string, k: string, now: string)
    requires key in m
  {
    || (v == Jammer && k == jammer && now == Bench)
    || (v == Pivot && k == pivot && now == (if m[key].position == Blocker then Blocker else Bench))
  }

  /**
   * What setPosition leaves, from roster `m0` with jammer `j0` and pivot
   * `p0` to `m1`, `j1`, `p1`: only positions change; the error is
   * PositionRefusal's, and a refusal changes nothing; otherwise `key` holds
   * `v`, any other skater moved is the one displaced, the blockers stay
   * within the room that was open, and the jammer and pivot ids are
   * recomputed exactly when the move involves one of those positions.
   */
  predicate PositionOutcome(m0: map<string, Skater>, j0: string, p0: string, key: string, v: string,
                            m1: map<string, Skater>, j1: string, p1: string, err: Option<Error>)
    requires key in m0
  {
    && Repositioned(m0, m1)
    && err == PositionRefusal(m0, j0, p0, key, v)
    && (err.Some? ==> m1 == m0 && j1 == j0 && p1 == p0)
    && (err.None? ==> m1[key].position == v)
    && (forall k :: k in m1 && k != key && m1[k].position != m0[k].position ==> Displaced(m0, j0, p0, key, v, k, m1[k].position))
    && (err.None? && v == Blocker && m0[key].position != Blocker ==> |HoldersOf(m1, Blocker)| <= Open(m0, p0, key))
    && (err.None? && m0[key].position != v && Recomputes(m0[key].position, v) ==> Tracks(m1, j1, Jammer) && Tracks(m1, p1, Pivot))
    && (m0[key].position == v || !Recomputes(m0[key].position, v) ==> j1 == j0 && p1 == p0)
  }

  /** Whether a move from `was` to `v` recomputes the team's jammer and pivot. */
  predicate Recomputes(was: string, v: string)
  {
    v == Jammer || v == Pivot || was == Jammer || was == Pivot
  }

  /** A skater's current trip is one of its trips. */
  predicate TripsValid(s: Skater)
  {
    s.curBoxTrip.Some? ==> s.curBoxTrip.value < |s.boxTrips|
  }

  /**
   * setInBox, when accepted: entering opens a new trip in the last jam
   * (`jamIdxs` lists each jam's idx), after a star pass when the team has
   * passed the star; leaving records the last jam in the current trip's
   * out side as setOutJamIdx does and closes the trip.
   */
  function BoxSet(s: Skater, v: bool, jamIdxs: seq<int>, starPass: bool): (r: Skater)
    requires TripsValid(s) && (!v ==> InBox(s))
    ensures TripsValid(r) && InBox(r) == v
    ensures r == s.(boxTrips := r.boxTrips, curBoxTrip := r.curBoxTrip)
    ensures v ==>
      (r.boxTrips == s.boxTrips + [NewBoxTripAsWritten(|jamIdxs| - 1, false, starPass, jamIdxs)] && r.curBoxTrip == Some(|s.boxTrips|))
    ensures !v ==>
      && |r.boxTrips| == |s.boxTrips|
      && r.boxTrips[s.curBoxTrip.value].inAt == s.boxTrips[s.curBoxTrip.value].inAt
      && r.boxTrips[s.curBoxTrip.value].outAt ==
           s.boxTrips[s.curBoxTrip.value].outAt.(jamIdx := OutJamIdxAsWritten(s.boxTrips[s.curBoxTrip.value].outAt.jamIdx, |jamIdxs| - 1, jamIdxs))
      && forall i :: 0 <= i < |s.boxTrips| && i != s.curBoxTrip.value ==> r.boxTrips[i] == s.boxTrips[i]
  {
    if v then
      var t := NewBoxTripAsWritten(|jamIdxs| - 1, false, starPass, jamIdxs);
      s.(boxTrips := s.boxTrips + [t], curBoxTrip := Some(|s.boxTrips|))
    else
      var i := s.curBoxTrip.value;
      var t := s.boxTrips[i];
      var out := t.outAt.(jamIdx := OutJamIdxAsWritten(t.outAt.jamIdx, |jamIdxs| - 1, jamIdxs));
      s.(boxTrips := s.boxTrips[i := t.(outAt := out)], curBoxTrip := None)
  }

  /**
   * A trip into the box and back out leaves the skater out of the box with
   * one trip more, which began and ended in the last jam.
   */
  lemma BoxRoundTrip(s: Skater, jamIdxs: seq<int>, starPass: bool)
    requires TripsValid(s) && !InBox(s) && |jamIdxs| > 0
    ensures var r := BoxSet(BoxSet(s, true, jamIdxs, starPass), false, jamIdxs, starPass);
      !InBox(r) && |r.boxTrips| == |s.boxTrips| + 1 && r.boxTrips[..|s.boxTrips|] == s.boxTrips &&
      r.boxTrips[|s.boxTrips|].inAt == BoxTripTime(jamIdxs[|jamIdxs| - 1], false, starPass) &&
      r.boxTrips[|s.boxTrips|].outAt.jamIdx == jamIdxs[|jamIdxs| - 1]
  {
    var r := BoxSet(BoxSet(s, true, jamIdxs, starPass), false, jamIdxs, starPass);
    assert r.boxTrips[..|s.boxTrips|] == s.boxTrips;
  }

  /** `after` holds the same skaters as `before`, changed at most in their positions. */
  predicate Repositioned(before: map<string, Skater>, after: map<string, Skater>)
  {
    && after.Keys == before.Keys
    && forall k :: k in after ==> after[k] == before[k].(position := after[k].position)
  }

  /** Every skater's current trip is one of its trips. */
  predicate RosterValid(m: map<string, Skater>)
  {
    forall k :: k in m ==> TripsValid(m[k])
  }

  /** The skater under `key`, if any, moved to `pos`. */
  function PutAt(m: map<string, Skater>, key: string, pos: string): (r: map<string, Skater>)
    ensures Repositioned(m, r)
    ensures forall k :: k in r ==> r[k].position == if k == key then pos else m[k].position
  {
    if key in m then m[key := m[key].(position := pos)] else m
  }

  /** Every skater moved to the bench. */
  function Benched(m: map<string, Skater>): (r: map<string, Skater>)
    ensures Repositioned(m, r)
    ensures forall k :: k in r ==> r[k].position == Bench
  {
    map k | k in m :: m[k].(position := Bench)
  }

  /**
   * reinstatePositions for one team: every skater benched, then the jam's
   * jammer, pivot and blockers put back, each only when the team has a
   * skater under that key; a later entry wins.
   */
  function Reinstated(m: map<string, Skater>, jammer: string, pivot: string, blockers: seq<string>): (r: map<string, Skater>)
    ensures Repositioned(m, r)
  {
    var r := BlockersPut(PutAt(PutAt(Benched(m), jammer, Jammer), pivot, Pivot), blockers);
    RepositionedTrans(m, Benched(m), PutAt(Benched(m), jammer, Jammer));
    RepositionedTrans(m, PutAt(Benched(m), jammer, Jammer), PutAt(PutAt(Benched(m), jammer, Jammer), pivot, Pivot));
    RepositionedTrans(m, PutAt(PutAt(Benched(m), jammer, Jammer), pivot, Pivot), r);
    r
  }

  /** The blockers of a jam put back in order. */
  function BlockersPut(m: map<string, Skater>, blockers: seq<string>): (r: map<string, Skater>)
    ensures Repositioned(m, r)
  {
    if blockers == [] then m
    else
      var r := BlockersPut(m, blockers[..|blockers| - 1]);
      RepositionedTrans(m, r, PutAt(r, blockers[|blockers| - 1], Blocker));
      PutAt(r, blockers[|blockers| - 1], Blocker)
  }

  lemma RepositionedTrans(a: map<string, Skater>, b: map<string, Skater>, c: map<string, Skater>)
    requires Repositioned(a, b) && Repositioned(b, c)
    ensures Repositioned(a, c)
  {
  }

  /** Moving skaters keeps every skater's trips, and so a valid roster valid. */
  lemma RepositionedValid(before: map<string, Skater>, after: map<string, Skater>)
    requires Repositioned(before, after) && RosterValid(before)
    ensures RosterValid(after)
  {
    forall k | k in after
      ensures TripsValid(after[k])
    {
      assert after[k].boxTrips == before[k].boxTrips && after[k].curBoxTrip == before[k].curBoxTrip;
    }
  }

  /**
   * The position each skater ends with: a listed blocker is a blocker, else
   * the jam's pivot is pivot, else the jam's jammer is jammer, else on the bench.
   */
  lemma ReinstatedPositions(m: map<string, Skater>, jammer: string, pivot: string, blockers: seq<string>, k: string)
    requires k in m
    ensures Reinstated(m, jammer, pivot, blockers)[k].position ==
      if k in blockers then Blocker else if k == pivot then Pivot else if k == jammer then Jammer else Bench
  {
    BlockersPutPosition(PutAt(PutAt(Benched(m), jammer, Jammer), pivot, Pivot), blockers, k);
  }

  lemma {:induction false} BlockersPutPosition(m: map<string, Skater>, blockers: seq<string>, k: string)
    requires k in m
    ensures BlockersPut(m, blockers)[k].position == if k in blockers then Blocker else m[k].position
  {
    if blockers != [] {
      var init, last := blockers[..|blockers| - 1], blockers[|blockers| - 1];
      var r := BlockersPut(m, init);
      BlockersPutPosition(m, init, k);
      assert k in r;
      assert BlockersPut(m, blockers)[k].position == if k == last then Blocker else r[k].position;
      InLastOrBefore(blockers, k);
    }
  }

  /** A value is in a non-empty sequence when it is the last element or in the rest. */
  lemma InLastOrBefore<T>(s: seq<T>, x: T)
    requires |s| > 0
    ensures x in s <==> x in s[..|s| - 1] || x == s[|s| - 1]
  {
    assert s == s[..|s| - 1] + [s[|s| - 1]];
  }

  // ------------------------------------------------------------ the team

  /** The fields of a team other than its roster. */
  datatype TeamInfo = TeamInfo(name: string, color: string, scores: Scores, timeouts: int, officialReviews: int,
                       officialReviewRetained: bool, lead: string, starPass: bool)

  /** One of the skater updaters registered under `Team(n).Skater(*).<field>`. */
  datatype SkaterWrite =
    | WriteID(text: string)
    | WriteName(text: string)
    | WriteLegalName(text: string)
    | WriteInsuranceNumber(text: string)
    | WriteNumber(text: string)
    | WriteIsAlt(flag: bool)
    | WriteIsCaptain(flag: bool)
    | WriteIsAltCaptain(flag: bool)
    | WriteIsBenchStaff(flag: bool)
    | WritePosition(text: string)
    | WriteInBox(flag: bool)

  /** The skater after one of the plain field writes (every write but Position and InBox). */
  function Written(s: Skater, w: SkaterWrite): (r: Skater)
    requires !w.WritePosition? && !w.WriteInBox?
    ensures r.position == s.position && r.boxTrips == s.boxTrips && r.curBoxTrip == s.curBoxTrip
  {
    match w
    case WriteID(t) => s.(id := t)
    case WriteName(t) => s.(name := t)
    case WriteLegalName(t) => s.(legalName := t)
    case WriteInsuranceNumber(t) => s.(insuranceNumber := t)
    case WriteNumber(t) => s.(number := t)
    case WriteIsAlt(b) => s.(isAlt := b)
    case WriteIsCaptain(b) => s.(isCaptain := b)
    case WriteIsAltCaptain(b) => s.(isAltCaptain := b)
    case WriteIsBenchStaff(b) => s.(isBenchStaff := b)
  }

  class Team {
    const id: int
    var name: string
    var color: string
    var score: int
    var lastScore: int
    var timeouts: int
    var officialReviews: int
    var officialReviewRetained: bool
    var lead: string
    var starPass: bool
    var jammer: string
    var pivot: string
    var skaters: map<string, Skater>

    /** The scores keep their order, and every skater's current trip is one of its trips. */
    ghost predicate Valid()
      reads this
    {
      && ScoresValid(Scores(score, lastScore))
      && RosterValid(skaters)
    }

    function Info(): TeamInfo
      reads this
    {
      TeamInfo(name, color, Scores(score, lastScore), timeouts, officialReviews, officialReviewRetained, lead, starPass)
    }

    /** newTeam: an empty roster, then reset. */
    constructor(id: int)
      ensures Valid() && this.id == id && skaters == map[] && jammer == "" && pivot == ""
      ensures Info() == TeamInfo("Team " + FormatInt(id), if id == 1 then "Black" else "White", Scores(0, 0), 3, 1, false, LeadNo, false)
    {
      this.id := id;
      name := "";
      color := "";
      score := 0;
      lastScore := 0;
      timeouts := 0;
      officialReviews := 0;
      officialReviewRetained := false;
      lead := "";
      starPass := false;
      jammer := "";
      pivot := "";
      skaters := map[];
      new;
      Reset();
    }

    /**
     * reset: name, colour, scores, timeouts, reviews and flags back to
     * their starting values; the jammer and pivot are then set to the
     * skater keyed "", which changes nothing unless such a skater exists.
     */
    method Reset()
      requires Valid()
      modifies this
      ensures Valid() && skaters.Keys == old(skaters.Keys)
      ensures Info() == TeamInfo("Team " + FormatInt(id), if id == 1 then "Black" else "White", Scores(0, 0), 3, 1, false, LeadNo, false)
      ensures "" !in old(skaters) ==> skaters == old(skaters) && jammer == old(jammer) && pivot == old(pivot)
    {
      ResetCounters();
      var _ := SetJammer("");
      var _ := SetPivot("");
    }

    /** reset's setters, up to its jammer and pivot. */
    method ResetCounters()
      requires Valid()
      modifies this
      ensures Valid() && skaters == old(skaters) && jammer == old(jammer) && pivot == old(pivot)
      ensures Info() == TeamInfo("Team " + FormatInt(id), if id == 1 then "Black" else "White", Scores(0, 0), 3, 1, false, LeadNo, false)
    {
      SetName("Team " + FormatInt(id));
      if id == 1 {
        SetColor("Black");
      } else {
        SetColor("White");
      }
      SetScore(0);
      SetLastScore(0);
      SetTimeouts(3);
      SetOfficialReviews(1);
      SetOfficialReviewRetained(false);
      SetLead(LeadNo);
      SetStarPass(false);
    }

    method SetName(v: string)
      modifies this
      ensures Info() == old(Info()).(name := v) && skaters == old(skaters) && jammer == old(jammer) && pivot == old(pivot)
    {
      name := v;
    }

    method SetColor(v: string)
      modifies this
      ensures Info() == old(Info()).(color := v) && skaters == old(skaters) && jammer == old(jammer) && pivot == old(pivot)
    {
      color := v;
    }

    /** setScore */
    method SetScore(v: int)
      modifies this
      ensures Info() == old(Info()).(scores := ScoreSet(old(Info().scores), v))
      ensures skaters == old(skaters) && jammer == old(jammer) && pivot == old(pivot)
    {
      if v < 0 {
        return;
      }
      score := v;
      if v < lastScore {
        SetLastScore(v);
      }
    }

    /** setLastScore */
    method SetLastScore(v: int)
      modifies this
      ensures Info() == old(Info()).(scores := LastScoreSet(old(Info().scores), v))
      ensures skaters == old(skaters) && jammer == old(jammer) && pivot == old(pivot)
    {
      if v < 0 {
        return;
      }
      if v > score {
        return;
      }
      lastScore := v;
    }

    method SetTimeouts(v: int)
      modifies this
      ensures Info() == old(Info()).(timeouts := v) && skaters == old(skaters) && jammer == old(jammer) && pivot == old(pivot)
    {
      timeouts := v;
    }

    method SetOfficialReviews(v: int)
      modifies this
      ensures Info() == old(Info()).(officialReviews := v) && skaters == old(skaters) && jammer == old(jammer) && pivot == old(pivot)
    {
      officialReviews := v;
    }

    method SetOfficialReviewRetained(v: bool)
      modifies this
      ensures Info() == old(Info()).(officialReviewRetained := v)
      ensures skaters == old(skaters) && jammer == old(jammer) && pivot == old(pivot)
    {
      officialReviewRetained := v;
    }

    method SetLead(v: string)
      modifies this
      ensures Info() == old(Info()).(lead := v) && skaters == old(skaters) && jammer == old(jammer) && pivot == old(pivot)
    {
      lead := v;
    }

    method SetStarPass(v: bool)
      modifies this
      ensures Info() == old(Info()).(starPass := v) && skaters == old(skaters) && jammer == old(jammer) && pivot == old(pivot)
    {
      starPass := v;
    }

    /** Score.Inc */
    method IncScore()
      modifies this
      ensures Info() == old(Info()).(scores := ScoreSet(old(Info().scores), old(score) + 1))
      ensures skaters == old(skaters) && jammer == old(jammer) && pivot == old(pivot)
    {
      SetScore(score + 1);
    }

    /** Score.Dec */
    method DecScore()
      modifies this
      ensures Info() == old(Info()).(scores := ScoreSet(old(Info().scores), old(score) - 1))
      ensures skaters == old(skaters) && jammer == old(jammer) && pivot == old(pivot)
    {
      SetScore(score - 1);
    }

    /** LastScore.Inc */
    method IncLastScore()
      modifies this
      ensures Info() == old(Info()).(scores := LastScoreSet(old(Info().scores), old(lastScore) + 1))
      ensures skaters == old(skaters) && jammer == old(jammer) && pivot == old(pivot)
    {
      SetLastScore(lastScore + 1);
    }

    /** LastScore.Dec */
    method DecLastScore()
      modifies this
      ensures Info() == old(Info()).(scores := LastScoreSet(old(Info().scores), old(lastScore) - 1))
      ensures skaters == old(skaters) && jammer == old(jammer) && pivot == old(pivot)
    {
      SetLastScore(lastScore - 1);
    }

    /** useTimeout: one timeout taken when any is left. */
    method UseTimeout() returns (ok: bool)
      modifies this
      ensures ok == (old(timeouts) > 0)
      ensures Info() == old(Info()).(timeouts := if ok then old(timeouts) - 1 else old(timeouts))
      ensures skaters == old(skaters) && jammer == old(jammer) && pivot == old(pivot)
    {
      if timeouts > 0 {
        SetTimeouts(timeouts - 1);
        return true;
      }
      return false;
    }

    /** useOfficialReview: one review taken when any is left. */
    method UseOfficialReview() returns (ok: bool)
      modifies this
      ensures ok == (old(officialReviews) > 0)
      ensures Info() == old(Info()).(officialReviews := if ok then old(officialReviews) - 1 else old(officialReviews))
      ensures skaters == old(skaters) && jammer == old(jammer) && pivot == old(pivot)
    {
      if officialReviews > 0 {
        SetOfficialReviews(officialReviews - 1);
        return true;
      }
      return false;
    }

    /** OfficialReviews.Retained */
    method RetainOfficialReview()
      modifies this
      ensures var r := ReviewRetained(old(officialReviews), old(officialReviewRetained));
        Info() == old(Info()).(officialReviews := r.0, officialReviewRetained := r.1)
      ensures skaters == old(skaters) && jammer == old(jammer) && pivot == old(pivot)
    {
      if officialReviews == 0 && !officialReviewRetained {
        SetOfficialReviews(1);
        SetOfficialReviewRetained(true);
      } else if officialReviews == 1 && officialReviewRetained {
        SetOfficialReviews(0);
        SetOfficialReviewRetained(false);
      }
    }

    /** DeleteSkater: the first argument names the skater; the jammer and pivot ids are left as they were. */
    method DeleteSkater(data: seq<string>) returns (err: Option<Error>)
      modifies this
      ensures err == if |data| >= 1 && data[0] in old(skaters) then None else Some(ErrSkaterNotFound)
      ensures skaters == if err.None? then old(skaters) - {data[0]} else old(skaters)
      ensures Info() == old(Info()) && jammer == old(jammer) && pivot == old(pivot)
    {
      if |data| < 1 {
        return Some(ErrSkaterNotFound);
      }
      if data[0] !in skaters {
        return Some(ErrSkaterNotFound);
      }
      skaters := skaters - {data[0]};
      return None;
    }

    /**
     * updatePositions: the jammer and pivot ids cleared, then taken from the
     * skaters holding those positions, in the map's unspecified order.
     */
    method UpdatePositions()
      modifies this
      ensures Info() == old(Info()) && skaters == old(skaters)
      ensures Tracks(skaters, jammer, Jammer) && Tracks(skaters, pivot, Pivot)
    {
      jammer := "";
      pivot := "";
      var todo := skaters.Keys;
      while todo != {}
        invariant todo <= skaters.Keys && Info() == old(Info()) && skaters == old(skaters)
        invariant Tracks(skaters - todo, jammer, Jammer) && Tracks(skaters - todo, pivot, Pivot)
        decreases |todo|
      {
        var k :| k in todo;
        TrackStep(skaters, todo, k, jammer, Jammer, skaters[k].position == Jammer);
        TrackStep(skaters, todo, k, pivot, Pivot, skaters[k].position == Pivot);
        if skaters[k].position == Jammer {
          jammer := skaters[k].id;
        } else if skaters[k].position == Pivot {
          pivot := skaters[k].id;
        }
        todo := todo - {k};
      }
      assert skaters - {} == skaters;
    }

    /** The blocker count setPosition takes, one skater at a time. */
    method CountBlockers() returns (n: nat)
      ensures n == |HoldersOf(skaters, Blocker)|
    {
      n := 0;
      var todo := skaters.Keys;
      while todo != {}
        invariant todo <= skaters.Keys
        invariant n == |HoldersOf(skaters - todo, Blocker)|
        decreases |todo|
      {
        var k :| k in todo;
        CountStep(skaters, todo, k);
        if skaters[k].position == Blocker {
          n := n + 1;
        }
        todo := todo - {k};
      }
      assert skaters - {} == skaters;
    }

    /** setPosition's inner set: the position taken, and jammer and pivot recomputed when either end is one of them. */
    method PutPosition(key: string, v: string)
      requires key in skaters
      modifies this
      ensures skaters == old(skaters)[key := old(skaters[key]).(position := v)] && Info() == old(Info())
      ensures Recomputes(old(skaters[key].position), v) ==> Tracks(skaters, jammer, Jammer) && Tracks(skaters, pivot, Pivot)
      ensures !Recomputes(old(skaters[key].position), v) ==> jammer == old(jammer) && pivot == old(pivot)
    {
      var recompute := Recomputes(skaters[key].position, v);
      skaters := skaters[key := skaters[key].(position := v)];
      if recompute {
        UpdatePositions();
      }
    }

    /**
     * setPosition: skater `key` takes position `v`. A skater in the box
     * cannot move. Taking Jammer first benches the team's jammer; taking
     * Pivot first moves the team's pivot to Bench, or to Blocker when the
     * mover was a blocker; any other position is a blocker's, open while
     * fewer than three blockers (four without a pivot, or for the pivot
     * itself) are on the track. A refused move changes nothing.
     */
    method SetPosition(key: string, v: string) returns (err: Option<Error>)
      requires key in skaters
      modifies this
      decreases Rank(v), 1
      ensures Info() == old(Info())
      ensures PositionOutcome(old(skaters), old(jammer), old(pivot), key, v, skaters, jammer, pivot, err)
    {
      var s := skaters[key];
      if v == s.position {
        return None;
      }
      if InBox(s) {
        return Some(ErrSkaterInBox);
      }
      if v == Bench {
        err := ToBench(key);
      } else if v == Jammer {
        err := Displace(key, v, jammer, Bench);
      } else if v == Pivot {
        err := Displace(key, v, pivot, if s.position == Blocker then Blocker else Bench);
      } else {
        err := AddBlocker(key, v);
      }
    }

    /** setPosition to the bench: always taken by a skater out of the box. */
    method ToBench(key: string) returns (err: Option<Error>)
      requires key in skaters && !InBox(skaters[key]) && skaters[key].position != Bench
      modifies this
      ensures Info() == old(Info())
      ensures PositionOutcome(old(skaters), old(jammer), old(pivot), key, Bench, skaters, jammer, pivot, err)
    {
      PutPosition(key, Bench);
      return None;
    }

    /**
     * setPosition to Jammer or Pivot: the skater `other` now holding it
     * moves to `to` first, and a refusal there is the refusal here.
     */
    method Displace(key: string, v: string, other: string, to: string) returns (err: Option<Error>)
      requires key in skaters && !InBox(skaters[key]) && skaters[key].position != v
      requires || (v == Jammer && other == jammer && to == Bench)
               || (v == Pivot && other == pivot && to == (if skaters[key].position == Blocker then Blocker else Bench))
      modifies this
      decreases Rank(v), 0
      ensures Info() == old(Info())
      ensures PositionOutcome(old(skaters), old(jammer), old(pivot), key, v, skaters, jammer, pivot, err)
    {
      ghost var m0, j0, p0 := skaters, jammer, pivot;
      if other in skaters {
        err := SetPosition(other, to);
        if err.Some? {
          return;
        }
        OtherMoved(m0, j0, p0, other, to, skaters, jammer, pivot);
      }
      ghost var m1 := skaters;
      PutPosition(key, v);
      DisplaceOutcome(m0, j0, p0, key, v, other, to, m1, skaters, jammer, pivot);
      return None;
    }

    /** setPosition to a blocker's place: refused once the blockers fill the room open to this skater. */
    method AddBlocker(key: string, v: string) returns (err: Option<Error>)
      requires key in skaters && !InBox(skaters[key]) && skaters[key].position != v
      requires v != Bench && v != Jammer && v != Pivot
      modifies this
      ensures Info() == old(Info())
      ensures PositionOutcome(old(skaters), old(jammer), old(pivot), key, v, skaters, jammer, pivot, err)
    {
      var open := Open(skaters, pivot, key);
      var blockers := CountBlockers();
      if open - blockers < 1 {
        return Some(ErrPositionFull);
      }
      BlockerAdded(skaters, key, v);
      PutPosition(key, v);
      return None;
    }

    /**
     * newJam's first step for this team: every skater asked to go to the
     * bench, one at a time in the roster's unspecified order; a skater in
     * the box stays where it is. The jammer and pivot ids are recomputed
     * when a jammer or pivot out of the box leaves.
     */
    method BenchAll()
      requires Valid()
      modifies this
      ensures Valid() && Info() == old(Info()) && Repositioned(old(skaters), skaters)
      ensures forall k :: k in skaters ==> skaters[k].position == if InBox(old(skaters[k])) then old(skaters[k].position) else Bench
      ensures Leavers(old(skaters)) != {} ==> (Tracks(skaters, jammer, Jammer) && Tracks(skaters, pivot, Pivot))
      ensures Leavers(old(skaters)) == {} ==> (jammer == old(jammer) && pivot == old(pivot))
      ensures BenchProgress(old(skaters), old(jammer), old(pivot), {}, skaters, jammer, pivot)
    {
      var todo := skaters.Keys;
      while todo != {}
        invariant Info() == old(Info())
        invariant BenchProgress(old(skaters), old(jammer), old(pivot), todo, skaters, jammer, pivot)
        decreases |todo|
      {
        var k :| k in todo;
        var rest := todo - {k};
        assert |rest| < |todo|;
        ghost var m, j, p := skaters, jammer, pivot;
        BenchOne(k);
        BenchStep(old(skaters), old(jammer), old(pivot), todo, k, rest, m, j, p, skaters, jammer, pivot);
        todo := rest;
      }
      RepositionedValid(old(skaters), skaters);
    }

    /** One skater of BenchAll: setPosition to the bench, its error dropped. */
    method BenchOne(key: string)
      requires key in skaters
      modifies this
      ensures Info() == old(Info())
      ensures var s := old(skaters[key]);
        && (InBox(s) || s.position == Bench ==> (skaters == old(skaters) && jammer == old(jammer) && pivot == old(pivot)))
        && (!InBox(s) && s.position != Bench ==> skaters == PutAt(old(skaters), key, Bench))
        && (!InBox(s) && (s.position == Jammer || s.position == Pivot) ==> (Tracks(skaters, jammer, Jammer) && Tracks(skaters, pivot, Pivot)))
        && (!(s.position == Jammer || s.position == Pivot) ==> (jammer == old(jammer) && pivot == old(pivot)))
    {
      var err := SetPosition(key, Bench);
      BenchOutcome(old(skaters), old(jammer), old(pivot), key, skaters, jammer, pivot, err);
    }

    /**
     * setInBox: a benched skater cannot enter the box, and one not in the
     * box cannot leave it; otherwise the trip is opened or closed, and the
     * team's jammer and pivot are recomputed when the skater holds one of
     * those positions. `jamIdxs` is the idx of each of the game's jams.
     */
    method SetInBox(key: string, v: bool, jamIdxs: seq<int>) returns (err: Option<Error>)
      requires Valid() && key in skaters
      modifies this
      ensures Valid() && Info() == old(Info()) && skaters.Keys == old(skaters.Keys)
      ensures err == BoxRefusal(old(skaters[key]), v)
      ensures err.Some? ==> skaters == old(skaters) && jammer == old(jammer) && pivot == old(pivot)
      ensures err.None? ==> skaters == old(skaters)[key := BoxSet(old(skaters[key]), v, jamIdxs, old(starPass))]
      ensures err.None? && (old(skaters[key].position) == Jammer || old(skaters[key].position) == Pivot) ==>
        Tracks(skaters, jammer, Jammer) && Tracks(skaters, pivot, Pivot)
      ensures !(old(skaters[key].position) == Jammer || old(skaters[key].position) == Pivot) ==>
        jammer == old(jammer) && pivot == old(pivot)
    {
      var s := skaters[key];
      if s.position == Bench && v {
        return Some(ErrSkaterOnBench);
      }
      if !v && s.curBoxTrip.None? {
        return Some(ErrSkaterNotInBox);
      }
      skaters := skaters[key := BoxSet(s, v, jamIdxs, starPass)];
      if s.position == Jammer || s.position == Pivot {
        UpdatePositions();
      }
      return None;
    }

    /** setJammer: the skater under key `v` takes Jammer. */
    method SetJammer(v: string) returns (err: Option<Error>)
      requires Valid()
      modifies this
      ensures Valid() && Info() == old(Info()) && Repositioned(old(skaters), skaters)
      ensures v !in old(skaters) ==>
        (err == Some(ErrSkaterNotFound) && skaters == old(skaters) && jammer == old(jammer) && pivot == old(pivot))
      ensures v in old(skaters) ==>
        (err == PositionRefusal(old(skaters), old(jammer), old(pivot), v, Jammer) && (err.None? ==> skaters[v].position == Jammer))
    {
      if v !in skaters {
        return Some(ErrSkaterNotFound);
      }
      err := SetPosition(v, Jammer);
      RepositionedValid(old(skaters), skaters);
    }

    /** setPivot: the skater under key `v` takes Pivot. */
    method SetPivot(v: string) returns (err: Option<Error>)
      requires Valid()
      modifies this
      ensures Valid() && Info() == old(Info()) && Repositioned(old(skaters), skaters)
      ensures v !in old(skaters) ==>
        (err == Some(ErrSkaterNotFound) && skaters == old(skaters) && jammer == old(jammer) && pivot == old(pivot))
      ensures v in old(skaters) ==>
        (err == PositionRefusal(old(skaters), old(jammer), old(pivot), v, Pivot) && (err.None? ==> skaters[v].position == Pivot))
    {
      if v !in skaters {
        return Some(ErrSkaterNotFound);
      }
      err := SetPosition(v, Pivot);
      RepositionedValid(old(skaters), skaters);
    }

    /** setJammerInBox: the skater under the team's jammer id enters or leaves the box. */
    method SetJammerInBox(v: bool, jamIdxs: seq<int>) returns (err: Option<Error>)
      requires Valid()
      modifies this
      ensures Valid() && Info() == old(Info()) && skaters.Keys == old(skaters.Keys)
      ensures old(jammer) !in old(skaters) ==> (err == Some(ErrSkaterNotFound) && skaters == old(skaters))
      ensures old(jammer) in old(skaters) ==> err == BoxRefusal(old(skaters[jammer]), v)
      ensures old(jammer) in old(skaters) && err.None? ==>
        skaters == old(skaters)[old(jammer) := BoxSet(old(skaters[jammer]), v, jamIdxs, old(starPass))]
    {
      if jammer !in skaters {
        return Some(ErrSkaterNotFound);
      }
      err := SetInBox(jammer, v, jamIdxs);
    }

    /** setPivotInBox: the skater under the team's pivot id enters or leaves the box. */
    method SetPivotInBox(v: bool, jamIdxs: seq<int>) returns (err: Option<Error>)
      requires Valid()
      modifies this
      ensures Valid() && Info() == old(Info()) && skaters.Keys == old(skaters.Keys)
      ensures old(pivot) !in old(skaters) ==> (err == Some(ErrSkaterNotFound) && skaters == old(skaters))
      ensures old(pivot) in old(skaters) ==> err == BoxRefusal(old(skaters[pivot]), v)
      ensures old(pivot) in old(skaters) && err.None? ==>
        skaters == old(skaters)[old(pivot) := BoxSet(old(skaters[pivot]), v, jamIdxs, old(starPass))]
    {
      if pivot !in skaters {
        return Some(ErrSkaterNotFound);
      }
      err := SetInBox(pivot, v, jamIdxs);
    }

    /**
     * findSkater: the second id of the key names the skater; one not yet
     * known is created blank. A key with fewer than two ids finds nothing.
     */
    method FindSkater(k: string) returns (key: Option<string>)
      requires Valid()
      modifies this
      ensures Valid() && Info() == old(Info()) && jammer == old(jammer) && pivot == old(pivot)
      ensures key == if |IDs(k)| < 2 then None else Some(IDs(k)[1])
      ensures key.None? ==> skaters == old(skaters)
      ensures key.Some? ==> skaters == Padded(old(skaters), key.value)
    {
      var ids := IDs(k);
      if |ids| < 2 {
        return None;
      }
      var id := ids[1];
      skaters := Padded(skaters, id);
      return Some(id);
    }

    /** One skater updater's write to the skater under `key`, its error dropped. */
    method WriteSkater(key: string, w: SkaterWrite, jamIdxs: seq<int>)
      requires Valid() && key in skaters
      modifies this
      ensures Valid() && Info() == old(Info()) && skaters.Keys == old(skaters.Keys)
      ensures !w.WritePosition? && !w.WriteInBox? ==>
        (skaters == old(skaters)[key := Written(old(skaters[key]), w)] && jammer == old(jammer) && pivot == old(pivot))
      ensures w.WritePosition? ==>
        && Repositioned(old(skaters), skaters)
        && (skaters[key].position == w.text <==> PositionRefusal(old(skaters), old(jammer), old(pivot), key, w.text).None?)
      ensures w.WriteInBox? ==>
        skaters == if BoxRefusal(old(skaters[key]), w.flag).Some? then old(skaters)
                   else old(skaters)[key := BoxSet(old(skaters[key]), w.flag, jamIdxs, old(starPass))]
    {
      match w {
        case WritePosition(t) =>
          var _ := SetPosition(key, t);
          RepositionedValid(old(skaters), skaters);
        case WriteInBox(b) =>
          var _ := SetInBox(key, b, jamIdxs);
        case _ =>
          var s := Written(skaters[key], w);
          assert TripsValid(s);
          skaters := skaters[key := s];
      }
    }

    /**
     * The skater updaters (sSetID, sSetName, ..., sSetInBox): find the
     * skater, creating it blank when new, then write the field; the error
     * of a refused position or box change is dropped, so only a key without
     * a skater id fails.
     */
    method SkaterUpdate(k: string, w: SkaterWrite, jamIdxs: seq<int>) returns (err: Option<Error>)
      requires Valid()
      modifies this
      ensures Valid() && Info() == old(Info())
      ensures err == if |IDs(k)| < 2 then Some(ErrSkaterNotFound) else None
      ensures err.Some? ==> (skaters == old(skaters) && jammer == old(jammer) && pivot == old(pivot))
      ensures err.None? ==>
        var key := IDs(k)[1];
        var m := Padded(old(skaters), key);
        && key in skaters && skaters.Keys == m.Keys
        && (!w.WritePosition? && !w.WriteInBox? ==> skaters == m[key := Written(m[key], w)])
        && (w.WritePosition? ==> (skaters[key].position == w.text <==> PositionRefusal(m, old(jammer), old(pivot), key, w.text).None?))
        && (w.WriteInBox? ==>
              skaters == if BoxRefusal(m[key], w.flag).Some? then m else m[key := BoxSet(m[key], w.flag, jamIdxs, old(starPass))])
    {
      var key := FindSkater(k);
      if key.None? {
        return Some(ErrSkaterNotFound);
      }
      WriteSkater(key.value, w, jamIdxs);
      return None;
    }

    /** reinstatePositions for this team: the jam's recorded positions written straight back. */
    method Reinstate(jammerId: string, pivotId: string, blockers: seq<string>)
      requires Valid()
      modifies this
      ensures Valid() && Info() == old(Info()) && jammer == old(jammer) && pivot == old(pivot)
      ensures skaters == Reinstated(old(skaters), jammerId, pivotId, blockers)
    {
      skaters := Benched(skaters);
      skaters := PutAt(skaters, jammerId, Jammer);
      skaters := PutAt(skaters, pivotId, Pivot);
      ghost var start := skaters;
      for i := 0 to |blockers|
        invariant Info() == old(Info()) && jammer == old(jammer) && pivot == old(pivot)
        invariant skaters == BlockersPut(start, blockers[..i])
      {
        assert blockers[..i + 1][..i] == blockers[..i];
        skaters := PutAt(skaters, blockers[i], Blocker);
      }
      assert blockers[..|blockers|] == blockers;
      RepositionedValid(old(skaters), skaters);
    }

    /**
     * findBoxTrip for skater `key`: the first id of the key, as a number,
     * names the trip; missing trips up to it are created blank. No id or a
     * malformed one finds nothing; a negative one indexes out of range.
     */
    method FindBoxTrip(key: string, k: string) returns (r: Lookup)
      requires Valid() && key in skaters
      modifies this
      ensures Valid() && Info() == old(Info()) && jammer == old(jammer) && pivot == old(pivot)
      ensures r == TripLookup(k)
      ensures r.At? ==>
        && skaters == old(skaters)[key := old(skaters[key]).(boxTrips := PaddedTrips(old(skaters[key].boxTrips), r.index))]
        && r.index < |skaters[key].boxTrips|
      ensures !r.At? ==> skaters == old(skaters)
    {
      var ids := IDs(k);
      if |ids| == 0 {
        return Missing;
      }
      var p := ParseInt(ids[0]);
      if p.err.Some? {
        return Missing;
      }
      var id := p.value;
      var s := skaters[key];
      var trips := s.boxTrips;
      while |trips| <= id
        invariant |s.boxTrips| <= |trips| && trips[..|s.boxTrips|] == s.boxTrips
        invariant |s.boxTrips| < |trips| ==> |trips| <= id + 1
        invariant forall j :: |s.boxTrips| <= j < |trips| ==> trips[j] == BlankTrip
        decreases id - |trips|
      {
        trips := trips + [BlankTrip];
      }
      if id < 0 {
        return OutOfRange;
      }
      PaddedIs(s.boxTrips, id, trips);
      var t := s.(boxTrips := trips);
      assert TripsValid(t);
      skaters := skaters[key := t];
      return At(id);
    }
  }

  /** The error setInBox returns: a benched skater cannot enter, and one not in the box cannot leave. */
  function BoxRefusal(s: Skater, v: bool): (r: Option<Error>)
    ensures r.None? ==> (!v ==> InBox(s))
  {
    if s.position == Bench && v then Some(ErrSkaterOnBench)
    else if !v && !InBox(s) then Some(ErrSkaterNotInBox)
    else None
  }

  /** The roster with a blank skater under `key` when it had none. */
  function Padded(m: map<string, Skater>, key: string): (r: map<string, Skater>)
    ensures key in r && r.Keys == m.Keys + {key}
    ensures forall k :: k in m ==> r[k] == m[k]
    ensures key !in m ==> r[key] == BlankSkater(key)
    ensures RosterValid(m) ==> RosterValid(r)
  {
    if key in m then m else m[key := BlankSkater(key)]
  }

  /** A padded list that has the blank tail PaddedTrips describes is PaddedTrips. */
  lemma PaddedIs(trips: seq<BoxTrip>, id: int, r: seq<BoxTrip>)
    requires |trips| <= |r| && r[..|trips|] == trips && id < |r|
    requires |trips| < |r| ==> |r| <= id + 1
    requires forall j :: |trips| <= j < |r| ==> r[j] == BlankTrip
    ensures r == PaddedTrips(trips, id)
  {
    var p := PaddedTrips(trips, id);
    assert |p| == |r|;
    forall j | 0 <= j < |r|
      ensures r[j] == p[j]
    {
      if j < |trips| {
        assert r[j] == r[..|trips|][j] && p[j] == p[..|trips|][j];
      }
    }
  }

  /** Where an id-keyed lookup that pads its list ends up. */
  datatype Lookup = Missing | OutOfRange | At(index: nat)

  /** The lookup findBoxTrip (and findJam, findStateSnapshot) make from a key's first id. */
  function TripLookup(k: string): (r: Lookup)
    ensures r.At? ==> |IDs(k)| > 0 && ParseInt(IDs(k)[0]) == Parsed(r.index, None)
    ensures r.Missing? <==> |IDs(k)| == 0 || ParseInt(IDs(k)[0]).err.Some?
  {
    var ids := IDs(k);
    if |ids| == 0 then Missing
    else
      var p := ParseInt(ids[0]);
      if p.err.Some? then Missing
      else if p.value < 0 then OutOfRange
      else At(p.value)
  }

  /** One key of the walk over the skaters: the tracked id stays right. */
  lemma TrackStep(m: map<string, Skater>, todo: set<string>, k: string, who: string, pos: string, holds: bool)
    requires k in todo && todo <= m.Keys && Tracks(m - todo, who, pos) && holds == (m[k].position == pos)
    ensures Tracks(m - (todo - {k}), if holds then m[k].id else who, pos)
  {
    var before := m - todo;
    var after := m - (todo - {k});
    assert after == before[k := m[k]];
    assert HoldersOf(after, pos) == HoldersOf(before, pos) + (if holds then {k} else {});
    if !holds && HoldersOf(after, pos) != {} {
      var j :| j in HoldersOf(before, pos) && before[j].id == who;
      assert j in HoldersOf(after, pos) && after[j].id == who;
    }
  }

  /** One key of the blocker count. */
  lemma CountStep(m: map<string, Skater>, todo: set<string>, k: string)
    requires k in todo && todo <= m.Keys
    ensures |HoldersOf(m - (todo - {k}), Blocker)| ==
      |HoldersOf(m - todo, Blocker)| + (if m[k].position == Blocker then 1 else 0)
  {
    var before := m - todo;
    var after := m - (todo - {k});
    assert after == before[k := m[k]];
    if m[k].position == Blocker {
      assert HoldersOf(after, Blocker) == HoldersOf(before, Blocker) + {k};
    } else {
      assert HoldersOf(after, Blocker) == HoldersOf(before, Blocker);
    }
  }

  /** A move to the bench or a blocker's place that went through changed no other skater. */
  lemma OtherMoved(m0: map<string, Skater>, j0: string, p0: string, other: string, to: string,
                   m1: map<string, Skater>, j1: string, p1: string)
    requires other in m0 && Rank(to) == 0 && PositionOutcome(m0, j0, p0, other, to, m1, j1, p1, None)
    ensures Repositioned(m0, m1) && m1[other].position == to && PositionRefusal(m0, j0, p0, other, to) == None
    ensures forall k :: k in m1 && k != other ==> m1[k] == m0[k]
  {
    forall k | k in m1 && k != other
      ensures m1[k] == m0[k]
    {
      assert m1[k] == m0[k].(position := m1[k].position);
    }
  }

  /**
   * The displacing move put together: `other` (when on the roster) moved to
   * `to` without refusal, giving `m1`; then `key` took `v`, giving `m2`.
   */
  lemma DisplaceOutcome(m0: map<string, Skater>, j0: string, p0: string, key: string, v: string, other: string, to: string,
                        m1: map<string, Skater>, m2: map<string, Skater>, j2: string, p2: string)
    requires key in m0 && !InBox(m0[key]) && m0[key].position != v
    requires || (v == Jammer && other == j0 && to == Bench)
             || (v == Pivot && other == p0 && to == (if m0[key].position == Blocker then Blocker else Bench))
    requires other !in m0 ==> m1 == m0
    requires other in m0 ==> Repositioned(m0, m1) && m1[other].position == to && PositionRefusal(m0, j0, p0, other, to) == None
    requires forall k :: k in m1 && k != other ==> m1[k] == m0[k]
    requires key in m1 && m2 == PutAt(m1, key, v)
    requires Tracks(m2, j2, Jammer) && Tracks(m2, p2, Pivot)
    ensures PositionOutcome(m0, j0, p0, key, v, m2, j2, p2, None)
  {
    DisplaceFacts(m0, j0, p0, key, v, other, to, m1, m2);
    assert v != Blocker && Recomputes(m0[key].position, v);
  }

  lemma DisplaceFacts(m0: map<string, Skater>, j0: string, p0: string, key: string, v: string, other: string, to: string,
                      m1: map<string, Skater>, m2: map<string, Skater>)
    requires key in m0 && !InBox(m0[key]) && m0[key].position != v
    requires || (v == Jammer && other == j0 && to == Bench)
             || (v == Pivot && other == p0 && to == (if m0[key].position == Blocker then Blocker else Bench))
    requires other !in m0 ==> m1 == m0
    requires other in m0 ==> Repositioned(m0, m1) && m1[other].position == to && PositionRefusal(m0, j0, p0, other, to) == None
    requires forall k :: k in m1 && k != other ==> m1[k] == m0[k]
    requires key in m1 && m2 == PutAt(m1, key, v)
    ensures PositionRefusal(m0, j0, p0, key, v) == None && Repositioned(m0, m2) && m2[key].position == v
    ensures forall k :: k in m2 && k != key && m2[k].position != m0[k].position ==> Displaced(m0, j0, p0, key, v, k, m2[k].position)
  {
    RepositionedTrans(m0, m1, m2);
    forall k | k in m2 && k != key && m2[k].position != m0[k].position
      ensures Displaced(m0, j0, p0, key, v, k, m2[k].position)
    {
      assert m2[k] == m1[k];
    }
  }

  /** The skaters out of the box holding Jammer or Pivot. */
  function Leavers(m: map<string, Skater>): set<string>
  {
    set k | k in m && !InBox(m[k]) && (m[k].position == Jammer || m[k].position == Pivot)
  }

  /** What setPosition to the bench does, case by case. */
  lemma BenchOutcome(m: map<string, Skater>, j: string, p: string, key: string,
                     m1: map<string, Skater>, j1: string, p1: string, err: Option<Error>)
    requires key in m && PositionOutcome(m, j, p, key, Bench, m1, j1, p1, err)
    ensures InBox(m[key]) || m[key].position == Bench ==> (m1 == m && j1 == j && p1 == p)
    ensures !InBox(m[key]) && m[key].position != Bench ==> m1 == PutAt(m, key, Bench)
    ensures !InBox(m[key]) && (m[key].position == Jammer || m[key].position == Pivot) ==> (Tracks(m1, j1, Jammer) && Tracks(m1, p1, Pivot))
    ensures !(m[key].position == Jammer || m[key].position == Pivot) ==> (j1 == j && p1 == p)
  {
    if !InBox(m[key]) && m[key].position != Bench {
      forall k | k in m1
        ensures m1[k] == PutAt(m, key, Bench)[k]
      {
        assert m1[k] == m[k].(position := m1[k].position);
      }
    }
  }

  /**
   * BenchAll part way, from roster `m0` with jammer `jo` and pivot `po`:
   * the skaters still to do are untouched, the rest are benched unless in
   * the box, and the ids are recomputed once a leaving jammer or pivot was done.
   */
  predicate BenchProgress(m0: map<string, Skater>, jo: string, po: string, todo: set<string>,
                          m: map<string, Skater>, j: string, p: string)
  {
    && todo <= m.Keys && Repositioned(m0, m)
    && (forall k :: k in m && k in todo ==> m[k] == m0[k])
    && (forall k :: k in m && k !in todo ==> m[k].position == if InBox(m0[k]) then m0[k].position else Bench)
    && (Leavers(m0) - todo != {} ==> Tracks(m, j, Jammer) && Tracks(m, p, Pivot))
    && (Leavers(m0) - todo == {} ==> j == jo && p == po)
  }

  /** One skater of BenchAll sent to the bench. */
  lemma BenchStep(m0: map<string, Skater>, jo: string, po: string, todo: set<string>, key: string, rest: set<string>,
                  m: map<string, Skater>, j: string, p: string, m1: map<string, Skater>, j1: string, p1: string)
    requires key in todo && rest == todo - {key} && BenchProgress(m0, jo, po, todo, m, j, p)
    requires InBox(m[key]) || m[key].position == Bench ==> (m1 == m && j1 == j && p1 == p)
    requires !InBox(m[key]) && m[key].position != Bench ==> m1 == PutAt(m, key, Bench)
    requires !InBox(m[key]) && (m[key].position == Jammer || m[key].position == Pivot) ==> (Tracks(m1, j1, Jammer) && Tracks(m1, p1, Pivot))
    requires !(m[key].position == Jammer || m[key].position == Pivot) ==> (j1 == j && p1 == p)
    ensures BenchProgress(m0, jo, po, rest, m1, j1, p1)
  {
    RepositionedTrans(m0, m, m1);
    var was := m[key].position;
    if InBox(m[key]) || was == Bench {
      assert key !in Leavers(m0);
      assert Leavers(m0) - rest == Leavers(m0) - todo;
    } else if was == Jammer || was == Pivot {
      assert key in Leavers(m0) - rest;
    } else {
      assert key !in Leavers(m0);
      assert Leavers(m0) - rest == Leavers(m0) - todo;
      if Leavers(m0) - todo != {} {
        TracksKept(m, j, Jammer, key, Bench);
        TracksKept(m, p, Pivot, key, Bench);
      }
    }
  }

  /** Moving a skater between two other positions leaves a tracked id right. */
  lemma TracksKept(m: map<string, Skater>, who: string, pos: string, key: string, to: string)
    requires key in m && m[key].position != pos && to != pos && Tracks(m, who, pos)
    ensures Tracks(PutAt(m, key, to), who, pos)
  {
    var r := PutAt(m, key, to);
    assert HoldersOf(r, pos) == HoldersOf(m, pos);
    if HoldersOf(m, pos) != {} {
      var k :| k in HoldersOf(m, pos) && m[k].id == who;
      assert k in HoldersOf(r, pos) && r[k].id == who;
    }
  }

  /** A skater not yet blocking that becomes one adds one blocker. */
  lemma BlockerAdded(m: map<string, Skater>, key: string, v: string)
    requires key in m && m[key].position != v
    ensures |HoldersOf(m[key := m[key].(position := v)], Blocker)| ==
      |HoldersOf(m, Blocker)| + (if v == Blocker then 1 else 0) - (if m[key].position == Blocker then 1 else 0)
  {
    var after := m[key := m[key].(position := v)];
    var rest := HoldersOf(m, Blocker) - {key};
    assert HoldersOf(after, Blocker) - {key} == rest;
    Cardinality(HoldersOf(after, Blocker), key);
    Cardinality(HoldersOf(m, Blocker), key);
  }

  /** Taking one element out of a set. */
  lemma Cardinality(s: set<string>, x: string)
    ensures |s| == |s - {x}| + (if x in s then 1 else 0)
  {
    if x in s {
      assert s == (s - {x}) + {x};
    } else {
      assert s - {x} == s;
    }
  }
}
