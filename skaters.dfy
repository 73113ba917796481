/**
 * Skaters and their penalty-box trips (scoreboard/skater.go and
 * scoreboard/box_trip.go) as values. A team keeps its skaters in a map and
 * changes them through the team (module Teams); a box trip belongs to one
 * skater's list, and the skater's current trip is an index into that list.
 */
module Skaters {
  import opened GoBase

  const Bench := "Bench"
  const Jammer := "Jammer"
  const Pivot := "Pivot"
  const Blocker := "Blocker"

  /** Where a trip starts or ends: a jam's idx (-1 for none), and whether between jams or after a star pass. */
  datatype BoxTripTime = BoxTripTime(jamIdx: int, betweenJams: bool, afterStarPass: bool)

  datatype BoxTrip = BoxTrip(inAt: BoxTripTime, outAt: BoxTripTime)

  /** blankBoxTrip: every field at its zero value. */
  const BlankTrip := BoxTrip(BoxTripTime(0, false, false), BoxTripTime(0, false, false))

  /**
   * setInJamIdx: the idx of the jam at position `v` of the scoreboard's
   * jams, or -1 when `v` is outside them. `jamIdxs` lists the idx of each jam.
   */
  function InJamIdx(v: int, jamIdxs: seq<int>): (r: int)
    ensures 0 <= v < |jamIdxs| ==> r == jamIdxs[v]
    ensures !(0 <= v < |jamIdxs|) ==> r == -1
  {
    if 0 <= v < |jamIdxs| then jamIdxs[v] else -1
  }

  /**
   * setOutJamIdx as written: the jam's idx is recorded when `v` is inside
   * the jams; otherwise the field keeps what it held.
   */
  function OutJamIdxAsWritten(cur: int, v: int, jamIdxs: seq<int>): int
  {
    if 0 <= v < |jamIdxs| then jamIdxs[v] else cur
  }

  /** setOutJamIdx as evidently intended: the same rule as setInJamIdx. */
  function OutJamIdx(v: int, jamIdxs: seq<int>): int
  {
    InJamIdx(v, jamIdxs)
  }

  /** newBoxTrip as written: the out side is set to -1 through setOutJamIdx, which keeps the zero value. */
  function NewBoxTripAsWritten(jamIdx: int, betweenJams: bool, afterStarPass: bool, jamIdxs: seq<int>): BoxTrip
  {
    BoxTrip(BoxTripTime(InJamIdx(jamIdx, jamIdxs), betweenJams, afterStarPass),
            BoxTripTime(OutJamIdxAsWritten(BlankTrip.outAt.jamIdx, -1, jamIdxs), false, false))
  }

  /** newBoxTrip with setOutJamIdx corrected: a trip just begun has left no jam. */
  function NewBoxTrip(jamIdx: int, betweenJams: bool, afterStarPass: bool, jamIdxs: seq<int>): BoxTrip
  {
    BoxTrip(BoxTripTime(InJamIdx(jamIdx, jamIdxs), betweenJams, afterStarPass),
            BoxTripTime(OutJamIdx(-1, jamIdxs), false, false))
  }

  /**
   * As written, a trip just begun reads as if it had ended in jam 0: the out
   * side holds 0, which is the idx of the game's first jam.
   */
  lemma NewTripEndsInFirstJamAsWritten(jamIdx: int, betweenJams: bool, afterStarPass: bool, jamIdxs: seq<int>)
    requires |jamIdxs| > 0 && jamIdxs[0] == 0
    ensures NewBoxTripAsWritten(jamIdx, betweenJams, afterStarPass, jamIdxs).outAt.jamIdx == jamIdxs[0]
  {
  }

  /**
   * Corrected, the out side follows the in side's rule: a position inside
   * the jams records that jam's idx, any other position records -1; a trip
   * just begun therefore records no jam it left, whatever the jams' idxs.
   */
  lemma OutJamIdxRecords(v: int, jamIdxs: seq<int>, jamIdx: int, betweenJams: bool, afterStarPass: bool)
    ensures OutJamIdx(v, jamIdxs) == InJamIdx(v, jamIdxs)
    ensures (forall i :: 0 <= i < |jamIdxs| ==> jamIdxs[i] >= 0) ==>
      (OutJamIdx(v, jamIdxs) == -1 <==> !(0 <= v < |jamIdxs|))
    ensures NewBoxTrip(jamIdx, betweenJams, afterStarPass, jamIdxs).outAt == BoxTripTime(-1, false, false)
  {
  }

  datatype Skater = Skater(
    id: string,
    name: string,
    legalName: string,
    insuranceNumber: string,
    number: string,
    position: string,
    isAlt: bool,
    isCaptain: bool,
    isAltCaptain: bool,
    isBenchStaff: bool,
    boxTrips: seq<BoxTrip>,
    curBoxTrip: Option<nat>)

  /** inBox: the skater has a current trip. */
  predicate InBox(s: Skater)
  {
    s.curBoxTrip.Some?
  }

  /**
   * blankSkater: the id given, every text empty, every flag false, on the
   * bench, no trips. (Its position goes from "" to Bench through
   * setPosition, which neither refuses nor recomputes the team's positions.)
   */
  function BlankSkater(id: string): (s: Skater)
    ensures s.id == id && s.position == Bench && !InBox(s) && s.boxTrips == []
  {
    Skater(id, "", "", "", "", Bench, false, false, false, false, [], None)
  }

  /** newSkater: a blank skater with the given texts and flags. */
  function NewSkater(id: string, name: string, legalName: string, insuranceNumber: string, number: string,
                     isAlt: bool, isCaptain: bool, isAltCaptain: bool, isBenchStaff: bool): (s: Skater)
    ensures s == BlankSkater(id).(name := name, legalName := legalName, insuranceNumber := insuranceNumber,
      number := number, isAlt := isAlt, isCaptain := isCaptain, isAltCaptain := isAltCaptain, isBenchStaff := isBenchStaff)
  {
    Skater(id, name, legalName, insuranceNumber, number, Bench, isAlt, isCaptain, isAltCaptain, isBenchStaff, [], None)
  }

  /** The four role flags, in the order setDescription tests them. */
  function Flags(s: Skater): seq<bool>
  {
    [s.isAlt, s.isCaptain, s.isAltCaptain, s.isBenchStaff]
  }

  /** The names whose flag is set, in order. */
  function Chosen<T>(flags: seq<bool>, names: seq<T>): seq<T>
    requires |flags| == |names|
  {
    if flags == [] then [] else (if flags[0] then [names[0]] else []) + Chosen(flags[1..], names[1..])
  }

  /** setDescription's long parts, in flag order. */
  function LongParts(s: Skater): seq<string>
  {
    Chosen(Flags(s), ["Alternate", "Captain", "Alternate Captain", "Bench Staff"])
  }

  /** setDescription's short parts, in the same order. */
  function ShortParts(s: Skater): seq<string>
  {
    Chosen(Flags(s), ["Alt", "C", "A", "B"])
  }

  /** How many flags are set. */
  function SetCount(flags: seq<bool>): nat
  {
    if flags == [] then 0 else (if flags[0] then 1 else 0) + SetCount(flags[1..])
  }

  /** No flag is counted exactly when none is set. */
  lemma {:induction false} NoneSet(flags: seq<bool>)
    ensures SetCount(flags) == 0 <==> forall k :: 0 <= k < |flags| ==> !flags[k]
  {
    if flags != [] {
      NoneSet(flags[1..]);
      assert forall k :: 1 <= k < |flags| ==> flags[k] == flags[1..][k - 1];
    }
  }

  /** One name per set flag, none of them `z` when no name is `z`. */
  lemma {:induction false} ChosenShape<T>(flags: seq<bool>, names: seq<T>, z: T)
    requires |flags| == |names|
    requires forall k :: 0 <= k < |names| ==> names[k] != z
    ensures |Chosen(flags, names)| == SetCount(flags)
    ensures forall i :: 0 <= i < |Chosen(flags, names)| ==> Chosen(flags, names)[i] != z
  {
    if flags != [] {
      ChosenShape(flags[1..], names[1..], z);
      var rest := Chosen(flags[1..], names[1..]);
      var head: seq<T> := if flags[0] then [names[0]] else [];
      assert Chosen(flags, names) == head + rest;
      forall i | 0 <= i < |Chosen(flags, names)|
        ensures Chosen(flags, names)[i] != z
      {
        if i >= |head| {
          assert Chosen(flags, names)[i] == rest[i - |head|];
        }
      }
    }
  }

  /** The published Description: the long parts joined by ", ". */
  function Description(s: Skater): string
  {
    Join(LongParts(s), ", ")
  }

  /** The published ShortDescription: the short parts run together. */
  function ShortDescription(s: Skater): string
  {
    Join(ShortParts(s), "")
  }

  /**
   * Both descriptions name the same flags, one part per flag set; they are
   * empty exactly when no flag is set.
   */
  lemma DescriptionsAgree(s: Skater)
    ensures |LongParts(s)| == |ShortParts(s)|
    ensures Description(s) == "" <==> !(s.isAlt || s.isCaptain || s.isAltCaptain || s.isBenchStaff)
    ensures ShortDescription(s) == "" <==> !(s.isAlt || s.isCaptain || s.isAltCaptain || s.isBenchStaff)
  {
    var f := Flags(s);
    NoneSet(f);
    assert f[0] == s.isAlt && f[1] == s.isCaptain && f[2] == s.isAltCaptain && f[3] == s.isBenchStaff;
    assert (forall k :: 0 <= k < |f| ==> !f[k]) <==> !(s.isAlt || s.isCaptain || s.isAltCaptain || s.isBenchStaff);
    ChosenShape(f, ["Alternate", "Captain", "Alternate Captain", "Bench Staff"], "");
    ChosenShape(f, ["Alt", "C", "A", "B"], "");
    NonEmptyJoin(LongParts(s), ", ");
    NonEmptyJoin(ShortParts(s), "");
  }

  /** Joining non-empty parts gives "" only for no parts. */
  lemma {:induction false} NonEmptyJoin(parts: seq<string>, sep: string)
    requires forall i :: 0 <= i < |parts| ==> parts[i] != ""
    ensures Join(parts, sep) == "" <==> parts == []
  {
    if |parts| > 1 {
      assert parts[|parts| - 1] != "";
      assert |Join(parts, sep)| >= |parts[|parts| - 1]|;
    }
  }

  /** The trip-list padding of findBoxTrip: blank trips up to and including index `id`. */
  function PaddedTrips(trips: seq<BoxTrip>, id: int): (r: seq<BoxTrip>)
    ensures |r| == if id < |trips| then |trips| else id + 1
    ensures r[..|trips|] == trips
    ensures forall i :: |trips| <= i < |r| ==> r[i] == BlankTrip
  {
    if id < |trips| then trips else trips + seq(id + 1 - |trips|, _ => BlankTrip)
  }
}
