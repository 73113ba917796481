/**
 * The listener of state/listener.go and statemanager/listener.go. The two
 * files hold the same Listener: a name, the state number it has caught up
 * to, and parallel lists of subscribed patterns and their matchers. They
 * differ only in what a diff carries for each key (the State record in the
 * newer store, the value text or nil in the older one), so the listener is
 * generic in that payload `V`, and each store's module builds the `View` a
 * flush reads.
 *
 * UnregisterPaths does not shorten the lists: it blanks the slot, leaving a
 * nil matcher behind. Both the pattern search and flush call methods on
 * every slot they pass, so the code as written calls through that nil
 * interface; the model keeps that reading (`FindAsWritten`,
 * `MatchAsWritten`) beside the evident intent, skipping blanked slots,
 * which the listener itself uses.
 */
module ListenerCore {
  import opened GoBase
  import opened Pattern

  /** The subscription lists: matchers (nil once unregistered) and their patterns. */
  datatype Slots = Slots(matchers: seq<Option<Matcher>>, paths: seq<string>)

  /**
   * The lists as RegisterPaths and UnregisterPaths keep them: parallel, a live
   * slot holds the matcher built from its pattern, a blanked slot the empty
   * pattern, and no pattern is live twice.
   */
  ghost predicate WellFormed(s: Slots)
  {
    |s.matchers| == |s.paths| &&
    (forall i :: 0 <= i < |s.matchers| ==>
      (s.matchers[i].Some? ==> s.matchers[i].value == NewPatternMatcher(s.paths[i])) &&
      (s.matchers[i].None? ==> s.paths[i] == "")) &&
    (forall i, j :: 0 <= i < j < |s.matchers| && s.matchers[i].Some? && s.matchers[j].Some? ==>
      s.paths[i] != s.paths[j])
  }

  /** Slot `i` is live and was built from `path`. */
  predicate LiveWith(matchers: seq<Option<Matcher>>, i: int, path: string)
  {
    0 <= i < |matchers| && matchers[i].Some? && matchers[i].value.Pattern() == path
  }

  /** Slot `i` is live and accepts `name`. */
  predicate Accepting(matchers: seq<Option<Matcher>>, i: int, name: string)
  {
    0 <= i < |matchers| && matchers[i].Some? && matchers[i].value.Accepts(name)
  }

  /** What a scan over the slots ends with: a slot, no slot, or a call through a nil slot. */
  datatype Scan = Hit(idx: nat) | Miss | NilCall

  // ------------------------------------------------------- scans as written

  /** findPatternMatcher as written: Pattern() is called on every slot passed, nil or not. */
  function FindAsWritten(matchers: seq<Option<Matcher>>, path: string, i: nat): (r: Scan)
    decreases |matchers| - i
  {
    if i >= |matchers| then Miss
    else if matchers[i].None? then NilCall
    else if matchers[i].value.Pattern() == path then Hit(i)
    else FindAsWritten(matchers, path, i + 1)
  }

  /** flush's matcher loop as written: Matches is called on every slot passed, nil or not. */
  function MatchAsWritten(matchers: seq<Option<Matcher>>, name: string, i: nat): (r: Scan)
    decreases |matchers| - i
  {
    if i >= |matchers| then Miss
    else if matchers[i].None? then NilCall
    else if matchers[i].value.Accepts(name) then Hit(i)
    else MatchAsWritten(matchers, name, i + 1)
  }

  // ------------------------------------------------------- corrected scans

  /** findPatternMatcher, skipping blanked slots: the first live slot built from `path`, or -1. */
  function FindSlot(matchers: seq<Option<Matcher>>, path: string, i: nat): (r: int)
    ensures r == -1 || (i <= r && LiveWith(matchers, r, path))
    ensures r == -1 <==> forall j :: i <= j < |matchers| ==> !LiveWith(matchers, j, path)
    ensures r != -1 ==> forall j :: i <= j < r ==> !LiveWith(matchers, j, path)
    decreases |matchers| - i
  {
    if i >= |matchers| then -1
    else if LiveWith(matchers, i, path) then i
    else FindSlot(matchers, path, i + 1)
  }

  /** flush's matcher loop, skipping blanked slots: the first live slot accepting `name`. */
  function FirstMatch(matchers: seq<Option<Matcher>>, name: string, i: nat): (r: Option<nat>)
    ensures r.Some? ==> i <= r.value && Accepting(matchers, r.value, name)
    ensures r.None? <==> forall j :: i <= j < |matchers| ==> !Accepting(matchers, j, name)
    ensures r.Some? ==> forall j :: i <= j < r.value ==> !Accepting(matchers, j, name)
    decreases |matchers| - i
  {
    if i >= |matchers| then None
    else if Accepting(matchers, i, name) then Some(i)
    else FirstMatch(matchers, name, i + 1)
  }

  /** While no slot has been blanked the scans as written agree with the corrected ones. */
  lemma {:induction false} AsWrittenAgreesWithoutNil(matchers: seq<Option<Matcher>>, path: string, name: string, i: nat)
    requires forall j :: 0 <= j < |matchers| ==> matchers[j].Some?
    ensures FindAsWritten(matchers, path, i) ==
      (if FindSlot(matchers, path, i) == -1 then Miss else Hit(FindSlot(matchers, path, i)))
    ensures MatchAsWritten(matchers, name, i) ==
      (if FirstMatch(matchers, name, i).None? then Miss else Hit(FirstMatch(matchers, name, i).value))
    decreases |matchers| - i
  {
    if i < |matchers| {
      AsWrittenAgreesWithoutNil(matchers, path, name, i + 1);
    }
  }

  // ------------------------------------------------- registering patterns

  /** RegisterPaths' loop: each pattern not live yet gets a new slot at the end. */
  function Registered(s: Slots, ps: seq<string>): (r: Slots)
    ensures |r.matchers| >= |s.matchers| && |r.paths| >= |s.paths|
    ensures |s.matchers| == |s.paths| ==> |r.matchers| == |r.paths|
    decreases |ps|
  {
    if |ps| == 0 then s
    else
      var t := Registered(s, ps[..|ps| - 1]);
      var p := ps[|ps| - 1];
      if FindSlot(t.matchers, p, 0) == -1 then Slots(t.matchers + [Some(NewPatternMatcher(p))], t.paths + [p])
      else t
  }

  /** Adding the slot for a pattern that is not live keeps the lists well formed and the old slots as they were. */
  lemma AppendSlot(t: Slots, p: string)
    requires WellFormed(t) && FindSlot(t.matchers, p, 0) == -1
    ensures var u := Slots(t.matchers + [Some(NewPatternMatcher(p))], t.paths + [p]);
      WellFormed(u) && FindSlot(u.matchers, p, 0) != -1
  {
    var u := Slots(t.matchers + [Some(NewPatternMatcher(p))], t.paths + [p]);
    PatternRoundTrip(p);
    assert LiveWith(u.matchers, |t.matchers|, p);
    forall i | 0 <= i < |t.matchers| && t.matchers[i].Some?
      ensures t.paths[i] != p
    {
      assert !LiveWith(t.matchers, i, p);
      PatternRoundTrip(t.paths[i]);
    }
  }

  /** RegisterPaths keeps the lists well formed and leaves the slots it found in place. */
  lemma {:induction false} RegisterKeeps(s: Slots, ps: seq<string>)
    requires WellFormed(s)
    ensures var r := Registered(s, ps);
      WellFormed(r) && r.matchers[..|s.matchers|] == s.matchers && r.paths[..|s.paths|] == s.paths
    decreases |ps|
  {
    if |ps| > 0 {
      var init := ps[..|ps| - 1];
      var p := ps[|ps| - 1];
      var t := Registered(s, init);
      RegisterKeeps(s, init);
      var r := Registered(s, ps);
      if FindSlot(t.matchers, p, 0) == -1 {
        AppendSlot(t, p);
        assert r.matchers[..|t.matchers|] == t.matchers && r.paths[..|t.paths|] == t.paths;
        assert r.matchers[..|s.matchers|] == t.matchers[..|s.matchers|];
        assert r.paths[..|s.paths|] == t.paths[..|s.paths|];
      }
    }
  }

  /** After RegisterPaths every given pattern is live. */
  lemma {:induction false} RegisterActivates(s: Slots, ps: seq<string>)
    requires WellFormed(s)
    ensures var r := Registered(s, ps);
      forall i :: 0 <= i < |ps| ==> FindSlot(r.matchers, ps[i], 0) != -1
    decreases |ps|
  {
    if |ps| > 0 {
      var init := ps[..|ps| - 1];
      var p := ps[|ps| - 1];
      var t := Registered(s, init);
      RegisterKeeps(s, init);
      RegisterActivates(s, init);
      var r := Registered(s, ps);
      forall i | 0 <= i < |ps|
        ensures FindSlot(r.matchers, ps[i], 0) != -1
      {
        if i == |ps| - 1 {
          if FindSlot(t.matchers, p, 0) == -1 {
            AppendSlot(t, p);
          }
        } else {
          assert ps[i] == init[i];
          var j := FindSlot(t.matchers, ps[i], 0);
          assert LiveWith(r.matchers, j, ps[i]);
        }
      }
    }
  }

  // ----------------------------------------------- unregistering patterns

  /** UnregisterPaths' loop: the live slot of each pattern is blanked in place. */
  function Unregistered(s: Slots, ps: seq<string>): (r: Slots)
    requires |s.matchers| == |s.paths|
    ensures |r.matchers| == |s.matchers| && |r.paths| == |s.paths|
    decreases |ps|
  {
    if |ps| == 0 then s
    else
      var t := Unregistered(s, ps[..|ps| - 1]);
      var idx := FindSlot(t.matchers, ps[|ps| - 1], 0);
      if idx == -1 then t
      else Slots(t.matchers[idx := None], t.paths[idx := ""])
  }

  /** Unregistered over one more pattern: that pattern's live slot, if any, blanked. */
  lemma UnregisteredStep(s: Slots, ps: seq<string>, i: nat)
    requires |s.matchers| == |s.paths| && i < |ps|
    ensures var t := Unregistered(s, ps[..i]);
      var idx := FindSlot(t.matchers, ps[i], 0);
      Unregistered(s, ps[..i + 1]) == if idx == -1 then t else Slots(t.matchers[idx := None], t.paths[idx := ""])
  {
    assert ps[..i + 1][..i] == ps[..i];
  }

  /** Registered over one more pattern: a new slot for it unless one is live. */
  lemma RegisteredStep(s: Slots, ps: seq<string>, i: nat)
    requires i < |ps|
    ensures var t := Registered(s, ps[..i]);
      Registered(s, ps[..i + 1]) ==
        if FindSlot(t.matchers, ps[i], 0) == -1 then Slots(t.matchers + [Some(NewPatternMatcher(ps[i]))], t.paths + [ps[i]]) else t
  {
    assert ps[..i + 1][..i] == ps[..i];
  }

  /** A listener without patterns that registers `p` holds exactly one slot, for `p`. */
  lemma RegisterOne(p: string)
    ensures Registered(Slots([], []), [p]) == Slots([Some(NewPatternMatcher(p))], [p])
  {
    assert [p][..0] == [];
  }

  /** UnregisterPaths keeps the lists well formed, and each slot either stays as it was or is blanked. */
  lemma {:induction false} UnregisterKeeps(s: Slots, ps: seq<string>)
    requires WellFormed(s)
    ensures var r := Unregistered(s, ps);
      WellFormed(r) &&
      forall i :: 0 <= i < |s.matchers| ==>
        (r.matchers[i] == s.matchers[i] && r.paths[i] == s.paths[i]) || (r.matchers[i].None? && r.paths[i] == "")
    decreases |ps|
  {
    if |ps| > 0 {
      UnregisterKeeps(s, ps[..|ps| - 1]);
    }
  }

  /** A slot whose pattern is not among the given ones is left as it was. */
  lemma {:induction false} UnregisterSpares(s: Slots, ps: seq<string>, i: int)
    requires WellFormed(s) && 0 <= i < |s.matchers| && s.paths[i] !in ps
    ensures var r := Unregistered(s, ps);
      r.matchers[i] == s.matchers[i] && r.paths[i] == s.paths[i]
    decreases |ps|
  {
    if |ps| > 0 {
      var init := ps[..|ps| - 1];
      var t := Unregistered(s, init);
      forall j | 0 <= j < |init|
        ensures init[j] != s.paths[i]
      {
        assert init[j] == ps[j];
      }
      UnregisterSpares(s, init, i);
      UnregisterKeeps(s, init);
      var idx := FindSlot(t.matchers, ps[|ps| - 1], 0);
      if t.matchers[i].Some? {
        PatternRoundTrip(t.paths[i]);
      }
      assert s.paths[i] != ps[|ps| - 1];
      assert idx != i;
    }
  }

  /** After UnregisterPaths no given pattern is live. */
  lemma {:induction false} UnregisterDeactivates(s: Slots, ps: seq<string>)
    requires WellFormed(s)
    ensures var r := Unregistered(s, ps);
      forall k :: 0 <= k < |ps| ==> FindSlot(r.matchers, ps[k], 0) == -1
    decreases |ps|
  {
    if |ps| > 0 {
      var init := ps[..|ps| - 1];
      var t := Unregistered(s, init);
      UnregisterKeeps(s, init);
      UnregisterDeactivates(s, init);
      forall k | 0 <= k < |ps|
        ensures FindSlot(Unregistered(s, ps).matchers, ps[k], 0) == -1
      {
        if k < |ps| - 1 {
          assert ps[k] == init[k];
        }
        BlankingDeactivates(t, ps[|ps| - 1], ps[k]);
      }
    }
  }

  /**
   * Blanking the live slot of `p`, if any, leaves no live slot for `p`,
   * and none for a pattern that had none.
   */
  lemma BlankingDeactivates(t: Slots, p: string, q: string)
    requires WellFormed(t)
    requires q == p || FindSlot(t.matchers, q, 0) == -1
    ensures var idx := FindSlot(t.matchers, p, 0);
      var r := if idx == -1 then t else Slots(t.matchers[idx := None], t.paths[idx := ""]);
      FindSlot(r.matchers, q, 0) == -1
  {
    var idx := FindSlot(t.matchers, p, 0);
    if idx != -1 {
      var r := Slots(t.matchers[idx := None], t.paths[idx := ""]);
      if q == p {
        PatternRoundTrip(t.paths[idx]);
        forall j | 0 <= j < |r.matchers|
          ensures !LiveWith(r.matchers, j, q)
        {
          if j != idx && r.matchers[j].Some? {
            PatternRoundTrip(t.paths[j]);
          }
        }
      } else {
        forall j | 0 <= j < |r.matchers|
          ensures !LiveWith(r.matchers, j, q)
        {
          if j != idx {
            assert !LiveWith(t.matchers, j, q);
          }
        }
      }
    }
  }

  // --------------------------------------------------------------- flushing

  /** What flush reads from a store: the global state number, and each key's stamp and payload. */
  datatype View<V> = View(stateNum: nat, nums: map<string, nat>, values: map<string, V>)

  /**
   * flush's rule for one entry: some live pattern matches it, and either it
   * was stamped after the listener caught up, or the first matching pattern
   * is one of the paths being registered now.
   */
  predicate Include(lnum: nat, s: Slots, newPaths: Option<seq<string>>, name: string, num: nat)
  {
    match FirstMatch(s.matchers, name, 0)
    case None => false
    case Some(i) => lnum < num || (newPaths.Some? && i < |s.paths| && s.paths[i] in newPaths.value)
  }

  /** The diff flush builds: every included entry, with its current value. */
  function Diff<V>(lnum: nat, s: Slots, view: View<V>, newPaths: Option<seq<string>>): (u: map<string, V>)
    requires view.nums.Keys == view.values.Keys
    ensures forall k :: k in u <==> k in view.nums && Include(lnum, s, newPaths, k, view.nums[k])
    ensures forall k :: k in u ==> u[k] == view.values[k]
  {
    map k | k in view.nums && Include(lnum, s, newPaths, k, view.nums[k]) :: view.values[k]
  }

  /** Maps with the same keys and the same value at each key are equal. */
  lemma SameMap<K, V>(a: map<K, V>, b: map<K, V>)
    requires a.Keys == b.Keys && forall k :: k in a ==> a[k] == b[k]
    ensures a == b
  {
  }

  /** What a flush leaves: the listener's state number, and the diff sent, if any. */
  datatype FlushOutcome<V> = FlushOutcome(stateNum: nat, sent: Option<map<string, V>>)

  /**
   * flush(paths): skipped when the listener is current and no paths are
   * given; otherwise the selected entries are sent if there are any, and only
   * a flush without paths then advances the listener to the global number.
   */
  function Flushed<V>(lnum: nat, s: Slots, view: View<V>, newPaths: Option<seq<string>>): (r: FlushOutcome<V>)
    requires view.nums.Keys == view.values.Keys
    ensures !(lnum < view.stateNum || newPaths.Some?) ==> r == FlushOutcome(lnum, None)
    ensures r.stateNum == lnum || (newPaths.None? && r.sent.Some? && r.stateNum == view.stateNum)
    ensures r.sent.Some? ==> (|r.sent.value| > 0 && r.sent.value.Keys <= view.nums.Keys &&
      forall k :: k in r.sent.value ==> r.sent.value[k] == view.values[k])
    ensures (lnum < view.stateNum || newPaths.Some?) ==>
      forall k :: k in view.nums && Include(lnum, s, newPaths, k, view.nums[k]) ==> r.sent.Some? && k in r.sent.value
    ensures r.sent.Some? ==> forall k :: k in r.sent.value ==> Include(lnum, s, newPaths, k, view.nums[k])
  {
    if !(lnum < view.stateNum || newPaths.Some?) then FlushOutcome(lnum, None)
    else
      var u := Diff(lnum, s, view, newPaths);
      if |u| == 0 then FlushOutcome(lnum, None)
      else FlushOutcome(if newPaths.None? then view.stateNum else lnum, Some(u))
  }

  /**
   * RegisterPaths replays the current state: every entry whose first matching
   * pattern is one of the given paths is sent, however old its stamp.
   */
  lemma {:induction false} RegisterReplays<V>(lnum: nat, s: Slots, view: View<V>, ps: seq<string>, k: string)
    requires WellFormed(s) && view.nums.Keys == view.values.Keys
    requires k in view.nums
    requires var r := Registered(s, ps);
      FirstMatch(r.matchers, k, 0).Some? && r.paths[FirstMatch(r.matchers, k, 0).value] in ps
    ensures var f := Flushed(lnum, Registered(s, ps), view, Some(ps));
      f.sent.Some? && k in f.sent.value && f.sent.value[k] == view.values[k] && f.stateNum == lnum
  {
    RegisterKeeps(s, ps);
  }

  /**
   * After a flush without paths that sent a diff, the listener is current: a
   * second one against the same view is skipped, and one against a later
   * view sends every matched entry stamped since.
   */
  lemma {:induction false} CaughtUp<V>(lnum: nat, s: Slots, view: View<V>, later: View<V>, k: string)
    requires view.nums.Keys == view.values.Keys && later.nums.Keys == later.values.Keys
    requires Flushed(lnum, s, view, None).sent.Some?
    ensures var n := Flushed(lnum, s, view, None).stateNum;
      Flushed(n, s, view, None) == FlushOutcome(n, None) &&
      (later.stateNum > n && k in later.nums && later.nums[k] > n && FirstMatch(s.matchers, k, 0).Some? ==>
        (var g := Flushed(n, s, later, None); g.sent.Some? && k in g.sent.value))
  {
    var n := Flushed(lnum, s, view, None).stateNum;
    assert n == view.stateNum;
    if later.stateNum > n && k in later.nums && later.nums[k] > n && FirstMatch(s.matchers, k, 0).Some? {
      assert Include(n, s, None, k, later.nums[k]);
    }
  }

  /**
   * Once its patterns are unregistered, an entry that only those patterns
   * matched is never sent again, whatever the flush.
   */
  lemma {:induction false} UnregisteredNotSent<V>(lnum: nat, s: Slots, ps: seq<string>, view: View<V>,
                                                  newPaths: Option<seq<string>>, k: string)
    requires WellFormed(s) && view.nums.Keys == view.values.Keys
    requires forall i :: Accepting(s.matchers, i, k) ==> s.paths[i] in ps
    ensures var f := Flushed(lnum, Unregistered(s, ps), view, newPaths);
      f.sent.Some? ==> k !in f.sent.value
  {
    var r := Unregistered(s, ps);
    UnregisterKeeps(s, ps);
    forall i | 0 <= i < |r.matchers|
      ensures !Accepting(r.matchers, i, k)
    {
      if r.matchers[i].Some? {
        StillLive(s, ps, i);
      }
    }
  }

  /** A slot still live after unregistering `ps` is an untouched slot whose pattern is not in `ps`. */
  lemma StillLive(s: Slots, ps: seq<string>, i: int)
    requires WellFormed(s) && 0 <= i < |s.matchers|
    requires Unregistered(s, ps).matchers[i].Some?
    ensures Unregistered(s, ps).matchers[i] == s.matchers[i] && s.paths[i] !in ps
  {
    var r := Unregistered(s, ps);
    UnregisterKeeps(s, ps);
    UnregisterDeactivates(s, ps);
    assert r.matchers[i] == s.matchers[i] && r.paths[i] == s.paths[i];
    PatternRoundTrip(r.paths[i]);
    assert LiveWith(r.matchers, i, s.paths[i]);
    forall k | 0 <= k < |ps|
      ensures ps[k] != s.paths[i]
    {
      assert FindSlot(r.matchers, ps[k], 0) == -1;
    }
  }

  /**
   * What unregistering does to the code as written: a listener that
   * subscribed to `p` and then unsubscribed holds a single nil slot, so its
   * next pattern search or flush calls through nil, where the corrected scans
   * simply find nothing.
   */
  lemma {:induction false} UnregisterLeavesNilSlot(p: string, q: string, name: string)
    ensures var s := Unregistered(Registered(Slots([], []), [p]), [p]);
      s.matchers == [None] &&
      FindAsWritten(s.matchers, q, 0) == NilCall && MatchAsWritten(s.matchers, name, 0) == NilCall &&
      FindSlot(s.matchers, q, 0) == -1 && FirstMatch(s.matchers, name, 0).None?
  {
    var s0 := Slots([], []);
    assert Registered(s0, [p][..0]) == s0;
    var s1 := Registered(s0, [p]);
    assert s1 == Slots([Some(NewPatternMatcher(p))], [p]);
    PatternRoundTrip(p);
    assert FindSlot(s1.matchers, p, 0) == 0;
    assert Unregistered(s1, [p][..0]) == s1;
  }

  // ---------------------------------------------------------- the listener

  /**
   * Listener: its name, the state number it has caught up to, its slots, and
   * the diffs sent down its channel so far (the channel and the goroutine
   * that drains it are not modelled).
   */
  class Listener<V> {
    const name: string
    var stateNum: nat
    var matchers: seq<Option<Matcher>>
    var paths: seq<string>
    var sent: seq<map<string, V>>

    ghost predicate Valid()
      reads this
    {
      WellFormed(Slots(matchers, paths))
    }

    /** NewListener: state number 0, no patterns, nothing sent. */
    constructor(name: string)
      ensures this.name == name && stateNum == 0 && matchers == [] && paths == [] && sent == [] && Valid()
    {
      this.name := name;
      stateNum := 0;
      matchers := [];
      paths := [];
      sent := [];
    }

    /** findPatternMatcher (blanked slots skipped). */
    method FindPatternMatcher(path: string) returns (idx: int)
      ensures idx == FindSlot(matchers, path, 0)
    {
      var i := 0;
      while i < |matchers|
        invariant 0 <= i <= |matchers|
        invariant FindSlot(matchers, path, i) == FindSlot(matchers, path, 0)
      {
        if matchers[i].Some? && matchers[i].value.Pattern() == path {
          return i;
        }
        i := i + 1;
      }
      return -1;
    }

    /** flush's matcher loop (blanked slots skipped): the first live slot accepting `key`. */
    method MatchIndex(key: string) returns (idx: Option<nat>)
      ensures idx == FirstMatch(matchers, key, 0)
    {
      var i := 0;
      while i < |matchers|
        invariant 0 <= i <= |matchers|
        invariant FirstMatch(matchers, key, i) == FirstMatch(matchers, key, 0)
      {
        if matchers[i].Some? {
          var m := matchers[i].value.Matches(key);
          if m {
            return Some(i);
          }
        }
        i := i + 1;
      }
      return None;
    }

    /** Whether flush puts `key`, stamped `num`, in the diff. */
    method Wanted(key: string, num: nat, newPaths: Option<seq<string>>) returns (needed: bool)
      requires |matchers| == |paths|
      ensures needed == Include(stateNum, Slots(matchers, paths), newPaths, key, num)
    {
      needed := stateNum < num;
      var idx := MatchIndex(key);
      if idx.Some? && newPaths.Some? {
        var justRegistered := paths[idx.value] in newPaths.value;
        needed := needed || justRegistered;
      }
      needed := idx.Some? && needed;
    }

    /** The diff flush builds: each selected key with its payload. */
    method Select(view: View<V>, newPaths: Option<seq<string>>) returns (u: map<string, V>)
      requires |matchers| == |paths| && view.nums.Keys == view.values.Keys
      ensures u == Diff(stateNum, Slots(matchers, paths), view, newPaths)
    {
      ghost var d := Diff(stateNum, Slots(matchers, paths), view, newPaths);
      u := map[];
      var todo := view.nums.Keys;
      while todo != {}
        invariant todo <= view.nums.Keys
        invariant forall k :: k in u <==> k in d && k !in todo
        invariant forall k :: k in u ==> u[k] == d[k]
        decreases |todo|
      {
        var key :| key in todo;
        var needed := Wanted(key, view.nums[key], newPaths);
        if needed {
          u := u[key := view.values[key]];
        }
        todo := todo - {key};
      }
      SameMap(u, d);
    }

    /** flush */
    method Flush(view: View<V>, newPaths: Option<seq<string>>)
      requires Valid() && view.nums.Keys == view.values.Keys
      modifies this
      ensures matchers == old(matchers) && paths == old(paths)
      ensures var f := Flushed(old(stateNum), Slots(matchers, paths), view, newPaths);
        stateNum == f.stateNum && sent == old(sent) + (if f.sent.Some? then [f.sent.value] else [])
    {
      if stateNum < view.stateNum || newPaths.Some? {
        var u := Select(view, newPaths);
        if |u| > 0 {
          if newPaths.None? {
            stateNum := view.stateNum;
          }
          sent := sent + [u];
        }
      }
    }

    /** RegisterPaths: empty input changes nothing; otherwise add the new patterns, then flush with them. */
    method RegisterPaths(ps: seq<string>, view: View<V>)
      requires Valid() && view.nums.Keys == view.values.Keys
      modifies this
      ensures Valid()
      ensures |ps| == 0 ==> stateNum == old(stateNum) && matchers == old(matchers) && paths == old(paths) && sent == old(sent)
      ensures |ps| > 0 ==> Slots(matchers, paths) == Registered(old(Slots(matchers, paths)), ps)
      ensures |ps| > 0 ==>
        (var f := Flushed(old(stateNum), Slots(matchers, paths), view, Some(ps));
         stateNum == f.stateNum && sent == old(sent) + (if f.sent.Some? then [f.sent.value] else []))
    {
      if |ps| == 0 {
        return;
      }
      ghost var s0 := Slots(matchers, paths);
      var i := 0;
      while i < |ps|
        invariant 0 <= i <= |ps|
        invariant Slots(matchers, paths) == Registered(s0, ps[..i])
        invariant Valid()
        invariant stateNum == old(stateNum) && sent == old(sent)
      {
        RegisteredStep(s0, ps, i);
        var idx := FindPatternMatcher(ps[i]);
        if idx == -1 {
          AppendSlot(Slots(matchers, paths), ps[i]);
          paths := paths + [ps[i]];
          matchers := matchers + [Some(NewPatternMatcher(ps[i]))];
        }
        i := i + 1;
      }
      assert ps[..|ps|] == ps;
      Flush(view, Some(ps));
    }

    /** UnregisterPaths: empty input changes nothing; otherwise blank each given pattern's slot in place. */
    method UnregisterPaths(ps: seq<string>)
      requires Valid()
      modifies this
      ensures Valid() && stateNum == old(stateNum) && sent == old(sent)
      ensures Slots(matchers, paths) == Unregistered(old(Slots(matchers, paths)), ps)
    {
      ghost var s0 := Slots(matchers, paths);
      var i := 0;
      while i < |ps|
        invariant 0 <= i <= |ps|
        invariant Slots(matchers, paths) == Unregistered(s0, ps[..i])
        invariant stateNum == old(stateNum) && sent == old(sent)
      {
        UnregisteredStep(s0, ps, i);
        var idx := FindPatternMatcher(ps[i]);
        if idx != -1 {
          paths := paths[idx := ""];
          matchers := matchers[idx := None];
        }
        i := i + 1;
      }
      assert ps[..|ps|] == ps;
      UnregisterKeeps(s0, ps);
    }
  }

  // -------------------------------------------------------- the listener list

  /** The package's `listeners` slice: each listener at most once, each well formed. */
  class Hub<V> {
    var listeners: seq<Listener<V>>

    ghost predicate Valid()
      reads this, listeners
    {
      (forall i, j :: 0 <= i < j < |listeners| ==> listeners[i] != listeners[j]) &&
      forall i :: 0 <= i < |listeners| ==> listeners[i].Valid()
    }

    /** The empty list the package starts with. */
    constructor()
      ensures listeners == [] && Valid()
    {
      listeners := [];
    }

    /** NewListener: a fresh listener at state number 0 joins the end of the list. */
    method NewListener(name: string) returns (l: Listener<V>)
      requires Valid()
      modifies this
      ensures fresh(l) && listeners == old(listeners) + [l] && Valid()
      ensures l.name == name && l.stateNum == 0 && l.matchers == [] && l.paths == [] && l.sent == []
    {
      l := new Listener(name);
      listeners := listeners + [l];
    }

    /**
     * Close: the first occurrence of `l` is overwritten by the last listener
     * and the list shortened; a listener not in the list changes nothing.
     */
    method Close(l: Listener<V>)
      requires Valid()
      modifies this
      ensures Valid() && l !in listeners
      ensures l !in old(listeners) ==> listeners == old(listeners)
      ensures l in old(listeners) ==>
        (exists i :: 0 <= i < |old(listeners)| && old(listeners)[i] == l && listeners == SwapRemove(old(listeners), i))
      ensures forall x :: x in old(listeners) && x != l ==> x in listeners
    {
      var i := 0;
      while i < |listeners|
        invariant 0 <= i <= |listeners|
        invariant forall j :: 0 <= j < i ==> listeners[j] != l
      {
        if listeners[i] == l {
          SwapRemoveRemoves(listeners, i);
          SwapRemoveDistinct(listeners, i);
          listeners := SwapRemove(listeners, i);
          return;
        }
        i := i + 1;
      }
    }

    /**
     * flushListeners' inner loop: every listener is flushed without paths
     * against the same view, one after the other.
     */
    method FlushAll(view: View<V>)
      requires Valid() && view.nums.Keys == view.values.Keys
      modifies listeners
      ensures Valid()
      ensures forall i :: 0 <= i < |listeners| ==> Advanced(listeners[i], old(listeners[i].stateNum), old(listeners[i].sent), view)
    {
      var i := 0;
      while i < |listeners|
        invariant 0 <= i <= |listeners| && Valid()
        invariant forall j :: 0 <= j < i ==> Advanced(listeners[j], old(listeners[j].stateNum), old(listeners[j].sent), view)
        invariant forall j :: i <= j < |listeners| ==>
          listeners[j].stateNum == old(listeners[j].stateNum) && listeners[j].sent == old(listeners[j].sent)
      {
        var l := listeners[i];
        ghost var lnum, sent0 := l.stateNum, l.sent;
        l.Flush(view, None);
        assert Advanced(l, lnum, sent0, view);
        forall j | 0 <= j < |listeners| && j != i
          ensures listeners[j] != l
        {
          if j < i {
            assert listeners[j] != listeners[i];
          } else {
            assert listeners[i] != listeners[j];
          }
        }
        i := i + 1;
      }
    }
  }

  /** Listener `l`, which stood at `lnum` having sent `sent0`, now holds what a flush without paths against `view` leaves. */
  ghost predicate Advanced<V>(l: Listener<V>, lnum: nat, sent0: seq<map<string, V>>, view: View<V>)
    reads l
    requires view.nums.Keys == view.values.Keys
  {
    var f := Flushed(lnum, Slots(l.matchers, l.paths), view, None);
    l.stateNum == f.stateNum && l.sent == sent0 + (if f.sent.Some? then [f.sent.value] else [])
  }


  /** Close's removal: the last element moves into slot `i` and the list is one shorter. */
  function SwapRemove<T>(s: seq<T>, i: nat): (r: seq<T>)
    requires i < |s|
    ensures |r| == |s| - 1
    ensures multiset(r) == multiset(s) - multiset{s[i]}
    ensures forall j :: 0 <= j < |r| && j != i ==> r[j] == s[j]
    ensures i < |r| ==> r[i] == s[|s| - 1]
  {
    SwapRemoveMultiset(s, i);
    s[i := s[|s| - 1]][..|s| - 1]
  }

  lemma SwapRemoveMultiset<T>(s: seq<T>, i: nat)
    requires i < |s|
    ensures multiset(s[i := s[|s| - 1]][..|s| - 1]) == multiset(s) - multiset{s[i]}
  {
    var r := s[i := s[|s| - 1]][..|s| - 1];
    assert s == s[..|s| - 1] + [s[|s| - 1]];
    if i < |s| - 1 {
      assert s[..|s| - 1] == s[..i] + [s[i]] + s[i + 1..|s| - 1];
      assert r == s[..i] + [s[|s| - 1]] + s[i + 1..|s| - 1];
    } else {
      assert r == s[..|s| - 1];
    }
  }

  /** Close takes out exactly the closed listener when the list holds each listener once. */
  lemma {:induction false} SwapRemoveRemoves<T>(s: seq<T>, i: nat)
    requires i < |s|
    requires forall a, b :: 0 <= a < b < |s| ==> s[a] != s[b]
    ensures s[i] !in SwapRemove(s, i)
    ensures forall x :: x in s && x != s[i] ==> x in SwapRemove(s, i)
  {
    var r := SwapRemove(s, i);
    assert multiset(r)[s[i]] == multiset(s)[s[i]] - 1;
    MultisetOfDistinct(s, i);
    forall x | x in s && x != s[i]
      ensures x in r
    {
      assert x in multiset(s);
    }
  }

  /** Close keeps every listener in the list once. */
  lemma SwapRemoveDistinct<T>(s: seq<T>, i: nat)
    requires i < |s|
    requires forall a, b :: 0 <= a < b < |s| ==> s[a] != s[b]
    ensures var r := SwapRemove(s, i); forall a, b :: 0 <= a < b < |r| ==> r[a] != r[b]
  {
    var r := SwapRemove(s, i);
    forall a, b | 0 <= a < b < |r|
      ensures r[a] != r[b]
    {
      var a' := if a == i then |s| - 1 else a;
      var b' := if b == i then |s| - 1 else b;
      assert r[a] == s[a'] && r[b] == s[b'] && a' != b';
    }
  }

  lemma MultisetOfDistinct<T>(s: seq<T>, i: nat)
    requires i < |s|
    requires forall a, b :: 0 <= a < b < |s| ==> s[a] != s[b]
    ensures multiset(s)[s[i]] == 1
  {
    assert s == s[..i] + [s[i]] + s[i + 1..];
    assert s[i] !in s[..i];
    assert s[i] !in s[i + 1..];
  }
}
