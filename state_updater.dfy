/**
 * The updater registry of state/updater.go. Unlike the older registry, an
 * updater may be registered as a pattern: a key with no updater of its own
 * name is handed to some pattern updater whose matcher accepts it. The text
 * is parsed according to the kind of callback that was registered (not the
 * stored entry's type), and a pattern callback also receives the key.
 *
 * Go ranges over maps in an unspecified order. Where that order decides the
 * outcome (which of several matching pattern updaters is found, in which
 * order a batch's keys are visited) the order is a parameter: `order` lists
 * the registry's updaters, `batch` lists the keys of a batch.
 */
module StateUpdater {
  import opened GoBase
  import opened GoStrconv
  import opened TypedStore
  import opened HolderStore
  import opened Pattern
  import opened Ordering

  /**
   * stateUpdater: a callback (identified by a number) of one of four kinds,
   * its name, group priority, pattern flag and the matcher built from the name.
   */
  datatype Updater = Updater(name: string, groupPriority: nat, isPattern: bool, kind: Kind, callback: nat, pm: Matcher)

  function UpdaterRank(u: Updater): Rank
  {
    Rank(u.groupPriority, u.name)
  }

  /**
   * What applying an updater leads to: the parse error, returned without any
   * call, or a call of the callback with the key (pattern callbacks only) and
   * the parsed value; the callback's own result is what the caller gets back.
   */
  datatype Outcome = Done(err: Error) | Invoked(callback: nat, key: Option<string>, arg: Typed)

  /** One application made by StateSetGroup. */
  datatype Applied = Applied(updater: Updater, key: string, outcome: Outcome)

  /** Each updater is filed under its own name, with the matcher built from that name. */
  ghost predicate WellFormed(updaters: map<string, Updater>)
  {
    forall n :: n in updaters ==> updaters[n].name == n && updaters[n].pm == NewPatternMatcher(n)
  }

  /** `order` is one order of ranging over the map: exactly its updaters. */
  ghost predicate Lists(order: seq<Updater>, updaters: map<string, Updater>)
  {
    forall u :: u in order <==> u in updaters.Values
  }

  /** `batch` is one order of ranging over the batch's keys: each key once. */
  ghost predicate Enumerates(batch: seq<string>, values: map<string, string>)
  {
    (forall k :: k in batch <==> k in values) &&
    (forall i, j :: 0 <= i < j < |batch| ==> batch[i] != batch[j])
  }

  /** Go's map index: the zero value for a missing key. */
  function Get(values: map<string, string>, k: string): string
  {
    if k in values then values[k] else ""
  }

  /** The pattern search of findStateUpdater, from position `i` of the range order. */
  function FirstPattern(order: seq<Updater>, key: string, i: nat): (r: Option<Updater>)
    ensures r.Some? ==> r.value.isPattern && r.value.pm.Accepts(key) && r.value in order
    ensures r.None? ==> forall j :: i <= j < |order| ==> !(order[j].isPattern && order[j].pm.Accepts(key))
    decreases |order| - i
  {
    if i >= |order| then None
    else if order[i].isPattern && order[i].pm.Accepts(key) then Some(order[i])
    else FirstPattern(order, key, i + 1)
  }

  /** What findStateUpdater returns, ranging over the registry in `order`. */
  function Find(updaters: map<string, Updater>, order: seq<Updater>, key: string): (r: Option<Updater>)
    ensures key in updaters ==> r == Some(updaters[key])
    ensures key !in updaters && r.Some? ==> r.value.isPattern && r.value.pm.Accepts(key) && r.value in order
    ensures key !in updaters && r.None? ==> forall u :: u in order ==> !(u.isPattern && u.pm.Accepts(key))
  {
    if key in updaters then Some(updaters[key]) else FirstPattern(order, key, 0)
  }

  /** findStateUpdater as a function of the key alone, for one registry and range order. */
  function Finder(updaters: map<string, Updater>, order: seq<Updater>): string -> Option<Updater>
  {
    k => Find(updaters, order, k)
  }

  /**
   * The lookup as the registry sees it: an exact name wins; otherwise the
   * result is some pattern updater whose matcher accepts the key, and there
   * is none exactly when no pattern updater accepts it. An updater that is
   * not a pattern is only ever found under its own name.
   */
  lemma {:induction false} FindLookup(updaters: map<string, Updater>, order: seq<Updater>, key: string)
    requires WellFormed(updaters) && Lists(order, updaters)
    ensures Find(updaters, order, key).None? <==>
      key !in updaters && forall n :: n in updaters ==> !(updaters[n].isPattern && updaters[n].pm.Accepts(key))
    ensures Find(updaters, order, key).Some? ==>
      (var u := Find(updaters, order, key).value;
       u.name in updaters && updaters[u.name] == u && (u.name == key || (u.isPattern && u.pm.Accepts(key))))
    ensures Find(updaters, order, key).Some? && !Find(updaters, order, key).value.isPattern ==>
      Find(updaters, order, key).value.name == key
  {
    var r := Find(updaters, order, key);
    if r.None? {
      forall n | n in updaters
        ensures !(updaters[n].isPattern && updaters[n].pm.Accepts(key))
      {
        assert updaters[n] in updaters.Values;
        assert updaters[n] in order;
      }
    } else if key !in updaters {
      assert r.value in updaters.Values;
      var n :| n in updaters && updaters[n] == r.value;
    }
  }

  /** stateUpdater.update: parse the text as the callback's kind, then call it. */
  function Update(u: Updater, key: string, value: string, codec: TimeCodec): (o: Outcome)
    ensures o.Done? <==> ParseAs(u.kind, value, codec).err.Some?
    ensures o.Done? ==> ParseAs(u.kind, value, codec).err == Some(o.err)
    ensures o.Invoked? ==> (o.callback == u.callback && KindOf(o.arg) == u.kind &&
      ParseAs(u.kind, value, codec) == Parsed(o.arg, None))
    ensures o.Invoked? ==> (if u.isPattern then o.key == Some(key) else o.key == None)
    ensures u.kind == KString ==> o.Invoked? && o.arg == TString(value)
  {
    var p := ParseAs(u.kind, value, codec);
    if p.err.Some? then Done(p.err.value)
    else Invoked(u.callback, if u.isPattern then Some(key) else None, p.value)
  }

  /** Text rendered from a value of the callback's kind reaches the callback as that value. */
  lemma {:induction false} UpdateRoundTrip(u: Updater, key: string, v: Typed, codec: TimeCodec)
    requires KindOf(v) == u.kind
    requires v.TInt64? ==> IsInt64(v.i)
    requires v.TTime? ==> codec.parse(codec.format(v.t)) == Parsed(v.t, None)
    ensures Update(u, key, Render(v, codec), codec) ==
      Invoked(u.callback, if u.isPattern then Some(key) else None, v)
  {
    RenderParsesBack(v, codec);
  }

  /** The updaters StateSetGroup collects, one per key that finds one, in batch order. */
  function Found(find: string -> Option<Updater>, batch: seq<string>): (u: seq<Updater>)
    decreases |batch|
  {
    if |batch| == 0 then []
    else
      var rest := Found(find, batch[..|batch| - 1]);
      match find(batch[|batch| - 1])
      case None => rest
      case Some(su) => rest + [su]
  }

  /** um[su]: the keys of the batch that found `su`, in batch order. */
  function KeysFor(find: string -> Option<Updater>, batch: seq<string>, su: Updater): (ks: seq<string>)
    ensures forall i :: 0 <= i < |ks| ==> ks[i] in batch && find(ks[i]) == Some(su)
    decreases |batch|
  {
    if |batch| == 0 then []
    else
      var k := batch[|batch| - 1];
      var rest := KeysFor(find, batch[..|batch| - 1], su);
      if find(k) == Some(su) then rest + [k] else rest
  }

  /** Found and KeysFor over one more key of the batch. */
  lemma CollectStep(find: string -> Option<Updater>, batch: seq<string>, i: nat)
    requires i < |batch|
    ensures Found(find, batch[..i + 1]) ==
      Found(find, batch[..i]) + (if find(batch[i]).Some? then [find(batch[i]).value] else [])
    ensures forall su ::
      KeysFor(find, batch[..i + 1], su) == KeysFor(find, batch[..i], su) + (if find(batch[i]) == Some(su) then [batch[i]] else [])
  {
    assert batch[..i + 1][..i] == batch[..i];
  }

  /** The applications of `su` to `keys`, in order. */
  function Apply(su: Updater, keys: seq<string>, values: map<string, string>, codec: TimeCodec): (r: seq<Applied>)
    ensures |r| == |keys|
    ensures forall i :: 0 <= i < |r| ==>
      r[i] == Applied(su, keys[i], Update(su, keys[i], Get(values, keys[i]), codec))
    decreases |keys|
  {
    if |keys| == 0 then []
    else
      var k := keys[|keys| - 1];
      Apply(su, keys[..|keys| - 1], values, codec) + [Applied(su, k, Update(su, k, Get(values, k), codec))]
  }

  /** Applying to one more key adds its application at the end. */
  lemma ApplySnoc(su: Updater, keys: seq<string>, values: map<string, string>, codec: TimeCodec, m: nat)
    requires m < |keys|
    ensures Apply(su, keys[..m + 1], values, codec) ==
      Apply(su, keys[..m], values, codec) + [Applied(su, keys[m], Update(su, keys[m], Get(values, keys[m]), codec))]
  {
    assert keys[..m + 1][..m] == keys[..m];
  }

  /** The applications for the updaters `s`, each applied to the keys that found it. */
  function Plan(find: string -> Option<Updater>, batch: seq<string>,
                values: map<string, string>, codec: TimeCodec, s: seq<Updater>): (r: seq<Applied>)
    ensures forall a :: a in r ==> (a.updater in s && a.key in batch &&
      find(a.key) == Some(a.updater) &&
      a.outcome == Update(a.updater, a.key, Get(values, a.key), codec))
    decreases |s|
  {
    if |s| == 0 then []
    else
      var su := s[|s| - 1];
      var keys := KeysFor(find, batch, su);
      var r := Plan(find, batch, values, codec, s[..|s| - 1]) + Apply(su, keys, values, codec);
      assert forall a :: a in Apply(su, keys, values, codec) ==> a.updater == su && a.key in keys;
      r
  }

  /** What StateSetGroup applies, in order. */
  function GroupPlan(find: string -> Option<Updater>, batch: seq<string>,
                     values: map<string, string>, codec: TimeCodec): (r: seq<Applied>)
  {
    Plan(find, batch, values, codec, SortBy(Found(find, batch), UpdaterRank))
  }

  /** The list with every repeated element dropped after its first place. */
  function Dedup<T(==)>(s: seq<T>): (r: seq<T>)
    decreases |s|
  {
    if |s| == 0 then []
    else
      var rest := Dedup(s[..|s| - 1]);
      if s[|s| - 1] in rest then rest else rest + [s[|s| - 1]]
  }

  /** The intended StateSetGroup: each updater collected once, however many keys found it. */
  function GroupPlanOnce(find: string -> Option<Updater>, batch: seq<string>,
                         values: map<string, string>, codec: TimeCodec): (r: seq<Applied>)
  {
    Plan(find, batch, values, codec, SortBy(Dedup(Found(find, batch)), UpdaterRank))
  }

  /** The keys of the applications of `p`, in order. */
  function AppliedKeys(p: seq<Applied>): (r: seq<string>)
    ensures |r| == |p| && forall i :: 0 <= i < |p| ==> r[i] == p[i].key
  {
    seq(|p|, i requires 0 <= i < |p| => p[i].key)
  }

  /** How often key `k` is applied in `p`. */
  function Applications(p: seq<Applied>, k: string): nat
  {
    multiset(AppliedKeys(p))[k]
  }

  lemma ApplicationsAppend(p: seq<Applied>, q: seq<Applied>, k: string)
    ensures Applications(p + q, k) == Applications(p, k) + Applications(q, k)
  {
    assert AppliedKeys(p + q) == AppliedKeys(p) + AppliedKeys(q);
  }

  lemma ApplicationsOfApply(su: Updater, keys: seq<string>, values: map<string, string>,
                            codec: TimeCodec, k: string)
    ensures Applications(Apply(su, keys, values, codec), k) == multiset(keys)[k]
  {
    assert AppliedKeys(Apply(su, keys, values, codec)) == keys;
  }

  /** In a batch without repeated keys, `k` is among su's keys once if it found su, else not at all. */
  lemma {:induction false} KeysForOnce(find: string -> Option<Updater>, batch: seq<string>,
                                       su: Updater, k: string)
    requires forall i, j :: 0 <= i < j < |batch| ==> batch[i] != batch[j]
    ensures multiset(KeysFor(find, batch, su))[k] ==
      if k in batch && find(k) == Some(su) then 1 else 0
    decreases |batch|
  {
    if |batch| > 0 {
      var init := batch[..|batch| - 1];
      var last := batch[|batch| - 1];
      KeysForOnce(find, init, su, k);
      assert batch == init + [last];
      if last == k {
        assert k !in init;
      }
    }
  }

  /** su is collected once for every key of the batch that found it. */
  lemma {:induction false} FoundCount(find: string -> Option<Updater>, batch: seq<string>, su: Updater)
    ensures multiset(Found(find, batch))[su] == |KeysFor(find, batch, su)|
    decreases |batch|
  {
    if |batch| > 0 {
      FoundCount(find, batch[..|batch| - 1], su);
    }
  }

  /** Each key is applied once for each occurrence in `s` of the updater it found. */
  lemma {:induction false} PlanCount(find: string -> Option<Updater>, batch: seq<string>,
                                     values: map<string, string>, codec: TimeCodec, s: seq<Updater>,
                                     k: string, su: Updater)
    requires forall i, j :: 0 <= i < j < |batch| ==> batch[i] != batch[j]
    requires k in batch && find(k) == Some(su)
    ensures Applications(Plan(find, batch, values, codec, s), k) == multiset(s)[su]
    decreases |s|
  {
    if |s| > 0 {
      var init := s[..|s| - 1];
      var last := s[|s| - 1];
      var keys := KeysFor(find, batch, last);
      PlanCount(find, batch, values, codec, init, k, su);
      ApplicationsAppend(Plan(find, batch, values, codec, init), Apply(last, keys, values, codec), k);
      ApplicationsOfApply(last, keys, values, codec, k);
      KeysForOnce(find, batch, last, k);
      assert Plan(find, batch, values, codec, s) ==
        Plan(find, batch, values, codec, init) + Apply(last, keys, values, codec);
      MultisetSnoc(s);
    }
  }

  /** One more updater adds its applications at the end. */
  lemma PlanSnoc(find: string -> Option<Updater>, batch: seq<string>, values: map<string, string>,
                 codec: TimeCodec, s: seq<Updater>, j: nat)
    requires j < |s|
    ensures Plan(find, batch, values, codec, s[..j + 1]) ==
      Plan(find, batch, values, codec, s[..j]) + Apply(s[j], KeysFor(find, batch, s[j]), values, codec)
  {
    assert s[..j + 1][..j] == s[..j];
  }

  lemma MultisetSnoc<T>(s: seq<T>)
    requires |s| > 0
    ensures multiset(s) == multiset(s[..|s| - 1]) + multiset{s[|s| - 1]}
  {
    assert s == s[..|s| - 1] + [s[|s| - 1]];
  }

  /**
   * StateSetGroup applies a key as many times as there are keys in the batch
   * that found the same updater: the updater is collected once per such key,
   * and each time all of its keys are applied.
   */
  lemma {:induction false} GroupRepeats(find: string -> Option<Updater>, batch: seq<string>,
                                        values: map<string, string>, codec: TimeCodec, k: string, su: Updater)
    requires Enumerates(batch, values)
    requires k in batch && find(k) == Some(su)
    ensures Applications(GroupPlan(find, batch, values, codec), k) == |KeysFor(find, batch, su)|
  {
    var found := Found(find, batch);
    PlanCount(find, batch, values, codec, SortBy(found, UpdaterRank), k, su);
    FoundCount(find, batch, su);
  }

  /**
   * A key found by an updater that is not a pattern (so by its own name) is
   * applied exactly once; a key with no updater is never applied.
   */
  lemma {:induction false} GroupAppliesExactOnce(updaters: map<string, Updater>, order: seq<Updater>, batch: seq<string>,
                                                 values: map<string, string>, codec: TimeCodec, k: string)
    requires WellFormed(updaters) && Lists(order, updaters) && Enumerates(batch, values)
    requires k in batch
    ensures Find(updaters, order, k).None? ==>
      Applications(GroupPlan(Finder(updaters, order), batch, values, codec), k) == 0
    ensures Find(updaters, order, k).Some? && !Find(updaters, order, k).value.isPattern ==>
      Applications(GroupPlan(Finder(updaters, order), batch, values, codec), k) == 1
  {
    var find := Finder(updaters, order);
    var r := find(k);
    var p := GroupPlan(find, batch, values, codec);
    if r.None? {
      NeverApplied(p, k);
    } else if !r.value.isPattern {
      var su := r.value;
      GroupRepeats(find, batch, values, codec, k, su);
      var keys := KeysFor(find, batch, su);
      forall x | x in keys
        ensures x == k
      {
        FindLookup(updaters, order, x);
        FindLookup(updaters, order, k);
      }
      KeysForOnce(find, batch, su, k);
      OnlyOneValue(keys, k);
    }
  }

  /**
   * With each updater collected once, every key of the batch that found an
   * updater is applied exactly once, pattern updater or not.
   */
  lemma {:induction false} GroupAppliesOnce(find: string -> Option<Updater>, batch: seq<string>,
                                            values: map<string, string>, codec: TimeCodec, k: string, su: Updater)
    requires Enumerates(batch, values)
    requires k in batch && find(k) == Some(su)
    ensures Applications(GroupPlanOnce(find, batch, values, codec), k) == 1
  {
    var found := Found(find, batch);
    PlanCount(find, batch, values, codec, SortBy(Dedup(found), UpdaterRank), k, su);
    FoundCount(find, batch, su);
    KeysForOnce(find, batch, su, k);
    assert su in found;
    DedupCount(found, su);
  }

  /** Every element of the list is kept exactly once. */
  lemma {:induction false} DedupCount<T>(s: seq<T>, x: T)
    ensures multiset(Dedup(s))[x] == if x in s then 1 else 0
    decreases |s|
  {
    if |s| > 0 {
      var init, last := s[..|s| - 1], s[|s| - 1];
      DedupCount(init, x);
      DedupCount(init, last);
      assert s == init + [last];
    }
  }

  /** Dedup over one more element. */
  lemma DedupSnoc<T>(s: seq<T>, x: T)
    ensures Dedup(s + [x]) == if x in Dedup(s) then Dedup(s) else Dedup(s) + [x]
  {
    assert (s + [x])[..|s|] == s;
  }

  /** The deduplicated updaters over one more key: the key's updater is added unless already there. */
  lemma DedupFoundStep(find: string -> Option<Updater>, batch: seq<string>, i: nat)
    requires i < |batch|
    ensures var before := Dedup(Found(find, batch[..i]));
      Dedup(Found(find, batch[..i + 1])) ==
        if find(batch[i]).Some? && find(batch[i]).value !in before then before + [find(batch[i]).value] else before
  {
    var f := Found(find, batch[..i]);
    assert batch[..i + 1][..i] == batch[..i];
    if find(batch[i]).Some? {
      assert Found(find, batch[..i + 1]) == f + [find(batch[i]).value];
      DedupSnoc(f, find(batch[i]).value);
    } else {
      assert Found(find, batch[..i + 1]) == f;
    }
  }

  /** A key none of whose entries is in `p` is applied zero times. */
  lemma NeverApplied(p: seq<Applied>, k: string)
    requires forall a :: a in p ==> a.key != k
    ensures Applications(p, k) == 0
  {
    forall i | 0 <= i < |p|
      ensures AppliedKeys(p)[i] != k
    {
      assert p[i] in p;
    }
  }

  /** A sequence holding only `k`, once, is `[k]`. */
  lemma OnlyOneValue(s: seq<string>, k: string)
    requires forall x :: x in s ==> x == k
    requires multiset(s)[k] == 1
    ensures |s| == 1
  {
    forall i | 0 <= i < |s|
      ensures s[i] == k
    {
      assert s[i] in s;
    }
    AllEqualCount(s, k);
  }

  lemma {:induction false} AllEqualCount(s: seq<string>, k: string)
    requires forall i :: 0 <= i < |s| ==> s[i] == k
    ensures multiset(s)[k] == |s|
    decreases |s|
  {
    if |s| > 0 {
      AllEqualCount(s[1..], k);
      assert s == [s[0]] + s[1..];
    }
  }

  /** The updaters making the applications of `p`, in order. */
  function Updaters(p: seq<Applied>): (r: seq<Updater>)
    ensures |r| == |p| && forall i :: 0 <= i < |p| ==> r[i] == p[i].updater
  {
    seq(|p|, i requires 0 <= i < |p| => p[i].updater)
  }

  /** Applying the updaters of a sorted `s` makes applications whose updaters stay sorted. */
  lemma {:induction false} PlanOrdered(find: string -> Option<Updater>, batch: seq<string>,
                                       values: map<string, string>, codec: TimeCodec, s: seq<Updater>,
                                       rank: Updater -> Rank)
    requires SortedBy(s, rank)
    ensures SortedBy(Updaters(Plan(find, batch, values, codec, s)), rank)
    decreases |s|
  {
    if |s| > 0 {
      var init := s[..|s| - 1];
      var last := s[|s| - 1];
      var head := Plan(find, batch, values, codec, init);
      var tail := Apply(last, KeysFor(find, batch, last), values, codec);
      PlanOrdered(find, batch, values, codec, init, rank);
      SortedRepeat(Updaters(tail), last, rank);
      forall i, j | 0 <= i < |Updaters(head)| && 0 <= j < |Updaters(tail)|
        ensures !RankLess(rank(Updaters(tail)[j]), rank(Updaters(head)[i]))
      {
        assert head[i] in head;
        var m :| 0 <= m < |init| && init[m] == head[i].updater;
        assert s[m] == init[m];
      }
      SortedAppend(Updaters(head), Updaters(tail), rank);
      assert Updaters(head) + Updaters(tail) == Updaters(head + tail);
    }
  }

  /**
   * StateSetGroup applies in ascending (priority, name) order: no application
   * is made by an updater ranked strictly below that of an earlier one.
   */
  lemma {:induction false} GroupOrdered(find: string -> Option<Updater>, batch: seq<string>,
                                        values: map<string, string>, codec: TimeCodec)
    ensures SortedBy(Updaters(GroupPlan(find, batch, values, codec)), UpdaterRank)
  {
    PlanOrdered(find, batch, values, codec, SortBy(Found(find, batch), UpdaterRank), UpdaterRank);
  }

  /** The registry: updaters by name, and the RFC 3339 codec time callbacks parse with. */
  class Registry {
    var updaters: map<string, Updater>
    const codec: TimeCodec

    ghost predicate Valid()
      reads this
    {
      WellFormed(updaters)
    }

    constructor(codec: TimeCodec)
      ensures updaters == map[] && this.codec == codec && Valid()
    {
      updaters := map[];
      this.codec := codec;
    }

    /**
     * The eight Register* functions: plain (RegisterUpdaterString, ...Int64,
     * ...Bool, ...Time) or pattern (RegisterPatternUpdater*), each replacing
     * any updater of that name; the matcher is built from the name.
     */
    method Register(name: string, groupPriority: nat, isPattern: bool, kind: Kind, callback: nat)
      requires Valid() && groupPriority < 256
      modifies this
      ensures Valid()
      ensures updaters == old(updaters)[name := Updater(name, groupPriority, isPattern, kind, callback, NewPatternMatcher(name))]
    {
      updaters := updaters[name := Updater(name, groupPriority, isPattern, kind, callback, NewPatternMatcher(name))];
    }

    /** UnregisterUpdater */
    method UnregisterUpdater(name: string)
      requires Valid()
      modifies this
      ensures Valid() && updaters == old(updaters) - {name}
    {
      updaters := updaters - {name};
    }

    /** findStateUpdater: the exact name, else the first accepting pattern updater in `order`. */
    method FindStateUpdater(key: string, order: seq<Updater>) returns (r: Option<Updater>)
      ensures r == Find(updaters, order, key)
    {
      if key in updaters {
        return Some(updaters[key]);
      }
      var i := 0;
      while i < |order|
        invariant 0 <= i <= |order|
        invariant FirstPattern(order, key, i) == FirstPattern(order, key, 0)
      {
        var u := order[i];
        if u.isPattern {
          var matched := u.pm.Matches(key);
          if matched {
            return Some(u);
          }
        }
        i := i + 1;
      }
      return None;
    }

    /** StateSet: ErrUpdaterNotFound when the lookup finds nothing; otherwise the update. */
    method StateSet(key: string, value: string, order: seq<Updater>) returns (o: Outcome)
      ensures Find(updaters, order, key).None? ==> o == Done(ErrUpdaterNotFound)
      ensures Find(updaters, order, key).Some? ==> o == Update(Find(updaters, order, key).value, key, value, codec)
    {
      var su := FindStateUpdater(key, order);
      if su.None? {
        return Done(ErrUpdaterNotFound);
      }
      o := Update(su.value, key, value, codec);
    }

    /** StateSetGroup's first loop: the updater found for each key, and the keys that found each updater. */
    method Collect(batch: seq<string>, order: seq<Updater>) returns (u: seq<Updater>, um: map<Updater, seq<string>>)
      ensures u == Found(Finder(updaters, order), batch)
      ensures forall su :: (if su in um then um[su] else []) == KeysFor(Finder(updaters, order), batch, su)
    {
      ghost var find := Finder(updaters, order);
      u := [];
      um := map[];
      var i := 0;
      while i < |batch|
        invariant 0 <= i <= |batch|
        invariant u == Found(find, batch[..i])
        invariant forall su :: (if su in um then um[su] else []) == KeysFor(find, batch[..i], su)
      {
        var su := FindStateUpdater(batch[i], order);
        CollectStep(find, batch, i);
        if su.Some? {
          u := u + [su.value];
          um := um[su.value := (if su.value in um then um[su.value] else []) + [batch[i]]];
        }
        i := i + 1;
      }
      assert batch[..|batch|] == batch;
    }

    /** The intended first loop: an updater is collected only the first time a key finds it. */
    method CollectOnce(batch: seq<string>, order: seq<Updater>) returns (u: seq<Updater>, um: map<Updater, seq<string>>)
      ensures u == Dedup(Found(Finder(updaters, order), batch))
      ensures forall su :: (if su in um then um[su] else []) == KeysFor(Finder(updaters, order), batch, su)
    {
      ghost var find := Finder(updaters, order);
      u := [];
      um := map[];
      var i := 0;
      while i < |batch|
        invariant 0 <= i <= |batch|
        invariant u == Dedup(Found(find, batch[..i]))
        invariant forall su :: (if su in um then um[su] else []) == KeysFor(find, batch[..i], su)
      {
        var su := FindStateUpdater(batch[i], order);
        CollectStep(find, batch, i);
        DedupFoundStep(find, batch, i);
        if su.Some? {
          um := um[su.value := (if su.value in um then um[su.value] else []) + [batch[i]]];
          u := if su.value in u then u else u + [su.value];
        }
        i := i + 1;
      }
      assert batch[..|batch|] == batch;
    }

    /** StateSetGroup's inner loop: apply `su` to each of its keys in turn. */
    method ApplyEach(su: Updater, keys: seq<string>, values: map<string, string>) returns (applied: seq<Applied>)
      ensures applied == Apply(su, keys, values, codec)
    {
      applied := [];
      var m := 0;
      while m < |keys|
        invariant 0 <= m <= |keys|
        invariant applied == Apply(su, keys[..m], values, codec)
      {
        ApplySnoc(su, keys, values, codec, m);
        applied := applied + [Applied(su, keys[m], Update(su, keys[m], Get(values, keys[m]), codec))];
        m := m + 1;
      }
      assert keys[..|keys|] == keys;
    }

    /**
     * StateSetGroup: collect the updater found for each key (once per key),
     * sort them by (priority, name), then apply each to every key that found
     * it. Errors are only logged, so every application is returned.
     */
    method StateSetGroup(values: map<string, string>, batch: seq<string>, order: seq<Updater>) returns (applied: seq<Applied>)
      requires Enumerates(batch, values)
      ensures applied == GroupPlan(Finder(updaters, order), batch, values, codec)
    {
      ghost var find := Finder(updaters, order);
      var u, um := Collect(batch, order);
      var sorted := SortBy(u, UpdaterRank);
      applied := [];
      var j := 0;
      while j < |sorted|
        invariant 0 <= j <= |sorted|
        invariant applied == Plan(find, batch, values, codec, sorted[..j])
      {
        var su := sorted[j];
        var keys := if su in um then um[su] else [];
        assert keys == KeysFor(find, batch, su);
        var more := ApplyEach(su, keys, values);
        PlanSnoc(find, batch, values, codec, sorted, j);
        applied := applied + more;
        j := j + 1;
      }
      assert sorted[..|sorted|] == sorted;
    }

    /**
     * StateSetGroup as intended: the same steps, with each updater collected
     * once, so every key is applied once (GroupAppliesOnce).
     */
    method StateSetGroupCorrected(values: map<string, string>, batch: seq<string>, order: seq<Updater>) returns (applied: seq<Applied>)
      requires Enumerates(batch, values)
      ensures applied == GroupPlanOnce(Finder(updaters, order), batch, values, codec)
    {
      ghost var find := Finder(updaters, order);
      var u, um := CollectOnce(batch, order);
      var sorted := SortBy(u, UpdaterRank);
      applied := [];
      var j := 0;
      while j < |sorted|
        invariant 0 <= j <= |sorted|
        invariant applied == Plan(find, batch, values, codec, sorted[..j])
      {
        var su := sorted[j];
        var keys := if su in um then um[su] else [];
        assert keys == KeysFor(find, batch, su);
        var more := ApplyEach(su, keys, values);
        PlanSnoc(find, batch, values, codec, sorted, j);
        applied := applied + more;
        j := j + 1;
      }
      assert sorted[..|sorted|] == sorted;
    }
  }
}
