/**
 * The versioned key/value store of statemanager/statemanager.go (the same
 * code appears, older, as state/statemanager.go): one typed entry per key,
 * each stamped with the global state number of its last change. Writes of an
 * identical value are dropped; a delete empties a whole subtree.
 */
module TypedStore {
  import opened GoBase
  import opened GoStrconv

  /** The value a typed write carries: one of the four types the store holds. */
  datatype Typed = TString(s: string) | TInt64(i: int) | TBool(b: bool) | TTime(t: Time)

  /** What stateUpdate is handed: one of the four types, or a value of any other Go type. */
  datatype Any = Known(v: Typed) | Unsupported

  /** The type tag stored in an entry's `t` field. */
  function TypeName(v: Typed): string
  {
    match v
    case TString(_) => "string"
    case TInt64(_) => "int64"
    case TBool(_) => "bool"
    case TTime(_) => "time"
  }

  /**
   * The `state` record: every type keeps its own value field, so a change of
   * type leaves the other fields as they were; `t` says which one is live.
   */
  datatype Entry = Entry(
    stateNum: nat,
    name: string,
    isEmpty: bool,
    valueString: string,
    valueInt64: int,
    valueBool: bool,
    valueTime: Time,
    t: string)
  {
    /** Does this entry already hold exactly `v`? Then a write of `v` changes nothing. */
    predicate Holds(v: Typed)
    {
      !isEmpty && t == TypeName(v) &&
      match v
      case TString(s) => valueString == s
      case TInt64(i) => valueInt64 == i
      case TBool(b) => valueBool == b
      case TTime(tm) => valueTime == tm
    }

    /** The entry after `v` is stored in it and stamped with `num`. */
    function Store(v: Typed, num: nat): (e: Entry)
      ensures e.Holds(v) && e.stateNum == num && e.name == name
    {
      match v
      case TString(s) => this.(t := "string", valueString := s, isEmpty := false, stateNum := num)
      case TInt64(i) => this.(t := "int64", valueInt64 := i, isEmpty := false, stateNum := num)
      case TBool(b) => this.(t := "bool", valueBool := b, isEmpty := false, stateNum := num)
      case TTime(tm) => this.(t := "time", valueTime := tm, isEmpty := false, stateNum := num)
    }
  }

  /** The entry a first write to `k` starts from: empty, untyped, stamped 0. */
  function NewEntry(k: string): Entry
  {
    Entry(0, k, true, "", 0, false, ZeroTime, "")
  }

  /** The text a typed value is published as. */
  function Render(v: Typed, codec: TimeCodec): string
  {
    match v
    case TString(s) => s
    case TInt64(i) => FormatInt(i)
    case TBool(b) => FormatBool(b)
    case TTime(tm) => codec.format(tm)
  }

  /**
   * state.Value: the entry's text and whether it is empty. An empty entry,
   * or one whose type tag is none of the four, reads as ("", true).
   */
  function Value(e: Entry, codec: TimeCodec): (r: (string, bool))
    ensures r.1 <==> e.isEmpty || e.t !in {"string", "int64", "bool", "time"}
    ensures r.1 ==> r.0 == ""
  {
    if e.isEmpty then ("", true)
    else if e.t == "string" then (e.valueString, false)
    else if e.t == "int64" then (FormatInt(e.valueInt64), false)
    else if e.t == "bool" then (FormatBool(e.valueBool), false)
    else if e.t == "time" then (codec.format(e.valueTime), false)
    else ("", true)
  }

  /**
   * The `value` the listener and updater code of statemanager/ reads from an
   * entry (a `*string`, nil when empty): Value's text unless it is empty.
   */
  function Current(e: Entry, codec: TimeCodec): Option<string>
  {
    var (txt, empty) := Value(e, codec);
    if empty then None else Some(txt)
  }

  /** An entry that holds `v` reads back as `v`'s rendering, and is not empty. */
  lemma {:induction false} ValueOfHeld(e: Entry, v: Typed, codec: TimeCodec)
    requires e.Holds(v)
    ensures Value(e, codec) == (Render(v, codec), false)
  {
  }

  /**
   * A non-empty int64 or bool entry's text parses back to its value, which is
   * what lets an updater receive what a listener was sent.
   */
  lemma {:induction false} ValueParsesBack(e: Entry, codec: TimeCodec)
    requires !e.isEmpty && IsInt64(e.valueInt64)
    ensures e.t == "int64" ==> ParseInt(Value(e, codec).0) == Parsed(e.valueInt64, None)
    ensures e.t == "bool" ==> ParseBool(Value(e, codec).0) == Parsed(e.valueBool, None)
  {
    if e.t == "int64" {
      FormatIntRoundTrip(e.valueInt64);
    } else if e.t == "bool" {
      FormatBoolRoundTrip(e.valueBool);
    }
  }

  /** The entries after a typed write of `v` to `k` while the global state number is `num`. */
  function Put(states: map<string, Entry>, k: string, v: Typed, num: nat): map<string, Entry>
  {
    var e := if k in states then states[k] else NewEntry(k);
    if e.Holds(v) then states else states[k := e.Store(v, num)]
  }

  /** Does a write of `v` to `k` change anything (and so raise stateUpdated)? */
  predicate Changes(states: map<string, Entry>, k: string, v: Typed)
  {
    !(k in states && states[k].Holds(v))
  }

  /** A key lies in the subtree of `k` when it is `k` or starts with `k.`. */
  predicate InSubtree(key: string, k: string)
  {
    key == k || Index(key, k + ".") == 0
  }

  /** strings.Index(key, p) == 0 is the prefix test. */
  lemma {:induction false} IndexZeroIsPrefix(key: string, p: string)
    ensures Index(key, p) == 0 <==> HasPrefix(key, p)
  {
    IndexFirst(key, p);
    if HasPrefix(key, p) {
      assert OccursAt(key, p, 0);
    }
  }

  /** The entries after a subtree delete of `k` while the global state number is `num`. */
  function DeleteSubtree(states: map<string, Entry>, k: string, num: nat): (r: map<string, Entry>)
    ensures r.Keys == states.Keys
  {
    map key | key in states :: if InSubtree(key, k) then states[key].(stateNum := num, isEmpty := true) else states[key]
  }

  /** DeleteSubtree part-way: the entries of the subtree already visited (not in `todo`) emptied. */
  ghost function Swept(states: map<string, Entry>, k: string, num: nat, todo: set<string>): map<string, Entry>
  {
    map key | key in states :: if key !in todo && InSubtree(key, k) then states[key].(stateNum := num, isEmpty := true) else states[key]
  }

  /** Visiting an entry of the subtree empties it. */
  lemma SweepStep(states: map<string, Entry>, k: string, num: nat, todo: set<string>, key: string)
    requires key in todo && key in states && InSubtree(key, k)
    ensures Swept(states, k, num, todo - {key}) == Swept(states, k, num, todo)[key := states[key].(stateNum := num, isEmpty := true)]
  {
  }

  /** Visiting an entry outside the subtree changes nothing. */
  lemma SweepSkip(states: map<string, Entry>, k: string, num: nat, todo: set<string>, key: string)
    requires !InSubtree(key, k)
    ensures Swept(states, k, num, todo - {key}) == Swept(states, k, num, todo)
  {
  }

  /** Emptying entries keeps their names. */
  lemma SweptNames(states: map<string, Entry>, k: string, num: nat)
    requires forall key :: key in states ==> states[key].name == key
    ensures var r := Swept(states, k, num, {}); forall key :: key in r ==> r[key].name == key
  {
  }

  /** Once every entry has been visited, the sweep is DeleteSubtree. */
  lemma SweepDone(states: map<string, Entry>, k: string, num: nat)
    ensures Swept(states, k, num, {}) == DeleteSubtree(states, k, num)
  {
  }

  /** The store: the entries, the global state number and the "something changed" flag. */
  class Store {
    var states: map<string, Entry>
    var stateNum: nat
    var stateUpdated: bool
    const codec: TimeCodec

    /** Every entry is filed under its own name. */
    ghost predicate Valid()
      reads this
    {
      forall k :: k in states ==> states[k].name == k
    }

    /** Initialize: no entries, state number 1, nothing changed yet. */
    constructor(codec: TimeCodec)
      ensures states == map[] && stateNum == 1 && !stateUpdated && this.codec == codec
      ensures Valid()
    {
      states := map[];
      stateNum := 1;
      stateUpdated := false;
      this.codec := codec;
    }

    /**
     * StateUpdateString, StateUpdateInt64, StateUpdateBool and StateUpdateTime:
     * create the entry if needed, then store and stamp unless it already holds
     * the same value.
     */
    method StateUpdateTyped(k: string, v: Typed) returns (err: Option<Error>)
      requires Valid()
      modifies this
      ensures Valid() && err == None
      ensures states == Put(old(states), k, v, old(stateNum))
      ensures stateUpdated == (old(stateUpdated) || Changes(old(states), k, v))
      ensures stateNum == old(stateNum)
    {
      var s: Entry;
      if k in states {
        s := states[k];
      } else {
        s := NewEntry(k);
        states := states[k := s];
      }
      if s.isEmpty || s.t != TypeName(v) || !s.Holds(v) {
        s := s.Store(v, stateNum);
        states := states[k := s];
        stateUpdated := true;
      }
      err := None;
    }

    /** StateDelete: empty and stamp every entry of the subtree of `k`; create nothing. */
    method StateDelete(k: string) returns (err: Option<Error>)
      requires Valid()
      modifies this
      ensures Valid() && err == None
      ensures states == DeleteSubtree(old(states), k, old(stateNum))
      ensures stateUpdated == (old(stateUpdated) || exists key :: key in old(states) && InSubtree(key, k))
      ensures stateNum == old(stateNum)
    {
      ghost var start := states;
      var todo := states.Keys;
      while todo != {}
        invariant todo <= start.Keys && stateNum == old(stateNum)
        invariant states == Swept(start, k, stateNum, todo)
        invariant stateUpdated == (old(stateUpdated) || exists key :: key in start && key !in todo && InSubtree(key, k))
        decreases |todo|
      {
        var key :| key in todo;
        if key == k || Index(key, k + ".") == 0 {
          var s := states[key];
          SweepStep(start, k, stateNum, todo, key);
          states := states[key := s.(stateNum := stateNum, isEmpty := true)];
          stateUpdated := true;
        } else {
          SweepSkip(start, k, stateNum, todo, key);
        }
        todo := todo - {key};
      }
      SweepDone(start, k, stateNum);
      SweptNames(start, k, stateNum);
      err := None;
    }

    /** stateUpdate: nil deletes the subtree, the four types write, any other type is refused. */
    method StateUpdate(k: string, v: Option<Any>) returns (err: Option<Error>)
      requires Valid()
      modifies this
      ensures Valid()
      ensures v == None ==> err == None && states == DeleteSubtree(old(states), k, old(stateNum))
      ensures v == None ==> stateUpdated == (old(stateUpdated) || exists key :: key in old(states) && InSubtree(key, k))
      ensures v == Some(Unsupported) ==> err == Some(ErrUnknownType) && states == old(states) && stateUpdated == old(stateUpdated)
      ensures v.Some? && v.value.Known? ==> err == None && states == Put(old(states), k, v.value.v, old(stateNum))
      ensures v.Some? && v.value.Known? ==> stateUpdated == (old(stateUpdated) || Changes(old(states), k, v.value.v))
      ensures stateNum == old(stateNum)
    {
      match v
      case None => err := StateDelete(k);
      case Some(Known(t)) => err := StateUpdateTyped(k, t);
      case Some(Unsupported) => err := Some(ErrUnknownType);
    }
  }

  // ------------------------------------------------------------ properties

  /** A first write to an absent key creates a non-empty entry holding `v`, stamped `num`. */
  lemma {:induction false} PutCreates(states: map<string, Entry>, k: string, v: Typed, num: nat)
    requires k !in states
    ensures Changes(states, k, v)
    ensures var e := Put(states, k, v, num)[k];
      !e.isEmpty && e.t == TypeName(v) && e.stateNum == num && e.name == k && e.Holds(v)
  {
  }

  /** Writing the value an entry already holds changes no entry. */
  lemma {:induction false} PutSameIsNoOp(states: map<string, Entry>, k: string, v: Typed, num: nat)
    requires k in states && states[k].Holds(v)
    ensures !Changes(states, k, v)
    ensures Put(states, k, v, num) == states
  {
  }

  /**
   * Writing a value the entry does not hold (another type, another value, or
   * an empty entry) re-types it, stores the value and stamps it.
   */
  lemma {:induction false} PutOtherReplaces(states: map<string, Entry>, k: string, v: Typed, num: nat, codec: TimeCodec)
    requires k in states && !states[k].Holds(v)
    ensures Changes(states, k, v)
    ensures var e := Put(states, k, v, num)[k];
      e.t == TypeName(v) && !e.isEmpty && e.stateNum == num && Value(e, codec) == (Render(v, codec), false)
  {
    ValueOfHeld(Put(states, k, v, num)[k], v, codec);
  }

  /** A write reads back: the written key then renders `v`, and no other key moves. */
  lemma {:induction false} PutReadsBack(states: map<string, Entry>, k: string, v: Typed, num: nat, codec: TimeCodec)
    ensures k in Put(states, k, v, num)
    ensures Value(Put(states, k, v, num)[k], codec) == (Render(v, codec), false)
    ensures Put(states, k, v, num).Keys == states.Keys + {k}
    ensures forall key :: key in states && key != k ==> Put(states, k, v, num)[key] == states[key]
  {
    ValueOfHeld(Put(states, k, v, num)[k], v, codec);
  }

  /** A second identical write is absorbed. */
  lemma {:induction false} PutIdempotent(states: map<string, Entry>, k: string, v: Typed, num1: nat, num2: nat)
    ensures Put(Put(states, k, v, num1), k, v, num2) == Put(states, k, v, num1)
    ensures !Changes(Put(states, k, v, num1), k, v)
  {
  }

  /**
   * A subtree delete empties and stamps exactly the subtree: `k` and keys
   * starting with `k.`; `kX` and every other key are left alone.
   */
  lemma {:induction false} DeleteExactlySubtree(states: map<string, Entry>, k: string, num: nat, key: string)
    requires key in states
    ensures var e := DeleteSubtree(states, k, num)[key];
      if key == k || HasPrefix(key, k + ".") then e.isEmpty && e.stateNum == num && e.name == states[key].name
      else e == states[key]
  {
    IndexZeroIsPrefix(key, k + ".");
  }

  /** A sibling whose name merely extends `k` (like `kX`) is not in its subtree. */
  lemma {:induction false} DeleteSparesSibling(k: string, x: string)
    requires |x| > 0 && x[0] != '.'
    ensures !InSubtree(k + x, k)
  {
    IndexZeroIsPrefix(k + x, k + ".");
    assert (k + x)[|k|] == x[0];
  }

  /** An empty entry reads as ("", true), whatever it held before. */
  lemma {:induction false} DeletedReadsEmpty(states: map<string, Entry>, k: string, num: nat, codec: TimeCodec)
    requires k in states
    ensures Value(DeleteSubtree(states, k, num)[k], codec) == ("", true)
  {
  }
}
