/**
 * The newer store of state/state.go and state/state_*.go. Each key owns a
 * State record whose value lives in a separate holder object of one of four
 * kinds (string, int64, bool, time). A holder points back at its State and
 * stamps it whenever it is set; a replaced holder is released (its back
 * pointer cleared) so any later set through it fails. Unlike the older store
 * there is no de-duplication: every set stamps.
 *
 * The four holder types StateString, StateInt64, StateBool and StateTime run
 * the same code apart from how they render and parse their value, so they are
 * one class, ValueHolder, with a `kind` fixed at creation.
 */
module HolderStore {
  import opened GoBase
  import opened GoStrconv
  import opened TypedStore

  datatype Kind = KString | KInt64 | KBool | KTime

  function KindOf(v: Typed): Kind
  {
    match v
    case TString(_) => KString
    case TInt64(_) => KInt64
    case TBool(_) => KBool
    case TTime(_) => KTime
  }

  /** How a holder of `kind` reads text: strconv.ParseInt, strconv.ParseBool or time.Parse. */
  function ParseAs(kind: Kind, text: string, codec: TimeCodec): (p: Parsed<Typed>)
    ensures KindOf(p.value) == kind
    ensures kind == KString ==> p == Parsed(TString(text), None)
  {
    match kind
    case KString => Parsed(TString(text), None)
    case KInt64 => var q := ParseInt(text); Parsed(TInt64(q.value), q.err)
    case KBool => var q := ParseBool(text); Parsed(TBool(q.value), q.err)
    case KTime => var q := codec.parse(text); Parsed(TTime(q.value), q.err)
  }

  /** What a holder renders, read back by its own parser, is what it holds (int64 within range). */
  lemma {:induction false} RenderParsesBack(v: Typed, codec: TimeCodec)
    requires v.TInt64? ==> IsInt64(v.i)
    requires v.TTime? ==> codec.parse(codec.format(v.t)) == Parsed(v.t, None)
    ensures ParseAs(KindOf(v), Render(v, codec), codec) == Parsed(v, None)
  {
    match v
    case TString(_) =>
    case TInt64(i) => FormatIntRoundTrip(i);
    case TBool(b) => FormatBoolRoundTrip(b);
    case TTime(_) =>
  }

  /**
   * What SetFromString stores, as written in state_int64.go, state_bool.go and
   * state_time.go: the error test is inverted, so the parse result is stored
   * only when parsing FAILED, and well-formed text is dropped.
   */
  function StoredAsWritten(kind: Kind, text: string, codec: TimeCodec): (r: Option<Typed>)
    ensures r.Some? ==> KindOf(r.value) == kind
  {
    if kind == KString then Some(TString(text))
    else
      var p := ParseAs(kind, text, codec);
      if p.err.Some? then Some(p.value) else None
  }

  /** What SetFromString evidently means to store: the parsed value, when parsing succeeds. */
  function Stored(kind: Kind, text: string, codec: TimeCodec): (r: Option<Typed>)
    ensures r.Some? ==> KindOf(r.value) == kind
  {
    var p := ParseAs(kind, text, codec);
    if p.err.None? then Some(p.value) else None
  }

  /**
   * The inverted test in numbers: "5" sent to an int64 holder is dropped, "x"
   * stores 0, and text past the int64 range stores the clamped bound; the
   * corrected reading stores 5 and refuses "x".
   */
  lemma StoredAsWrittenInverted(codec: TimeCodec)
    ensures StoredAsWritten(KInt64, "5", codec) == None
    ensures Stored(KInt64, "5", codec) == Some(TInt64(5))
    ensures StoredAsWritten(KInt64, "x", codec) == Some(TInt64(0))
    ensures Stored(KInt64, "x", codec) == None
    ensures StoredAsWritten(KBool, "true", codec) == None
    ensures StoredAsWritten(KBool, "yes", codec) == Some(TBool(false))
  {
    assert DecimalValue("5") == 5;
    assert !AllDigits("x") by { assert !IsDigit("x"[0]); }
  }

  /** With the test corrected, every value a holder renders is stored back unchanged. */
  lemma {:induction false} StoredReadsRendering(v: Typed, codec: TimeCodec)
    requires v.TInt64? ==> IsInt64(v.i)
    requires v.TTime? ==> codec.parse(codec.format(v.t)) == Parsed(v.t, None)
    ensures Stored(KindOf(v), Render(v, codec), codec) == Some(v)
  {
    RenderParsesBack(v, codec);
  }

  /** The global store: the State records by name, the state number and the changed flag. */
  class StateStore {
    var states: map<string, State>
    var stateNum: nat
    var stateUpdated: bool
    const codec: TimeCodec
    /** Every record the store has made. */
    ghost var RecordRepr: set<State>
    /** Every holder its records have had, current or replaced. */
    ghost var HolderRepr: set<ValueHolder>

    /** The State records. */
    ghost function Objs(): set<object>
      reads this
    {
      set k | k in states :: states[k]
    }

    /** The holders those records hold. */
    ghost function Holders(): set<object>
      reads this, Objs()
    {
      set k | k in states && states[k].value.Some? :: states[k].value.value
    }

    /** The current records and holders are all in the footprint. */
    ghost predicate Framed()
      reads this, RecordRepr
    {
      forall k :: k in states ==> states[k] in RecordRepr && (states[k].value.Some? ==> states[k].value.value in HolderRepr)
    }

    /** Every record is filed under its own name, belongs here, and owns a live holder of the right kind. */
    ghost predicate Valid()
      reads this, Objs(), Holders()
    {
      forall k :: k in states ==> states[k].name == k && states[k].store == this && states[k].Live()
    }

    /** Initialize (state/init.go): no records, state number 1. */
    constructor(codec: TimeCodec)
      ensures states == map[] && stateNum == 1 && !stateUpdated && this.codec == codec && Valid() && Framed()
    {
      RecordRepr, HolderRepr := {}, {};
      states := map[];
      stateNum := 1;
      stateUpdated := false;
      this.codec := codec;
    }

    /** GetState: the record for `k`, created value-less with stateNum 0 if there is none. */
    method GetState(k: string) returns (s: State)
      requires Valid()
      modifies this
      ensures Valid() && s.name == k && s.store == this && states == old(states)[k := s]
      ensures k in old(states) ==> s == old(states[k])
      ensures k !in old(states) ==> fresh(s) && s.stateNum == 0 && s.value.None?
      ensures stateNum == old(stateNum) && stateUpdated == old(stateUpdated)
      ensures RecordRepr == old(RecordRepr) && HolderRepr == old(HolderRepr)
    {
      if k in states {
        s := states[k];
      } else {
        s := new State(this, k);
        states := states[k := s];
      }
    }

    /**
     * SetStateString, SetStateInt64, SetStateBool, SetStateTime: get or
     * create the record, then set it (see State.SetTyped).
     */
    method SetStateTyped(k: string, v: Typed) returns (s: State)
      requires Valid() && Framed()
      modifies this, RecordRepr, HolderRepr
      ensures Valid() && k in states && states[k] == s
      ensures states.Keys == old(states.Keys) + {k}
      ensures s.value.Some? && s.value.value.v == v && s.value.value.kind == KindOf(v)
      ensures s.stateNum == stateNum == old(stateNum) && stateUpdated
      ensures forall key :: key in old(states) && key != k ==> states[key] == old(states[key])
      ensures forall key :: key in old(states) && key != k ==> states[key].value == old(states[key].value)
      ensures forall key :: key in old(states) && key != k && states[key].value.Some? ==>
        states[key].value.value.v == old(states[key].value.value.v)
      ensures Framed() && fresh(RecordRepr - old(RecordRepr)) && fresh(HolderRepr - old(HolderRepr))
    {
      s := GetState(k);
      RecordRepr := RecordRepr + {s};
      SetRecord(s, v);
    }

    /** Sets an existing record `s` (the second half of SetStateTyped). */
    method SetRecord(s: State, v: Typed)
      requires Valid() && Framed() && s.name in states && states[s.name] == s
      modifies this, RecordRepr, HolderRepr, s, if s.value.Some? then {s.value.value} else {}
      ensures Valid() && states == old(states)
      ensures s.value.Some? && s.value.value.v == v && s.value.value.kind == KindOf(v)
      ensures s.stateNum == stateNum == old(stateNum) && stateUpdated
      ensures forall key :: key in states && key != s.name ==>
        states[key].value == old(states[key].value) &&
        (states[key].value.Some? ==> states[key].value.value.v == old(states[key].value.value.v))
      ensures Framed() && RecordRepr == old(RecordRepr) + {s} && fresh(HolderRepr - old(HolderRepr))
    {
      ghost var records, holders := RecordRepr, HolderRepr;
      s.SetTyped(v);
      RecordRepr, HolderRepr := records + {s}, holders + {s.value.value};
      OthersStayValid(s);
    }

    /** Changing one record keeps the others valid (records never share holders). */
    lemma OthersStayValid(s: State)
      requires s in Objs() && s.Live() && s.store == this
      requires forall k :: k in states && states[k] != s ==> states[k].name == k && states[k].store == this && states[k].Live()
      requires forall k :: k in states && states[k] == s ==> s.name == k
      ensures Valid()
    {
    }

    /**
     * Delete: every record of the subtree of `k` loses its value and is
     * stamped; other records are untouched, no record is created, and the
     * dropped holders are not released (their back pointers stay).
     */
    method Delete(k: string) returns (err: Option<Error>)
      requires Valid()
      modifies this, Objs()
      ensures Valid()
      ensures err == None && states == old(states) && stateNum == old(stateNum)
      ensures forall key :: key in states && InSubtree(key, k) ==>
        states[key].value.None? && states[key].stateNum == stateNum
      ensures forall key :: key in states && !InSubtree(key, k) ==>
        states[key].value == old(states[key].value) && states[key].stateNum == old(states[key].stateNum)
      ensures stateUpdated == (old(stateUpdated) || exists key :: key in states && InSubtree(key, k))
    {
      var todo := states.Keys;
      while todo != {}
        invariant todo <= states.Keys && states == old(states) && stateNum == old(stateNum)
        invariant forall key :: key in states && key !in todo && InSubtree(key, k) ==>
          states[key].value.None? && states[key].stateNum == stateNum
        invariant forall key :: key in states && (key in todo || !InSubtree(key, k)) ==>
          states[key].value == old(states[key].value) && states[key].stateNum == old(states[key].stateNum)
        invariant stateUpdated == (old(stateUpdated) || exists key :: key in states && key !in todo && InSubtree(key, k))
        invariant Valid()
        decreases |todo|
      {
        var key :| key in todo;
        if key == k || Index(key, k + ".") == 0 {
          DeleteRecord(key);
        }
        todo := todo - {key};
      }
      err := None;
    }

    /** One step of Delete: the record of `key` loses its value and is stamped. */
    method DeleteRecord(key: string)
      requires Valid() && key in states
      modifies this, states[key]
      ensures Valid() && states == old(states) && stateNum == old(stateNum) && stateUpdated
      ensures states[key].value.None? && states[key].stateNum == stateNum
      ensures forall other :: other in states && other != key ==>
        states[other].value == old(states[other].value) && states[other].stateNum == old(states[other].stateNum)
    {
      states[key].Delete();
    }
  }

  /** The State record of one key. */
  class State {
    var stateNum: nat
    const name: string
    var strVal: string
    const strValSN: nat
    var value: Option<ValueHolder>
    const store: StateStore

    /** The holder, if any, points back here and holds a value of its kind. */
    ghost predicate Live()
      reads this, if value.Some? then {value.value} else {}
    {
      value.Some? ==> value.value.s == this && KindOf(value.value.v) == value.value.kind
    }

    /** &State{name: k}: no value, stamped 0; strValSN is never written afterwards. */
    constructor(store: StateStore, name: string)
      ensures this.store == store && this.name == name && stateNum == 0 && value.None?
      ensures strVal == "" && strValSN == 0 && Live()
    {
      this.store := store;
      this.name := name;
      stateNum := 0;
      strVal := "";
      strValSN := 0;
      value := None;
    }

    /** HasValue */
    predicate HasValue()
      reads this
    {
      value.Some?
    }

    /** The text Value returns: "" without a holder, else the cache if current, else the holder's rendering. */
    function Shown(): string
      reads this, if value.Some? then {value.value} else {}
    {
      if value.None? then ""
      else if strValSN != stateNum then value.value.Value()
      else strVal
    }

    /** StateNum */
    function StateNum(): nat
      reads this
    {
      stateNum
    }

    /** setUpdated: stamp with the global state number and raise the changed flag. */
    method SetUpdated()
      modifies this, store
      ensures stateNum == store.stateNum == old(store.stateNum) && store.stateUpdated
      ensures value == old(value) && strVal == old(strVal)
      ensures store.states == old(store.states)
    {
      stateNum := store.stateNum;
      store.stateUpdated := true;
    }

    /** State.Delete: drop the value (the holder is not released) and stamp. */
    method Delete()
      modifies this, store
      ensures value.None? && stateNum == store.stateNum == old(store.stateNum) && store.stateUpdated
      ensures store.states == old(store.states) && strVal == old(strVal)
    {
      stateNum := store.stateNum;
      value := None;
      store.stateUpdated := true;
    }

    /**
     * Value: "" without a holder; otherwise the cached text, refreshed from
     * the holder whenever strValSN differs from stateNum.
     */
    method Value() returns (r: string)
      modifies this
      ensures r == old(Shown()) && Shown() == old(Shown())
      ensures value == old(value) && stateNum == old(stateNum)
      ensures value.None? ==> r == "" && strVal == old(strVal)
      ensures value.Some? && strValSN != stateNum ==> r == value.value.Value() && strVal == r
      ensures value.Some? && strValSN == stateNum ==> r == old(strVal) && strVal == old(strVal)
    {
      if value.None? {
        return "";
      }
      if strValSN != stateNum {
        strVal := value.value.Value();
      }
      r := strVal;
    }

    /**
     * SetString, SetInt64, SetBool, SetTime: a holder of the same kind is set
     * in place; otherwise the old holder, if any, is released and a new one
     * is installed. Either way the record is stamped and stateUpdated raised,
     * even when the value does not change.
     */
    method SetTyped(v: Typed)
      requires Live() && store.Valid()
      modifies this, store, if value.Some? then {value.value} else {}
      ensures Live() && value.Some? && value.value.v == v && value.value.kind == KindOf(v)
      ensures stateNum == store.stateNum == old(store.stateNum) && store.stateUpdated
      ensures store.states == old(store.states)
      ensures old(value).Some? && old(value).value.kind == KindOf(v) ==> value == old(value)
      ensures old(value).Some? && old(value).value.kind != KindOf(v) ==>
        fresh(value.value) && old(value).value.s == null
      ensures old(value).None? ==> fresh(value.value)
    {
      if value.Some? && value.value.kind == KindOf(v) {
        var h := value.value;
        var err := h.Set(v);
      } else {
        if value.Some? {
          value.value.Release();
        }
        var h := new ValueHolder(this, v, store.codec);
        value := Some(h);
      }
    }

    /**
     * Set(text) as written: a record without a value first gets an empty
     * string holder; then the text goes to the holder's SetFromString as
     * written, so a typed holder keeps its value when the text parses and
     * takes the zero value when it does not, and no error comes back.
     */
    method Set(text: string) returns (err: Option<Error>)
      requires Live()
      modifies this, store, if value.Some? then {value.value} else {}
      ensures Live() && value.Some? && store.states == old(store.states)
      ensures old(value).Some? ==> value == old(value)
      ensures old(value).None? ==> fresh(value.value) && value.value.kind == KString
      ensures err == None
      ensures var h := value.value; var want := StoredAsWritten(h.kind, text, h.codec);
        (want.Some? ==> h.v == want.value && stateNum == store.stateNum && store.stateUpdated) &&
        (want.None? ==> h.v == old(if value.Some? then value.value.v else TString("")))
    {
      if value.None? {
        var h := new ValueHolder.Empty(this, store.codec);
        value := Some(h);
      }
      err := value.value.SetFromStringAsWritten(text);
    }

    /**
     * Set(text) with the holder's test corrected: the parsed value is stored,
     * or the parse error comes back and nothing changes.
     */
    method SetCorrected(text: string) returns (err: Option<Error>)
      requires Live()
      modifies this, store, if value.Some? then {value.value} else {}
      ensures Live() && value.Some? && store.states == old(store.states)
      ensures old(value).Some? ==> value == old(value)
      ensures old(value).None? ==> fresh(value.value) && value.value.kind == KString
      ensures var h := value.value; var want := Stored(h.kind, text, h.codec);
        (want.Some? ==> err == None && h.v == want.value && stateNum == store.stateNum && store.stateUpdated) &&
        (want.None? ==> err == ParseAs(h.kind, text, h.codec).err && h.v == old(if value.Some? then value.value.v else TString("")))
    {
      if value.None? {
        var h := new ValueHolder.Empty(this, store.codec);
        value := Some(h);
      }
      err := value.value.SetFromString(text);
    }
  }

  /** A value holder: StateString, StateInt64, StateBool or StateTime. */
  class ValueHolder {
    const kind: Kind
    var s: State?
    var v: Typed
    const codec: TimeCodec

    /** The objects a set writes besides the holder: the owning record and its store. */
    ghost function Owner(): set<object>
      reads this
    {
      if s == null then {} else {s, s.store}
    }

    /** newStateString, newStateInt64, newStateBool, newStateTime: attach to `s`, then Set. */
    constructor(s: State, v: Typed, codec: TimeCodec)
      modifies s, s.store
      ensures this.s == s && this.v == v && kind == KindOf(v) && this.codec == codec
      ensures s.stateNum == s.store.stateNum == old(s.store.stateNum) && s.store.stateUpdated
      ensures s.value == old(s.value) && s.store.states == old(s.store.states)
    {
      kind := KindOf(v);
      this.s := s;
      this.v := v;
      this.codec := codec;
      new;
      var err := Set(v);
    }

    /** &StateString{s: s}: the bare string holder State.Set installs, holding "" and stamping nothing. */
    constructor Empty(s: State, codec: TimeCodec)
      ensures this.s == s && v == TString("") && kind == KString && this.codec == codec
    {
      kind := KString;
      this.s := s;
      v := TString("");
      this.codec := codec;
    }

    /** Value: the held value rendered (decimal, "true"/"false", RFC 3339 in UTC). */
    function Value(): string
      reads this
    {
      Render(v, codec)
    }

    /** Set: refused once released; otherwise store and stamp the owner. */
    method Set(x: Typed) returns (err: Option<Error>)
      requires KindOf(x) == kind
      modifies this, Owner()
      ensures s == old(s)
      ensures old(s) == null ==> err == Some(ErrStateInvalid) && v == old(v)
      ensures old(s) != null ==> (err == None && v == x &&
        s.stateNum == s.store.stateNum == old(s.store.stateNum) && s.store.stateUpdated &&
        s.value == old(s.value) && s.store.states == old(s.store.states))
    {
      if s == null {
        return Some(ErrStateInvalid);
      }
      v := x;
      s.SetUpdated();
      err := None;
    }

    /**
     * SetFromString as written: a string holder sets the text; the others
     * store the parse result only when parsing failed, and always return nil.
     */
    method SetFromStringAsWritten(text: string) returns (err: Option<Error>)
      modifies this, Owner()
      ensures s == old(s)
      ensures err == if old(s) == null && kind == KString then Some(ErrStateInvalid) else None
      ensures var want := StoredAsWritten(kind, text, codec);
        v == if want.Some? && old(s) != null then want.value else old(v)
      ensures old(s) != null ==> s.value == old(s.value) && s.store.states == old(s.store.states)
      ensures old(s) != null && StoredAsWritten(kind, text, codec).Some? ==>
        s.stateNum == s.store.stateNum == old(s.store.stateNum) && s.store.stateUpdated
    {
      var p := ParseAs(kind, text, codec);
      if kind == KString {
        err := Set(p.value);
      } else if p.err.Some? {
        var ignored := Set(p.value);
        err := None;
      } else {
        err := p.err;
      }
    }

    /**
     * SetFromString as evidently intended: store the parsed value, or return
     * the parse error and store nothing.
     */
    method SetFromString(text: string) returns (err: Option<Error>)
      modifies this, Owner()
      ensures s == old(s)
      ensures old(s) != null ==> s.value == old(s.value) && s.store.states == old(s.store.states)
      ensures var want := Stored(kind, text, codec);
        (want.Some? ==> (v == (if old(s) != null then want.value else old(v)) &&
          err == (if old(s) == null then Some(ErrStateInvalid) else None))) &&
        (want.None? ==> v == old(v) && err == ParseAs(kind, text, codec).err)
      ensures old(s) != null && Stored(kind, text, codec).Some? ==>
        s.stateNum == s.store.stateNum == old(s.store.stateNum) && s.store.stateUpdated &&
        s.value == old(s.value) && s.store.states == old(s.store.states)
    {
      var p := ParseAs(kind, text, codec);
      if p.err.None? {
        err := Set(p.value);
      } else {
        err := p.err;
      }
    }

    /** release: detach from the owner, so that every later Set fails. */
    method Release()
      modifies this
      ensures s == null && v == old(v)
    {
      s := null;
    }
  }

  /** After release, a set is refused and changes nothing. */
  method ReleasedSetFails(h: ValueHolder, x: Typed) returns (err: Option<Error>)
    requires KindOf(x) == h.kind
    modifies h
    ensures err == Some(ErrStateInvalid) && h.v == old(h.v) && h.s == null
  {
    h.Release();
    err := h.Set(x);
  }
}
