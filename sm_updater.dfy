/**
 * The updater and command registries of statemanager/updater.go and
 * statemanager/command.go. An updater is found by exact key only; the text
 * sent for a key is parsed according to the type of the stored entry and
 * handed to the callback registered for that type. Callbacks are code the
 * model cannot see: a dispatch that reaches one returns the invocation (which
 * callback, with which argument), and the callback's own result is what the
 * caller would get back.
 */
module SMUpdater {
  import opened GoBase
  import opened GoStrconv
  import opened TypedStore
  import opened Ordering

  /** Which of the four callback fields RegisterUpdater* filled in. */
  datatype Kind = KString | KInt64 | KBool | KTime

  /** stateUpdater: one callback (identified by a number), its name and group priority. */
  datatype Updater = Updater(name: string, groupPriority: nat, kind: Kind, callback: nat)

  function UpdaterRank(u: Updater): Rank
  {
    Rank(u.groupPriority, u.name)
  }

  /**
   * What StateSet leads to: an error or nil without any call, a call of the
   * updater's callback with the parsed value, or a call through a nil callback
   * field (the updater was registered for another type), which panics.
   */
  datatype Outcome = Done(err: Option<Error>) | Invoked(callback: nat, arg: Typed) | Panics

  /** The callback call for a parsed argument, if the updater has that kind of callback. */
  function Call(u: Updater, want: Kind, arg: Typed): Outcome
  {
    if u.kind == want then Invoked(u.callback, arg) else Panics
  }

  /** StateSet(keyName, value) against entries `states` and registry `updaters`. */
  function StateSet(states: map<string, Entry>, updaters: map<string, Updater>, codec: TimeCodec,
                    key: string, value: string): (o: Outcome)
    ensures key !in states ==> o == Done(Some(ErrNotFound))
    ensures key in states && Current(states[key], codec) == Some(value) ==> o == Done(None)
    ensures key in states && Current(states[key], codec) != Some(value) && key !in updaters ==>
      o == Done(Some(ErrUpdaterNotFound))
    ensures o.Invoked? ==> (key in updaters && o.callback == updaters[key].callback &&
      Current(states[key], codec) != Some(value) && TypeName(o.arg) == states[key].t)
    ensures o.Invoked? && o.arg.TString? ==> o.arg.s == value
    ensures o.Invoked? && o.arg.TInt64? ==> ParseInt(value) == Parsed(o.arg.i, None)
    ensures o.Invoked? && o.arg.TBool? ==> ParseBool(value) == Parsed(o.arg.b, None)
    ensures o.Invoked? && o.arg.TTime? ==> codec.parse(value) == Parsed(o.arg.t, None)
  {
    if key !in states then Done(Some(ErrNotFound))
    else
      var s := states[key];
      if Current(s, codec) == Some(value) then Done(None)
      else if key !in updaters then Done(Some(ErrUpdaterNotFound))
      else
        var u := updaters[key];
        if s.t == "string" then Call(u, KString, TString(value))
        else if s.t == "int64" then
          var p := ParseInt(value);
          if p.err.Some? then Done(p.err) else Call(u, KInt64, TInt64(p.value))
        else if s.t == "bool" then
          var p := ParseBool(value);
          if p.err.Some? then Done(p.err) else Call(u, KBool, TBool(p.value))
        else if s.t == "time" then
          var p := codec.parse(value);
          if p.err.Some? then Done(p.err) else Call(u, KTime, TTime(p.value))
        else Done(Some(ErrUnknownType))
  }

  /** Setting a key to the text it already shows calls nothing, right after any write. */
  lemma {:induction false} SetToCurrentIsNoOp(states: map<string, Entry>, updaters: map<string, Updater>,
                                              codec: TimeCodec, k: string, v: Typed, num: nat)
    ensures StateSet(Put(states, k, v, num), updaters, codec, k, Render(v, codec)) == Done(None)
  {
    PutReadsBack(states, k, v, num, codec);
  }

  /**
   * An int64 entry with an int64 updater: new decimal text reaches the callback
   * as exactly the number it spells.
   */
  lemma {:induction false} SetInt64RoundTrip(states: map<string, Entry>, updaters: map<string, Updater>,
                                             codec: TimeCodec, k: string, i: int)
    requires IsInt64(i)
    requires k in states && states[k].t == "int64" && Current(states[k], codec) != Some(FormatInt(i))
    requires k in updaters && updaters[k].kind == KInt64
    ensures StateSet(states, updaters, codec, k, FormatInt(i)) == Invoked(updaters[k].callback, TInt64(i))
  {
    FormatIntRoundTrip(i);
  }

  /** Text that does not parse as the entry's type is refused with the parse error; nothing is called. */
  lemma {:induction false} SetParseFailure(states: map<string, Entry>, updaters: map<string, Updater>,
                                           codec: TimeCodec, k: string, value: string)
    requires k in states && Current(states[k], codec) != Some(value) && k in updaters
    requires states[k].t == "int64" && ParseInt(value).err.Some?
    ensures StateSet(states, updaters, codec, k, value) == Done(ParseInt(value).err)
  {
  }

  /** An updater registered for another type than the entry's is called through a nil field. */
  lemma {:induction false} SetWrongKindPanics(states: map<string, Entry>, updaters: map<string, Updater>,
                                              codec: TimeCodec, k: string, value: string)
    requires k in states && Current(states[k], codec) != Some(value) && k in updaters
    requires states[k].t == "string" && updaters[k].kind != KString
    ensures StateSet(states, updaters, codec, k, value) == Panics
  {
  }

  /** What Command leads to. */
  datatype CommandResult =
    | SetResult(outcome: Outcome)                 // the "Set" command, handled by StateSet
    | CommandFailed(err: Error)
    | CommandCalled(command: nat, data: seq<string>)

  /** The registries: updaters by name and commands by name (commands are numbered callbacks). */
  class Registry {
    var updaters: map<string, Updater>
    var commands: map<string, nat>

    /** Each updater is filed under its own name. */
    ghost predicate Valid()
      reads this
    {
      forall n :: n in updaters ==> updaters[n].name == n
    }

    constructor()
      ensures updaters == map[] && commands == map[] && Valid()
    {
      updaters := map[];
      commands := map[];
    }

    /** RegisterUpdater, RegisterUpdaterInt64, RegisterUpdaterBool, RegisterUpdaterTime: replace any earlier one. */
    method RegisterUpdater(name: string, groupPriority: nat, kind: Kind, callback: nat)
      requires Valid()
      modifies this
      ensures Valid() && commands == old(commands)
      ensures updaters == old(updaters)[name := Updater(name, groupPriority, kind, callback)]
    {
      updaters := updaters[name := Updater(name, groupPriority, kind, callback)];
    }

    /** UnregisterUpdater */
    method UnregisterUpdater(name: string)
      requires Valid()
      modifies this
      ensures Valid() && commands == old(commands)
      ensures updaters == old(updaters) - {name}
    {
      updaters := updaters - {name};
    }

    /** The updaters StateSetGroup picks for a batch: those registered under one of its keys. */
    ghost function Selected(values: map<string, string>): set<Updater>
      reads this
    {
      Picked(values.Keys)
    }

    /** The updaters registered under some key of `keys`. */
    ghost function Picked(keys: set<string>): set<Updater>
      reads this
    {
      set k | k in keys && k in updaters :: updaters[k]
    }

    /** One more key adds its updater, which is new when the registry is Valid. */
    lemma PickedStep(keys: set<string>, k: string)
      requires Valid() && k !in keys
      ensures k in updaters ==> (updaters[k] !in Picked(keys) &&
        multiset(Picked(keys + {k})) == multiset(Picked(keys)) + multiset{updaters[k]})
      ensures k !in updaters ==> Picked(keys + {k}) == Picked(keys)
    {
      if k in updaters {
        assert Picked(keys + {k}) == Picked(keys) + {updaters[k]};
      } else {
        assert Picked(keys + {k}) == Picked(keys);
      }
    }

    /**
     * StateSetGroup: the updaters registered under the batch's keys, in
     * ascending (priority, name) order, each given its key's text through
     * StateSet; errors are only logged, so every outcome is returned.
     */
    method StateSetGroup(store: Store, values: map<string, string>) returns (order: seq<Updater>, outcomes: seq<Outcome>)
      requires Valid()
      ensures multiset(order) == multiset(Selected(values))
      ensures SortedBy(order, UpdaterRank)
      ensures |outcomes| == |order|
      ensures forall i :: 0 <= i < |order| ==> (order[i].name in values &&
        outcomes[i] == StateSet(store.states, updaters, store.codec, order[i].name, values[order[i].name]))
    {
      var u := CollectSelected(values);
      order := SortBy(u, UpdaterRank);
      outcomes := [];
      var i := 0;
      while i < |order|
        invariant 0 <= i <= |order| && |outcomes| == i
        invariant forall j :: 0 <= j < i ==> (order[j].name in values &&
          outcomes[j] == StateSet(store.states, updaters, store.codec, order[j].name, values[order[j].name]))
      {
        var su := order[i];
        assert su in multiset(order);
        assert su in Picked(values.Keys);
        var err := StateSet(store.states, updaters, store.codec, su.name, values[su.name]);
        outcomes := outcomes + [err];
        i := i + 1;
      }
    }

    /** StateSetGroup's first loop: the updater of every key of the batch that has one, once each. */
    method CollectSelected(values: map<string, string>) returns (u: seq<Updater>)
      requires Valid()
      ensures multiset(u) == multiset(Selected(values))
    {
      u := [];
      var todo := values.Keys;
      ghost var done: set<string> := {};
      while todo != {}
        invariant todo <= values.Keys && done == values.Keys - todo
        invariant multiset(u) == multiset(Picked(done))
        decreases |todo|
      {
        var keyName :| keyName in todo;
        PickedStep(done, keyName);
        if keyName in updaters {
          u := u + [updaters[keyName]];
        }
        todo := todo - {keyName};
        done := done + {keyName};
      }
    }

    /** RegisterCommand: replaces any command of that name. */
    method RegisterCommand(name: string, command: nat)
      modifies this
      ensures updaters == old(updaters) && commands == old(commands)[name := command]
    {
      commands := commands[name := command];
    }

    /** UnregisterCommand */
    method UnregisterCommand(name: string)
      modifies this
      ensures updaters == old(updaters) && commands == old(commands) - {name}
    {
      commands := commands - {name};
    }

    /** Command(name, data) */
    function Command(store: Store, name: string, data: seq<string>): (r: CommandResult)
      reads this, store
      ensures name == "Set" && |data| != 2 ==> r == CommandFailed(ErrCommandArguments)
      ensures name == "Set" && |data| == 2 ==>
        r == SetResult(StateSet(store.states, updaters, store.codec, data[0], data[1]))
      ensures name != "Set" && name !in commands ==> r == CommandFailed(ErrCommandNotFound)
      ensures r.CommandCalled? <==> name != "Set" && name in commands
      ensures r.CommandCalled? ==> r.command == commands[name] && r.data == data
    {
      if name == "Set" then
        if |data| != 2 then CommandFailed(ErrCommandArguments)
        else SetResult(StateSet(store.states, updaters, store.codec, data[0], data[1]))
      else if name !in commands then CommandFailed(ErrCommandNotFound)
      else CommandCalled(commands[name], data)
    }
  }

  /** A command registered under "Set" is never called: Set is handled before the registry. */
  lemma SetCommandShadowed(r: Registry, store: Store, data: seq<string>)
    requires "Set" in r.commands
    ensures !r.Command(store, "Set", data).CommandCalled?
  {
  }

  /** The batch order is fully determined: distinct updaters of a Valid registry never share a rank. */
  lemma {:induction false} GroupOrderDetermined(r: Registry, values: map<string, string>, a: seq<Updater>, b: seq<Updater>)
    requires r.Valid()
    requires multiset(a) == multiset(r.Selected(values)) && multiset(b) == multiset(r.Selected(values))
    requires SortedBy(a, UpdaterRank) && SortedBy(b, UpdaterRank)
    ensures a == b
  {
    forall i, j | 0 <= i < |a| && 0 <= j < |a| && UpdaterRank(a[i]) == UpdaterRank(a[j])
      ensures a[i] == a[j]
    {
      assert a[i] in multiset(a) && a[j] in multiset(a);
      assert a[i] in r.Selected(values) && a[j] in r.Selected(values);
    }
    SortedPermutationUnique(a, b, UpdaterRank);
  }
}
