/**
 * The saver of statemanager/saver.go: a listener on part of the state that
 * keeps its own copy of the matched entries and asks for that copy to be
 * written out. The JSON file, the save goroutine and its channel are not
 * modelled: a save appends the copy to `saved`, and the trigger a batch
 * raises is returned to the caller. Times are integers on one clock (the
 * zero time is 0) and durations are differences of them.
 */
module Saver {
  import opened GoBase
  import opened TypedStore
  import opened Pattern
  import opened ListenerCore
  import opened ManagerListeners
  import opened SMUpdater

  /**
   * processUpdates' merge: a nil value deletes its key, any other value is
   * stored, and keys outside the batch keep what they had.
   */
  function Merged(saved: map<string, string>, updates: map<string, Option<string>>): (r: map<string, string>)
    ensures forall k :: k in updates && updates[k].None? ==> k !in r
    ensures forall k :: k in updates && updates[k].Some? ==> k in r && r[k] == updates[k].value
    ensures forall k :: k !in updates ==> (k in r <==> k in saved) && (k in saved ==> r[k] == saved[k])
  {
    map k | k in saved.Keys + updates.Keys && !(k in updates && updates[k].None?) ::
      if k in updates then updates[k].value else saved[k]
  }

  /** The save-trigger test: no interval, or at least one interval since the last save. */
  predicate SaveDue(interval: int, lastSaved: int, now: int)
  {
    interval == 0 || now - lastSaved >= interval
  }

  /** Merging the same batch twice is merging it once. */
  lemma MergeIdempotent(saved: map<string, string>, updates: map<string, Option<string>>)
    ensures Merged(Merged(saved, updates), updates) == Merged(saved, updates)
  {
    var once := Merged(saved, updates);
    var twice := Merged(once, updates);
    assert twice.Keys == once.Keys;
  }

  /**
   * With a positive interval, saves are rate limited: right after a save at
   * `now` no batch before `now + interval` triggers another, and every batch
   * from then on does.
   */
  lemma SaveRateLimited(interval: int, now: int, later: int)
    requires interval > 0
    ensures SaveDue(interval, now, later) <==> later >= now + interval
    ensures !SaveDue(interval, now, now)
  {
  }

  class Saver {
    var state: map<string, string>
    const name: string
    const interval: int
    const version: bool
    var listener: Listener?<Option<string>>
    var lastSaved: int
    /** What saveState has written, oldest first. */
    var saved: seq<map<string, string>>

    /** The Saver record NewSaver builds: nothing copied, never saved, no listener yet. */
    constructor(name: string, interval: int, version: bool)
      ensures this.name == name && this.interval == interval && this.version == version
      ensures state == map[] && listener == null && lastSaved == 0 && saved == []
    {
      this.name := name;
      this.interval := interval;
      this.version := version;
      state := map[];
      listener := null;
      lastSaved := 0;
      saved := [];
    }

    /**
     * processUpdates: fold the batch into the copy, then raise the save
     * trigger when one is due, taking `now` as the last save time.
     */
    method ProcessUpdates(updates: map<string, Option<string>>, now: int) returns (trigger: bool)
      modifies this
      ensures state == Merged(old(state), updates)
      ensures trigger == SaveDue(interval, old(lastSaved), now)
      ensures lastSaved == (if trigger then now else old(lastSaved))
      ensures listener == old(listener) && saved == old(saved)
    {
      var todo := updates.Keys;
      while todo != {}
        invariant todo <= updates.Keys
        invariant forall k :: k in state <==> if k in updates && k !in todo then updates[k].Some? else k in old(state)
        invariant forall k :: k in state ==> state[k] == (if k in updates && k !in todo then updates[k].value else old(state)[k])
        invariant listener == old(listener) && saved == old(saved) && lastSaved == old(lastSaved)
        decreases |todo|
      {
        var key :| key in todo;
        var value := updates[key];
        if value.None? {
          state := state - {key};
        } else {
          state := state[key := value.value];
        }
        todo := todo - {key};
      }
      SameMap(state, Merged(old(state), updates));
      trigger := interval == 0 || now - lastSaved >= interval;
      if trigger {
        lastSaved := now;
      }
    }

    /** saveState: write the current copy. */
    method SaveState()
      modifies this
      ensures saved == old(saved) + [state]
      ensures state == old(state) && listener == old(listener) && lastSaved == old(lastSaved)
    {
      saved := saved + [state];
    }

    /** One wake of saveLoop: once the saver is closed it stops without saving; otherwise it saves. */
    method OnTrigger() returns (stop: bool)
      modifies this
      ensures stop == (listener == null)
      ensures saved == old(saved) + (if stop then [] else [state])
      ensures state == old(state) && listener == old(listener) && lastSaved == old(lastSaved)
    {
      if listener == null {
        return true;
      }
      SaveState();
      return false;
    }

    /**
     * Close: the listener leaves the hub, the copy is saved once, and the
     * listener is dropped, so the wake Close then raises stops the loop
     * without a second save.
     */
    method Close(hub: Hub<Option<string>>)
      requires listener != null && hub.Valid()
      modifies this, hub
      ensures hub.Valid() && old(listener) !in hub.listeners
      ensures forall x :: x in old(hub.listeners) && x != old(listener) ==> x in hub.listeners
      ensures saved == old(saved) + [state] && state == old(state)
      ensures listener == null
    {
      hub.Close(listener);
      SaveState();
      listener := null;
    }
  }

  /**
   * NewSaver's first step: when asked to, the file's contents (`loaded`,
   * None when it could not be read or parsed, which loadState turns into a
   * nil map) are applied as one grouped set.
   */
  method LoadFile(setFromFile: bool, loaded: Option<map<string, string>>, registry: Registry, store: Store)
    returns (order: seq<Updater>, outcomes: seq<Outcome>)
    requires registry.Valid()
    ensures !setFromFile ==> order == [] && outcomes == []
    ensures setFromFile ==> multiset(order) == multiset(registry.Selected(if loaded.Some? then loaded.value else map[]))
    ensures |outcomes| == |order| && forall i :: 0 <= i < |order| ==> (loaded.Some? && order[i].name in loaded.value &&
      outcomes[i] == SMUpdater.StateSet(store.states, registry.updaters, store.codec, order[i].name, loaded.value[order[i].name]))
  {
    order, outcomes := [], [];
    if setFromFile && loaded.Some? {
      order, outcomes := registry.StateSetGroup(store, loaded.value);
    } else if setFromFile {
      // a nil map makes an empty group
      assert registry.Selected(map[]) == {};
    }
  }

  /**
   * NewSaver: the file is applied first (LoadFile); then the saver is built
   * and its listener joins the hub and subscribes to `base`, which replays
   * every matching entry.
   */
  method NewSaver(name: string, base: string, interval: int, version: bool, setFromFile: bool,
                  loaded: Option<map<string, string>>, registry: Registry, store: Store, hub: Hub<Option<string>>)
    returns (s: Saver, order: seq<Updater>, outcomes: seq<Outcome>)
    requires registry.Valid() && hub.Valid()
    modifies hub
    ensures fresh(s) && s.name == name && s.interval == interval && s.version == version
    ensures s.state == map[] && s.lastSaved == 0 && s.saved == []
    ensures !setFromFile ==> order == [] && outcomes == []
    ensures setFromFile ==> multiset(order) == multiset(registry.Selected(if loaded.Some? then loaded.value else map[]))
    ensures |outcomes| == |order| && forall i :: 0 <= i < |order| ==> (loaded.Some? && order[i].name in loaded.value &&
      outcomes[i] == SMUpdater.StateSet(store.states, registry.updaters, store.codec, order[i].name, loaded.value[order[i].name]))
    ensures s.listener != null && fresh(s.listener) && hub.listeners == old(hub.listeners) + [s.listener] && hub.Valid()
    ensures s.listener.name == "Saver(" + name + ")" && s.listener.paths == [base]
    ensures var f := Flushed(0, Slots(s.listener.matchers, s.listener.paths), StoreView(store.states, store.stateNum, store.codec), Some([base]));
      s.listener.stateNum == 0 && s.listener.sent == (if f.sent.Some? then [f.sent.value] else [])
  {
    order, outcomes := LoadFile(setFromFile, loaded, registry, store);
    s := new Saver(name, interval, version);
    var l := hub.NewListener("Saver(" + name + ")");
    s.listener := l;
    l.RegisterPaths([base], StoreView(store.states, store.stateNum, store.codec));
    RegisterOne(base);
  }
}
