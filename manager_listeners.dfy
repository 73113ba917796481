/**
 * The listener hub of the older store (statemanager/listener.go): what a
 * flush reads from the package state, and the flushListeners round that
 * sends every listener the entries changed since it last caught up, then
 * advances the global state number. A listener's diff carries each entry's
 * `value`: its text, or nil when the entry is empty.
 */
module ManagerListeners {
  import opened GoBase
  import opened GoStrconv
  import opened TypedStore
  import opened ListenerCore

  /** What flush reads: the global number, and each entry's stamp and value. */
  function StoreView(states: map<string, Entry>, stateNum: nat, codec: TimeCodec): (v: View<Option<string>>)
    ensures v.stateNum == stateNum && v.nums.Keys == states.Keys && v.values.Keys == states.Keys
  {
    View(stateNum, map k | k in states :: states[k].stateNum, map k | k in states :: Current(states[k], codec))
  }

  /**
   * Every listener trails the global number. Listeners start at 0 against a
   * store that starts at 1, and a flush never moves one past the number it
   * read, which the round then increments.
   */
  ghost predicate Trailing(hub: Hub<Option<string>>, store: Store)
    reads hub, hub.listeners, store
  {
    forall i :: 0 <= i < |hub.listeners| ==> hub.listeners[i].stateNum < store.stateNum
  }

  /**
   * One round of flushListeners: when something changed, every listener is
   * flushed without paths against the store as it stands, then the number
   * moves on and the flag drops; otherwise nothing happens.
   */
  method FlushListeners(store: Store, hub: Hub<Option<string>>)
    requires hub.Valid() && Trailing(hub, store)
    modifies store, hub.listeners
    ensures hub.Valid() && Trailing(hub, store)
    ensures store.states == old(store.states)
    ensures old(store.stateUpdated) ==>
      store.stateNum == old(store.stateNum) + 1 && !store.stateUpdated &&
      forall i :: 0 <= i < |hub.listeners| ==>
        Advanced(hub.listeners[i], old(hub.listeners[i].stateNum), old(hub.listeners[i].sent),
          StoreView(old(store.states), old(store.stateNum), store.codec))
    ensures !old(store.stateUpdated) ==>
      store.stateNum == old(store.stateNum) && !store.stateUpdated &&
      forall i :: 0 <= i < |hub.listeners| ==>
        hub.listeners[i].stateNum == old(hub.listeners[i].stateNum) && hub.listeners[i].sent == old(hub.listeners[i].sent)
  {
    if store.stateUpdated {
      ghost var n := store.stateNum;
      var view := StoreView(store.states, store.stateNum, store.codec);
      hub.FlushAll(view);
      forall i | 0 <= i < |hub.listeners|
        ensures hub.listeners[i].stateNum <= n
      {
        assert Advanced(hub.listeners[i], old(hub.listeners[i].stateNum), old(hub.listeners[i].sent), view);
      }
      store.stateNum := store.stateNum + 1;
      store.stateUpdated := false;
    }
  }

  /**
   * A write since the last round reaches every trailing listener whose
   * first matching pattern accepts the key, carrying the entry's current
   * value, and the listener catches up to the round's number.
   */
  lemma WriteReachesListener(lnum: nat, s: Slots, states: map<string, Entry>, n: nat, codec: TimeCodec, k: string)
    requires lnum < n && k in states && states[k].stateNum == n
    requires FirstMatch(s.matchers, k, 0).Some?
    ensures var f := Flushed(lnum, s, StoreView(states, n, codec), None);
      f.sent.Some? && k in f.sent.value && f.sent.value[k] == Current(states[k], codec) && f.stateNum == n
  {
    var view := StoreView(states, n, codec);
    assert Include(lnum, s, None, k, view.nums[k]);
  }

  /**
   * A flush never sends an entry the listener has already seen: every key in
   * a diff without paths was stamped after the listener's number.
   */
  lemma {:induction false} OnlyNewerSent(lnum: nat, s: Slots, states: map<string, Entry>, n: nat, codec: TimeCodec)
    ensures var f := Flushed(lnum, s, StoreView(states, n, codec), None);
      f.sent.Some? ==> forall k :: k in f.sent.value ==> k in states && lnum < states[k].stateNum
  {
    var view := StoreView(states, n, codec);
    var f := Flushed(lnum, s, view, None);
    if f.sent.Some? {
      forall k | k in f.sent.value
        ensures k in states && lnum < states[k].stateNum
      {
        assert Include(lnum, s, None, k, view.nums[k]);
      }
    }
  }
}
