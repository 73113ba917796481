/**
 * The listener hub of the newer store (state/listener.go). Its diffs carry
 * the State records themselves; NewStringListener wraps a callback that
 * wants text, converting each record before the call.
 */
module StateListeners {
  import opened GoBase
  import opened TypedStore
  import opened HolderStore
  import opened ListenerCore

  /** What flush reads: the global number, and each record's stamp and the record itself. */
  function RecordView(store: StateStore): (v: View<State>)
    reads store, store.Objs()
    ensures v.stateNum == store.stateNum && v.nums.Keys == store.states.Keys && v.values == store.states
  {
    View(store.stateNum, map k | k in store.states :: store.states[k].stateNum, store.states)
  }

  /** Every listener trails the global number (listeners start at 0, the store at 1). */
  ghost predicate Trailing(hub: Hub<State>, store: StateStore)
    reads hub, hub.listeners, store
  {
    forall i :: 0 <= i < |hub.listeners| ==> hub.listeners[i].stateNum < store.stateNum
  }

  /**
   * One round of flushListeners: when something changed, every listener is
   * flushed without paths against the records as they stand, then the
   * number moves on and the flag drops; otherwise nothing happens.
   */
  method FlushListeners(store: StateStore, hub: Hub<State>)
    requires hub.Valid() && Trailing(hub, store)
    modifies store, hub.listeners
    ensures hub.Valid() && Trailing(hub, store)
    ensures store.states == old(store.states)
    ensures old(store.stateUpdated) ==>
      store.stateNum == old(store.stateNum) + 1 && !store.stateUpdated &&
      forall i :: 0 <= i < |hub.listeners| ==>
        Advanced(hub.listeners[i], old(hub.listeners[i].stateNum), old(hub.listeners[i].sent), old(RecordView(store)))
    ensures !old(store.stateUpdated) ==>
      store.stateNum == old(store.stateNum) && !store.stateUpdated &&
      forall i :: 0 <= i < |hub.listeners| ==>
        hub.listeners[i].stateNum == old(hub.listeners[i].stateNum) && hub.listeners[i].sent == old(hub.listeners[i].sent)
  {
    if store.stateUpdated {
      ghost var n := store.stateNum;
      var view := RecordView(store);
      hub.FlushAll(view);
      forall i | 0 <= i < |hub.listeners|
        ensures hub.listeners[i].stateNum <= n
      {
        assert Advanced(hub.listeners[i], old(hub.listeners[i].stateNum), old(hub.listeners[i].sent), view);
      }
      store.stateNum := store.stateNum + 1;
      store.stateUpdated := false;
    }
  }

  /**
   * NewStringListener's converter as written: the HasValue test is the
   * wrong way round, so a record with a value is sent as "" and a record
   * without one is asked for its value, which is "" too.
   */
  method StringUpdatesAsWritten(u1: map<string, State>) returns (u2: map<string, string>)
    modifies u1.Values
    ensures u2.Keys == u1.Keys
    ensures forall k :: k in u2 ==> u2[k] == ""
  {
    u2 := map[];
    var todo := u1.Keys;
    while todo != {}
      invariant todo <= u1.Keys
      invariant forall k :: k in u2 <==> k in u1 && k !in todo
      invariant forall k :: k in u2 ==> u2[k] == ""
      decreases |todo|
    {
      var k :| k in todo;
      var s := u1[k];
      if s.HasValue() {
        u2 := u2[k := ""];
      } else {
        var text := s.Value();
        u2 := u2[k := text];
      }
      todo := todo - {k};
    }
  }

  /** The converter as intended: "" for a record without a value, else the record's text. */
  method StringUpdates(u1: map<string, State>) returns (u2: map<string, string>)
    modifies u1.Values
    ensures u2.Keys == u1.Keys
    ensures forall k :: k in u1 ==> u2[k] == old(u1[k].Shown())
    ensures forall k :: k in u1 && old(!u1[k].HasValue()) ==> u2[k] == ""
  {
    u2 := map[];
    var todo := u1.Keys;
    while todo != {}
      invariant todo <= u1.Keys
      invariant forall k :: k in u2 <==> k in u1 && k !in todo
      invariant forall k :: k in u1 ==> u1[k].Shown() == old(u1[k].Shown())
      invariant forall k :: k in u2 ==> u2[k] == old(u1[k].Shown())
      decreases |todo|
    {
      var k :| k in todo;
      var s := u1[k];
      if s.HasValue() {
        var text := s.Value();
        u2 := u2[k := text];
      } else {
        u2 := u2[k := ""];
      }
      todo := todo - {k};
    }
  }

  /**
   * What the inversion loses: a record holding a string whose cache is
   * stale shows that string, which the corrected converter sends and the
   * converter as written replaces with "".
   */
  lemma ShownIsHeldText(s: State, text: string)
    requires s.value.Some? && s.value.value.v == TString(text) && s.strValSN != s.stateNum
    ensures s.Shown() == text
  {
  }
}
