/**
 * The browser side of the state protocol (html/javascript/WS.js): the
 * client's own path matcher, and the dispatch of an incoming update batch
 * to the registered callbacks.
 */
module WSClient {
  import opened GoBase
  import opened Pattern

  // ------------------------------------------------------------ patternMatch

  /**
   * One pass of the client's loop. It differs from the server's pass in one
   * place: the `)` that ends an id is the first `)` anywhere in the value,
   * not the first one after the wildcard's position.
   */
  function ClientPass(pattern: string, value: string): (s: Step)
    ensures s.Continue? ==> |s.pattern| < |pattern|
  {
    var id := WildcardIndex(pattern);
    if id == -1 then Decided(TailMatch(pattern, value))
    else
      var open := id + 1;
      if |value| < open then Decided(false)
      else if value[..open] != pattern[..open] then Decided(false)
      else
        var rparen := IndexChar(value, ')');
        if rparen == -1 then Decided(false)
        else Continue(pattern[open + 2..], value[rparen + 1..])
  }

  /** The client loop's answer: passes repeated until one decides. */
  predicate ClientLoop(pattern: string, value: string)
    decreases |pattern|
  {
    match ClientPass(pattern, value)
    case Decided(b) => b
    case Continue(p, v) => ClientLoop(p, v)
  }

  /** What patternMatch(value, pattern) answers. */
  predicate ClientMatch(value: string, pattern: string)
  {
    pattern == "" || ClientLoop(pattern, value)
  }

  /** patternMatch(value, pattern) */
  method PatternMatch(value0: string, pattern0: string) returns (b: bool)
    ensures b == ClientMatch(value0, pattern0)
  {
    if pattern0 == "" {
      return true;
    }
    var value, pattern := value0, pattern0;
    while true
      invariant ClientLoop(pattern, value) == ClientLoop(pattern0, value0)
      decreases |pattern|
    {
      var id := WildcardIndex(pattern);
      if id == -1 {
        break;
      }
      id := id + 1;
      if |value| < id {
        return false;
      }
      if value[..id] != pattern[..id] {
        return false;
      }
      var rparen := IndexChar(value, ')');
      if rparen == -1 {
        return false;
      }
      assert ClientPass(pattern, value) == Continue(pattern[id + 2..], value[rparen + 1..]);
      value := value[rparen + 1..];
      pattern := pattern[id + 2..];
    }
    assert ClientPass(pattern, value) == Decided(TailMatch(pattern, value));
    if value == pattern {
      return true;
    }
    if HasPrefix(value, pattern + ".") {
      return true;
    }
    if |pattern| == 0 {
      return |value| == 0 || value[0] == '.';
    }
    if HasSuffix(pattern, "*") {
      return HasPrefix(value, pattern[..|pattern| - 1]);
    }
    return value == pattern;
  }

  /** The empty pattern matches every value. */
  lemma ClientEmptyPatternMatchesAll(value: string)
    ensures ClientMatch(value, "")
  {
  }

  /** A wildcard fails when the value is shorter than the text before it, or holds no `)` at all. */
  lemma {:induction false} ClientNeedsPrefixAndParen(pattern: string, value: string)
    requires pattern != "" && WildcardIndex(pattern) >= 0
    requires |value| <= WildcardIndex(pattern) || ')' !in value
    ensures !ClientMatch(value, pattern)
  {
    var open := WildcardIndex(pattern) + 1;
    if |value| >= open && value[..open] == pattern[..open] {
      assert IndexChar(value, ')') == -1;
    }
    assert ClientPass(pattern, value) == Decided(false);
  }

  /**
   * Without a `(*)`, the client applies the server's tail rules; where the
   * server would build a simple matcher, it agrees with it unless the
   * pattern ends in a bare `*`.
   */
  lemma {:induction false} ClientTailAgreesWithServer(pattern: string, value: string)
    requires pattern != "" && WildcardIndex(pattern) == -1
    requires !HasSuffix(pattern, "*") || HasSuffix(pattern, ".*")
    ensures ClientMatch(value, pattern) == NewPatternMatcher(pattern).Accepts(value)
  {
    assert ClientPass(pattern, value) == Decided(TailMatch(pattern, value));
    assert WildcardPass(pattern, value) == Decided(TailMatch(pattern, value));
    if HasSuffix(pattern, ".*") {
      assert pattern[|pattern| - 1..] == ".*"[1..];
    }
  }

  /** With a bare trailing `*` the client matches any value with the text before it as prefix; the server's simple matcher does not. */
  lemma ClientStarDiffers()
    ensures ClientMatch("Ab", "A*")
    ensures !NewPatternMatcher("A*").Accepts("Ab")
  {
    assert WildcardIndex("A*") == -1;
    assert ClientPass("A*", "Ab") == Decided(TailMatch("A*", "Ab"));
    assert "A*"[..1] == "A";
    assert !HasSuffix("A*", ".*");
  }

  /** Every `)` of the pattern closes a `(*)` wildcard. */
  predicate ParensOnlyInWildcards(pattern: string)
  {
    forall k :: 0 <= k < |pattern| && pattern[k] == ')' ==> 2 <= k && WildcardAt(pattern, k - 2)
  }

  /** Before the first wildcard such a pattern holds no `)`. */
  lemma PrefixHasNoParen(pattern: string, open: int)
    requires ParensOnlyInWildcards(pattern)
    requires WildcardIndex(pattern) >= 0 && open == WildcardIndex(pattern) + 1
    ensures forall k :: 0 <= k < open ==> pattern[k] != ')'
  {
    forall k | 0 <= k < open ensures pattern[k] != ')' {
      if k >= 2 {
        assert !WildcardAt(pattern, k - 2);
      }
    }
  }

  /** What follows a wildcard of such a pattern is again such a pattern. */
  lemma RestKeepsParens(pattern: string, open: int)
    requires ParensOnlyInWildcards(pattern)
    requires WildcardIndex(pattern) >= 0 && open == WildcardIndex(pattern) + 1
    ensures ParensOnlyInWildcards(pattern[open + 2..])
  {
    var rest := pattern[open + 2..];
    forall k | 0 <= k < |rest| && rest[k] == ')' ensures 2 <= k && WildcardAt(rest, k - 2) {
      assert pattern[open + 2 + k] == ')';
      assert WildcardAt(pattern, open + k);
    }
  }

  /** With no `)` in the first `open` characters, the first `)` of the value is the first after them. */
  lemma FirstParenAfter(value: string, open: int)
    requires 0 <= open <= |value| && forall k :: 0 <= k < open ==> value[k] != ')'
    ensures IndexChar(value, ')') ==
      (if IndexChar(value[open..], ')') == -1 then -1 else open + IndexChar(value[open..], ')'))
  {
    var tail := value[open..];
    var inner := IndexChar(tail, ')');
    var r := IndexChar(value, ')');
    if r != -1 {
      assert tail[r - open] == ')';
      assert inner != -1 && inner <= r - open;
    }
    if inner != -1 {
      assert value[open + inner] == tail[inner] == ')';
      assert r != -1 && r <= open + inner;
    }
  }

  /** The passes of both matchers agree on a pattern whose parens are all wildcards. */
  lemma {:induction false} PassesAgree(pattern: string, value: string)
    requires ParensOnlyInWildcards(pattern)
    ensures ClientPass(pattern, value) == WildcardPass(pattern, value)
    ensures ClientPass(pattern, value).Continue? ==> ParensOnlyInWildcards(ClientPass(pattern, value).pattern)
  {
    var id := WildcardIndex(pattern);
    if id != -1 {
      var open := id + 1;
      PrefixHasNoParen(pattern, open);
      RestKeepsParens(pattern, open);
      if |value| >= open && value[..open] == pattern[..open] {
        assert forall k :: 0 <= k < open ==> value[k] == value[..open][k] == pattern[k];
        FirstParenAfter(value, open);
        var inner := IndexChar(value[open..], ')');
        assert inner != -1 ==> value[IndexChar(value, ')') + 1..] == value[open + inner + 1..];
      }
    }
  }

  /**
   * When every `)` of the pattern belongs to a wildcard, the client and the
   * server's complex matcher give the same answer.
   */
  lemma {:induction false} ClientAgreesWithServer(pattern: string, value: string)
    requires ParensOnlyInWildcards(pattern)
    ensures ClientLoop(pattern, value) == WildcardMatch(pattern, value)
    decreases |pattern|
  {
    PassesAgree(pattern, value);
    match ClientPass(pattern, value)
    case Decided(_) =>
    case Continue(p, v) => ClientAgreesWithServer(p, v);
  }

  /** The server matcher accepts `T(1).S(2).N` for the pattern `T(1).S(*).N`. */
  lemma ServerAcceptsLiteralId(p: string, v: string)
    requires p == "T(1).S(*).N" && v == "T(1).S(2).N"
    ensures NewPatternMatcher(p).Accepts(v)
  {
    assert p == "T" + "(" + "1).S(*).N";
    assert "1).S(*).N" == "1).S" + Wildcard + ".N";
    FirstWildcardAfter("1).S", ".N");
    WildcardIndexSkipParen("T", "1).S(*).N");
    assert p == "T(1).S" + Wildcard + ".N";
    assert v == "T(1).S" + "(" + "2" + ")" + ".N";
    ConsumeWildcard("T(1).S", ".N", "2", ".N");
    assert WildcardIndex(".N") == -1;
    assert WildcardPass(".N", ".N") == Decided(true);
  }

  /**
   * The client rejects the same value: its id search stops at the `)` of
   * `T(1)`, so the rest of the value no longer lines up with the pattern.
   */
  lemma ClientRejectsLiteralId(p: string, v: string)
    requires p == "T(1).S(*).N" && v == "T(1).S(2).N"
    ensures !ClientMatch(v, p)
  {
    ClientCutsAtFirstParen(p, v);
    var rp, rv := p[9..], v[4..];
    assert |rp| == 2 && |rv| == 7 && rp[1] == 'N' && rp[1] != '*' && rv[1] == 'S';
    assert WildcardIndex(rp) == -1;
    assert (rp + ".")[1] != rv[..3][1];
    assert ClientPass(rp, rv) == Decided(false);
    assert !ClientLoop(rp, rv);
  }

  /** The client's first pass cuts the value after the `)` of `T(1)`, not after the wildcard's id. */
  lemma ClientCutsAtFirstParen(p: string, v: string)
    requires p == "T(1).S(*).N" && v == "T(1).S(2).N"
    ensures ClientPass(p, v) == Continue(p[9..], v[4..])
  {
    assert p == "T" + "(" + "1).S(*).N";
    assert "1).S(*).N" == "1).S" + Wildcard + ".N";
    FirstWildcardAfter("1).S", ".N");
    WildcardIndexSkipParen("T", "1).S(*).N");
    assert v[..7] == p[..7];
    assert v[0] != ')' && v[1] != ')' && v[2] != ')' && v[3] == ')';
    assert ')' in v[..4];
    assert IndexChar(v, ')') == 3;
  }

  // ------------------------------------------------- processUpdate dispatch

  /** A JavaScript value in WS.state; `None` stands for null. */
  type Value = Option<string>

  /** An entry of WS.callbacks: its path and, unless null, which function it calls. */
  datatype Registration = Registration(path: string, callback: Option<nat>)

  /** One invocation c.callback(k, v), with the WS.state that callback sees. */
  datatype Call = Call(callback: nat, key: string, value: Value, seen: map<string, Value>)

  /** The invocations triggerCallback(k, v) makes, in registration order. */
  function Fired(callbacks: seq<Registration>, key: string, value: Value, seen: map<string, Value>): (r: seq<Call>)
    ensures |r| <= |callbacks|
    ensures forall i :: 0 <= i < |r| ==> r[i].key == key && r[i].value == value && r[i].seen == seen
  {
    if |callbacks| == 0 then []
    else
      var front := Fired(callbacks[..|callbacks| - 1], key, value, seen);
      var c := callbacks[|callbacks| - 1];
      if c.callback.Some? && ClientMatch(key, c.path) then front + [Call(c.callback.value, key, value, seen)]
      else front
  }

  /** Fired over one more registration. */
  lemma FiredStep(callbacks: seq<Registration>, i: nat, key: string, value: Value, seen: map<string, Value>)
    requires i < |callbacks|
    ensures var c := callbacks[i];
      Fired(callbacks[..i + 1], key, value, seen) == Fired(callbacks[..i], key, value, seen) +
        (if c.callback.Some? && ClientMatch(key, c.path) then [Call(c.callback.value, key, value, seen)] else [])
  {
    assert callbacks[..i + 1][..i] == callbacks[..i];
  }

  /** A registration fires for a key exactly when it has a callback and its path matches the key. */
  lemma FiredExactly(callbacks: seq<Registration>, key: string, value: Value, seen: map<string, Value>, id: nat)
    ensures (exists j :: 0 <= j < |Fired(callbacks, key, value, seen)| && Fired(callbacks, key, value, seen)[j].callback == id) <==>
      exists i :: 0 <= i < |callbacks| && Fires(callbacks[i], key, id)
  {
    var r := Fired(callbacks, key, value, seen);
    if j :| 0 <= j < |r| && r[j].callback == id {
      var i := FiringRegistration(callbacks, key, value, seen, id, j);
    }
    if i :| 0 <= i < |callbacks| && Fires(callbacks[i], key, id) {
      var j := FiredCall(callbacks, key, value, seen, id, i);
    }
  }

  /** A registration that fires leaves a call with its callback. */
  lemma {:induction false} FiredCall(callbacks: seq<Registration>, key: string, value: Value, seen: map<string, Value>, id: nat, i: nat)
    returns (j: nat)
    requires i < |callbacks| && Fires(callbacks[i], key, id)
    ensures j < |Fired(callbacks, key, value, seen)| && Fired(callbacks, key, value, seen)[j].callback == id
  {
    var init := callbacks[..|callbacks| - 1];
    var front := Fired(init, key, value, seen);
    if i < |init| {
      assert init[i] == callbacks[i];
      j := FiredCall(init, key, value, seen, id, i);
      assert Fired(callbacks, key, value, seen)[j] == front[j];
    } else {
      j := |front|;
    }
  }

  /** A call with a callback comes from a registration carrying it whose path matches the key. */
  lemma {:induction false} FiringRegistration(callbacks: seq<Registration>, key: string, value: Value, seen: map<string, Value>, id: nat, j: nat)
    returns (i: nat)
    requires j < |Fired(callbacks, key, value, seen)| && Fired(callbacks, key, value, seen)[j].callback == id
    ensures i < |callbacks| && Fires(callbacks[i], key, id)
  {
    var init := callbacks[..|callbacks| - 1];
    var front := Fired(init, key, value, seen);
    if j < |front| {
      assert Fired(callbacks, key, value, seen)[j] == front[j];
      i := FiringRegistration(init, key, value, seen, id, j);
      assert init[i] == callbacks[i];
    } else {
      i := |callbacks| - 1;
    }
  }

  /** The registration carries callback `id` and its path matches the key. */
  predicate Fires(c: Registration, key: string, id: nat)
  {
    c.callback == Some(id) && ClientMatch(key, c.path)
  }

  /** The invocations for a batch, taking the keys in `keys` order and only those whose nullness is `nulls`. */
  function FiredBatch(callbacks: seq<Registration>, keys: seq<string>, update: map<string, Value>,
                      nulls: bool, seen: map<string, Value>): (r: seq<Call>)
    requires forall k :: k in keys ==> k in update
    ensures forall c :: c in r ==> c.key in update && c.value == update[c.key] && (c.value.None? <==> nulls) && c.seen == seen
  {
    if |keys| == 0 then []
    else
      var front := FiredBatch(callbacks, keys[..|keys| - 1], update, nulls, seen);
      var k := keys[|keys| - 1];
      if update[k].None? == nulls then front + Fired(callbacks, k, update[k], seen) else front
  }

  /** The client's state: the path/value mirror, the registrations, and the calls made so far. */
  class WS {
    var state: map<string, Value>
    var callbacks: seq<Registration>
    /** Every callback invocation so far, oldest first. */
    var calls: seq<Call>

    constructor(callbacks: seq<Registration>)
      ensures state == map[] && this.callbacks == callbacks && calls == []
    {
      state := map[];
      this.callbacks := callbacks;
      calls := [];
    }

    /**
     * triggerCallback(k, v): calls every registration with a callback whose
     * path matches k, in order; the result says whether any was called.
     */
    method TriggerCallback(k: string, v: Value) returns (callbackCalled: bool)
      modifies this
      ensures state == old(state) && callbacks == old(callbacks)
      ensures calls == old(calls) + Fired(callbacks, k, v, state)
      ensures callbackCalled <==> Fired(callbacks, k, v, state) != []
    {
      callbackCalled := false;
      var idx := 0;
      while idx < |callbacks|
        invariant 0 <= idx <= |callbacks|
        invariant state == old(state) && callbacks == old(callbacks)
        invariant calls == old(calls) + Fired(callbacks[..idx], k, v, state)
        invariant callbackCalled <==> Fired(callbacks[..idx], k, v, state) != []
      {
        var c := callbacks[idx];
        FiredStep(callbacks, idx, k, v, state);
        if c.callback.None? {
          idx := idx + 1;
          continue;
        }
        var matched := PatternMatch(k, c.path);
        if matched {
          calls := calls + [Call(c.callback.value, k, v, state)];
          callbackCalled := true;
        }
        idx := idx + 1;
      }
      assert callbacks[..idx] == callbacks;
    }

    /**
     * processUpdate(update): every incoming key is written into the state
     * first; then callbacks fire for the null keys, then for the others,
     * each group in `keys` order (the object's enumeration order).
     */
    method ProcessUpdate(update: map<string, Value>, keys: seq<string>)
      requires forall k :: k in keys <==> k in update
      modifies this
      ensures state == old(state) + update && callbacks == old(callbacks)
      ensures calls == old(calls) + FiredBatch(callbacks, keys, update, true, state)
                                  + FiredBatch(callbacks, keys, update, false, state)
    {
      var i := 0;
      while i < |keys|
        invariant 0 <= i <= |keys|
        invariant forall k :: k in state <==> k in old(state) || k in keys[..i]
        invariant forall k :: k in state ==> state[k] == if k in keys[..i] then update[k] else old(state)[k]
        invariant callbacks == old(callbacks) && calls == old(calls)
      {
        state := state[keys[i] := update[keys[i]]];
        i := i + 1;
        assert keys[..i] == keys[..i - 1] + [keys[i - 1]];
      }
      assert keys[..i] == keys;
      assert state == old(state) + update;
      TriggerAll(update, keys, true);
      TriggerAll(update, keys, false);
    }

    /** One of processUpdate's trigger loops: the keys whose nullness is `nulls`, in `keys` order. */
    method TriggerAll(update: map<string, Value>, keys: seq<string>, nulls: bool)
      requires forall k :: k in keys ==> k in update
      modifies this
      ensures state == old(state) && callbacks == old(callbacks)
      ensures calls == old(calls) + FiredBatch(callbacks, keys, update, nulls, state)
    {
      var i := 0;
      while i < |keys|
        invariant 0 <= i <= |keys|
        invariant state == old(state) && callbacks == old(callbacks)
        invariant calls == old(calls) + FiredBatch(callbacks, keys[..i], update, nulls, state)
      {
        assert keys[..i + 1][..i] == keys[..i];
        if update[keys[i]].None? == nulls {
          var _ := TriggerCallback(keys[i], update[keys[i]]);
        }
        i := i + 1;
      }
      assert keys[..i] == keys;
    }
  }

  /**
   * In a batch's calls, every callback sees the whole batch already written,
   * and the null (deleted) keys are exactly the calls made first.
   */
  lemma {:induction false} BatchOrder(callbacks: seq<Registration>, keys: seq<string>,
                                      update: map<string, Value>, seen: map<string, Value>)
    requires forall k :: k in keys ==> k in update
    requires forall k :: k in update ==> k in seen && seen[k] == update[k]
    ensures var a := FiredBatch(callbacks, keys, update, true, seen);
      var r := a + FiredBatch(callbacks, keys, update, false, seen);
      forall i :: 0 <= i < |r| ==> (r[i].value.None? <==> i < |a|)
    ensures var r := FiredBatch(callbacks, keys, update, true, seen) + FiredBatch(callbacks, keys, update, false, seen);
      forall c :: c in r ==> c.key in c.seen && c.seen[c.key] == c.value
  {
    var a := FiredBatch(callbacks, keys, update, true, seen);
    var b := FiredBatch(callbacks, keys, update, false, seen);
    var r := a + b;
    forall i | 0 <= i < |r| ensures r[i].value.None? <==> i < |a| {
      if i < |a| {
        assert r[i] == a[i] && a[i] in a;
      } else {
        assert r[i] == b[i - |a|] && b[i - |a|] in b;
      }
    }
  }
}
