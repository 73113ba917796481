/**
 * Path patterns of the state server (statemanager/pattern.go).
 *
 * A path is a dotted name with parenthesised ids, `Scoreboard.Team(1).Name`.
 * A pattern is such a path in which ids may be the wildcard `(*)`, and which
 * may end in `.*`; the empty pattern matches everything.
 */
module Pattern {
  import opened GoBase

  const Wildcard := "(*)"

  predicate WildcardAt(s: string, k: int)
  {
    0 <= k && k + 3 <= |s| && s[k] == '(' && s[k + 1] == '*' && s[k + 2] == ')'
  }

  /** strings.Index(s, "(*)"): the position of the first wildcard in `s`, or -1. */
  function WildcardIndex(s: string): (r: int)
    ensures r == -1 || WildcardAt(s, r)
    ensures forall k :: 0 <= k < (if r == -1 then |s| else r) ==> !WildcardAt(s, k)
  {
    WildcardIndexFrom(s, 0)
  }

  function WildcardIndexFrom(s: string, i: nat): (r: int)
    ensures r == -1 || (i <= r && WildcardAt(s, r))
    ensures forall k :: i <= k < (if r == -1 then |s| else r) ==> !WildcardAt(s, k)
    decreases |s| - i
  {
    if i + 3 > |s| then -1
    else if s[i] == '(' && s[i + 1] == '*' && s[i + 2] == ')' then i
    else WildcardIndexFrom(s, i + 1)
  }

  /** A text with no wildcard anywhere has none first. */
  lemma WildcardIndexNone(s: string)
    requires forall k :: 0 <= k < |s| ==> !WildcardAt(s, k)
    ensures WildcardIndex(s) == -1
  {
  }

  /** A text without `(` has no wildcard. */
  lemma NoWildcard(s: string)
    requires '(' !in s
    ensures WildcardIndex(s) == -1
  {
    forall k | 0 <= k < |s| ensures !WildcardAt(s, k) {
      assert s[k] in s;
    }
    WildcardIndexNone(s);
  }

  /** The three matcher kinds newPatternMatcher builds. */
  datatype Matcher =
    | Blank(pattern: string)
    | Simple(pattern: string, patternDot: string)
    | Complex(pattern: string)
  {
    /** Pattern(): the text the matcher was built from. */
    function Pattern(): string
    {
      pattern
    }

    /** What Matches answers, as a function of the value. */
    predicate Accepts(value: string)
    {
      match this
      case Blank(_) => true
      case Simple(p, pDot) => value == p || HasPrefix(value, pDot)
      case Complex(p) => WildcardMatch(p, value)
    }

    /** Matches: the blank and simple matchers are one expression; the complex one loops. */
    method Matches(value: string) returns (b: bool)
      ensures b == Accepts(value)
    {
      match this
      case Blank(_) => b := true;
      case Simple(p, pDot) => b := value == p || HasPrefix(value, pDot);
      case Complex(p) => b := ComplexMatches(p, value);
    }
  }

  /** newPatternMatcher */
  function NewPatternMatcher(pattern: string): (m: Matcher)
    ensures m.Pattern() == pattern
    ensures m.Blank? <==> pattern == ""
    ensures m.Simple? <==> pattern != "" && WildcardIndex(pattern) == -1 && !HasSuffix(pattern, ".*")
  {
    if pattern == "" then Blank(pattern)
    else if WildcardIndex(pattern) == -1 && !HasSuffix(pattern, ".*") then Simple(pattern, pattern + ".")
    else Complex(pattern)
  }

  /**
   * What the complex matcher decides once no `(*)` is left in the pattern:
   * equal, a child of the pattern, an empty pattern against an empty or
   * dotted remainder, or a prefix test for a trailing `*`.
   */
  predicate TailMatch(pattern: string, value: string)
  {
    if value == pattern then true
    else if HasPrefix(value, pattern + ".") then true
    else if |pattern| == 0 then |value| == 0 || value[0] == '.'
    else if HasSuffix(pattern, "*") then HasPrefix(value, pattern[..|pattern| - 1])
    else value == pattern
  }

  /** The outcome of one pass of the complex matcher's loop. */
  datatype Step = Decided(result: bool) | Continue(pattern: string, value: string)

  /**
   * One pass of the loop: with no `(*)` left, the tail rules decide. Otherwise
   * the value must agree with the pattern up to and including the `(` and
   * hold a `)` after that point; both are then cut past the wildcard and the
   * first such `)` respectively.
   */
  function WildcardPass(pattern: string, value: string): (s: Step)
    ensures s.Continue? ==> |s.pattern| < |pattern|
  {
    var id := WildcardIndex(pattern);
    if id == -1 then Decided(TailMatch(pattern, value))
    else
      var open := id + 1;
      if |value| < open then Decided(false)
      else if value[..open] != pattern[..open] then Decided(false)
      else
        var rparen := IndexChar(value[open..], ')');
        if rparen == -1 then Decided(false)
        else Continue(pattern[open + 2..], value[open + rparen + 1..])
  }

  /** The complex matcher's answer: passes repeated until one decides. */
  predicate WildcardMatch(pattern: string, value: string)
    decreases |pattern|
  {
    match WildcardPass(pattern, value)
    case Decided(b) => b
    case Continue(p, v) => WildcardMatch(p, v)
  }

  /** complexMatcher.Matches: rewrites its local pattern and value once per wildcard. */
  method ComplexMatches(pattern0: string, value0: string) returns (b: bool)
    ensures b == WildcardMatch(pattern0, value0)
  {
    var pattern, value := pattern0, value0;
    while true
      invariant WildcardMatch(pattern, value) == WildcardMatch(pattern0, value0)
      decreases |pattern|
    {
      var id := WildcardIndex(pattern);
      if id == -1 {
        break;
      }
      id := id + 1;
      if |value| < id {
        return false;
      }
      if value[..id] != pattern[..id] {
        return false;
      }
      var rparen := IndexChar(value[id..], ')');
      if rparen == -1 {
        return false;
      }
      assert WildcardPass(pattern, value) == Continue(pattern[id + 2..], value[id + rparen + 1..]);
      value := value[id + rparen + 1..];
      pattern := pattern[id + 2..];
    }
    assert WildcardPass(pattern, value) == Decided(TailMatch(pattern, value));
    if value == pattern {
      return true;
    }
    if HasPrefix(value, pattern + ".") {
      return true;
    }
    if |pattern| == 0 {
      return |value| == 0 || value[0] == '.';
    }
    if HasSuffix(pattern, "*") {
      return HasPrefix(value, pattern[..|pattern| - 1]);
    }
    return value == pattern;
  }

  // ------------------------------------------------------------ properties

  /** The empty pattern matches every value. */
  lemma {:induction false} EmptyPatternMatchesAll(value: string)
    ensures NewPatternMatcher("").Accepts(value)
  {
  }

  /**
   * A non-empty pattern with neither `(*)` nor a `.*` suffix matches the
   * pattern itself and exactly the paths below it.
   */
  lemma {:induction false} SimplePatternIsSubtree(pattern: string, value: string)
    requires pattern != "" && WildcardIndex(pattern) == -1 && !HasSuffix(pattern, ".*")
    ensures NewPatternMatcher(pattern).Accepts(value) <==> value == pattern || HasPrefix(value, pattern + ".")
  {
  }

  /** A wildcard-free pattern `q.*` matches exactly the paths strictly below q. */
  lemma {:induction false} DotStarIsChildren(q: string, value: string)
    requires WildcardIndex(q + ".*") == -1
    ensures NewPatternMatcher(q + ".*").Accepts(value) <==> HasPrefix(value, q + ".")
  {
    var p := q + ".*";
    assert HasSuffix(p, ".*");
    assert p[..|p| - 1] == q + ".";
    if HasPrefix(value, p + ".") || value == p {
      assert value[..|q| + 1] == (p + ".")[..|q| + 1] || value[..|q| + 1] == p[..|q| + 1];
    }
  }

  /**
   * Consuming one wildcard: a match needs the value to agree with the
   * pattern up to and including the `(` and to hold a `)` after that point;
   * the rest of the value, past that first `)`, must match the rest of the
   * pattern, past `(*)`.
   */
  lemma {:induction false} WildcardStep(pattern: string, value: string)
    requires WildcardIndex(pattern) >= 0
    ensures
      var open := WildcardIndex(pattern) + 1;
      WildcardMatch(pattern, value) <==>
        open <= |value| && value[..open] == pattern[..open] && ')' in value[open..] &&
        WildcardMatch(pattern[open + 2..], value[open + IndexChar(value[open..], ')') + 1..])
  {
    var open := WildcardIndex(pattern) + 1;
    if open <= |value| {
      var rest := value[open..];
      var r := IndexChar(rest, ')');
      if r != -1 {
        assert rest[r] == ')';
      }
    }
  }

  /** A value shorter than the text before the wildcard, or with no `)` after it, never matches. */
  lemma {:induction false} WildcardNeedsPrefixAndParen(pattern: string, value: string)
    requires WildcardIndex(pattern) >= 0
    requires |value| <= WildcardIndex(pattern) || ')' !in value[WildcardIndex(pattern) + 1..]
    ensures !NewPatternMatcher(pattern).Accepts(value)
  {
  }

  /** Pattern() gives back the text every matcher was built from. */
  lemma {:induction false} PatternRoundTrip(pattern: string)
    ensures NewPatternMatcher(pattern).Pattern() == pattern
  {
  }

  /** Searching past a stretch free of `(`: the wildcard's position shifts by its length. */
  lemma WildcardIndexSkip(a: string, b: string)
    requires '(' !in a
    ensures WildcardIndex(a + b) == if WildcardIndex(b) == -1 then -1 else |a| + WildcardIndex(b)
  {
    var s := a + b;
    forall k | 0 <= k < |s| ensures WildcardAt(s, k) <==> k >= |a| && WildcardAt(b, k - |a|) {
      if k < |a| { assert s[k] == a[k]; }
    }
    var r, rb := WildcardIndex(s), WildcardIndex(b);
    assert rb != -1 ==> WildcardAt(s, |a| + rb);
    assert r != -1 ==> r >= |a| && WildcardAt(b, r - |a|);
  }

  /** Searching past a `(` that does not open a wildcard. */
  lemma WildcardIndexSkipParen(a: string, b: string)
    requires '(' !in a && |b| > 0 && b[0] != '*'
    ensures WildcardIndex(a + "(" + b) == if WildcardIndex(b) == -1 then -1 else |a| + 1 + WildcardIndex(b)
  {
    var s := a + "(" + b;
    forall k | 0 <= k < |s| ensures WildcardAt(s, k) <==> k > |a| && WildcardAt(b, k - |a| - 1) {
      if k < |a| { assert s[k] == a[k]; }
      if k == |a| { assert s[k + 1] == b[0]; }
    }
    var r, rb := WildcardIndex(s), WildcardIndex(b);
    assert rb != -1 ==> WildcardAt(s, |a| + 1 + rb);
    assert r != -1 ==> r > |a| && WildcardAt(b, r - |a| - 1);
  }

  /**
   * A wildcard found right after the literal prefix `a` consumes exactly one
   * parenthesised id of the value: `a(id)r` against `a(*)b` comes down to
   * `r` against `b`.
   */
  lemma {:induction false} ConsumeWildcard(a: string, b: string, id: string, r: string)
    requires WildcardIndex(a + Wildcard + b) == |a|
    requires ')' !in id
    ensures WildcardMatch(a + Wildcard + b, a + "(" + id + ")" + r) == WildcardMatch(b, r)
  {
    var p := a + Wildcard + b;
    var v := a + "(" + id + ")" + r;
    var open := |a| + 1;
    assert v[..open] == a + "(" == p[..open];
    assert v[open..] == id + ")" + r;
    assert (id + ")" + r)[|id|] == ')';
    assert (id + ")" + r)[..|id|] == id;
    assert IndexChar(v[open..], ')') == |id|;
    assert p[open + 2..] == b;
    assert v[open + |id| + 1..] == r;
    assert WildcardPass(p, v) == Continue(b, r);
  }

  lemma {:induction false} FirstWildcardAfter(a: string, b: string)
    requires '(' !in a
    ensures WildcardIndex(a + Wildcard + b) == |a|
  {
    assert a + Wildcard + b == a + (Wildcard + b);
    WildcardIndexSkip(a, Wildcard + b);
  }

  /** `Scoreboard.Team(*)` matches any one team id, on its own or followed by a dotted child. */
  lemma {:induction false} TeamWildcardMatches(id: string, tail: string)
    requires ')' !in id
    ensures NewPatternMatcher("Scoreboard.Team(*)").Accepts("Scoreboard.Team(" + id + ")" + tail)
      <==> tail == "" || tail[0] == '.'
  {
    var team := "Scoreboard.Team";
    assert "Scoreboard.Team(*)" == team + Wildcard + "";
    assert "Scoreboard.Team(" + id + ")" + tail == team + "(" + id + ")" + tail;
    FirstWildcardAfter(team, "");
    ConsumeWildcard(team, "", id, tail);
    assert WildcardPass("", tail) == Decided(tail == "" || tail[0] == '.');
  }

  /** `Scoreboard.Team(*).*` matches only the children of a team, never a team itself. */
  lemma {:induction false} TeamWildcardChildren(id: string, tail: string)
    requires ')' !in id
    ensures NewPatternMatcher("Scoreboard.Team(*).*").Accepts("Scoreboard.Team(" + id + ")" + tail)
      <==> HasPrefix(tail, ".")
  {
    var team := "Scoreboard.Team";
    assert "Scoreboard.Team(*).*" == team + Wildcard + ".*";
    assert "Scoreboard.Team(" + id + ")" + tail == team + "(" + id + ")" + tail;
    FirstWildcardAfter(team, ".*");
    ConsumeWildcard(team, ".*", id, tail);
    DotStarTail(tail);
  }

  lemma DotStarTail(tail: string)
    ensures WildcardMatch(".*", tail) <==> HasPrefix(tail, ".")
  {
    assert WildcardIndex(".*") == -1;
    assert ".*"[..1] == ".";
    assert HasSuffix(".*", "*");
    if HasPrefix(tail, ".*" + ".") || tail == ".*" {
      assert tail[0] == '.';
    }
  }

  /** Table row: `Scoreboard.Team(*)` matches `Scoreboard.Team(1)`. */
  lemma {:induction false} TeamWildcardRowTeam()
    ensures NewPatternMatcher("Scoreboard.Team(*)").Accepts("Scoreboard.Team(1)")
  {
    assert "Scoreboard.Team(1)" == "Scoreboard.Team(" + "1" + ")" + "";
    TeamWildcardMatches("1", "");
  }

  /** Table row: `Scoreboard.Team(*)` matches `Scoreboard.Team(2).Name`. */
  lemma {:induction false} TeamWildcardRowChild()
    ensures NewPatternMatcher("Scoreboard.Team(*)").Accepts("Scoreboard.Team(2).Name")
  {
    assert "Scoreboard.Team(2).Name" == "Scoreboard.Team(" + "2" + ")" + ".Name";
    TeamWildcardMatches("2", ".Name");
  }

  /** Table row: `Scoreboard.Team(*).*` does not match `Scoreboard.Team(1)`. */
  lemma {:induction false} TeamChildrenRowTeam()
    ensures !NewPatternMatcher("Scoreboard.Team(*).*").Accepts("Scoreboard.Team(1)")
  {
    assert "Scoreboard.Team(1)" == "Scoreboard.Team(" + "1" + ")" + "";
    TeamWildcardChildren("1", "");
  }

  /** Table row: `Scoreboard.Team(*).*` matches `Scoreboard.Team(2).Name`. */
  lemma {:induction false} TeamChildrenRowChild()
    ensures NewPatternMatcher("Scoreboard.Team(*).*").Accepts("Scoreboard.Team(2).Name")
  {
    assert "Scoreboard.Team(2).Name" == "Scoreboard.Team(" + "2" + ")" + ".Name";
    TeamWildcardChildren("2", ".Name");
  }

  /** Table row: `Scoreboard.Team(1).*` matches `Scoreboard.Team(1).Name`. */
  lemma {:induction false} TeamChildrenTable()
    ensures NewPatternMatcher("Scoreboard.Team(1).*").Accepts("Scoreboard.Team(1).Name")
  {
    var team1 := "Scoreboard.Team(1)";
    TeamOneChildren();
    DotStarIsChildren(team1, "Scoreboard.Team(1).Name");
    assert "Scoreboard.Team(1).Name"[..19] == team1 + ".";
  }

  /** Table row: `Scoreboard.Team(1).*` does not match `Scoreboard.Team(2).Name`. */
  lemma {:induction false} TeamChildrenOther()
    ensures !NewPatternMatcher("Scoreboard.Team(1).*").Accepts("Scoreboard.Team(2).Name")
  {
    var team1 := "Scoreboard.Team(1)";
    TeamOneChildren();
    DotStarIsChildren(team1, "Scoreboard.Team(2).Name");
    assert "Scoreboard.Team(2).Name"[16] != (team1 + ".")[16];
  }

  /** `Scoreboard.Team(1).*` holds no wildcard: it is the team-1 prefix followed by `.*`. */
  lemma TeamOneChildren()
    ensures "Scoreboard.Team(1).*" == "Scoreboard.Team(1)" + ".*"
    ensures WildcardIndex("Scoreboard.Team(1)" + ".*") == -1
  {
    assert "Scoreboard.Team(1).*" == "Scoreboard.Team" + "(1).*";
    assert WildcardIndex("(1).*") == -1;
    WildcardIndexSkip("Scoreboard.Team", "(1).*");
  }

  /** The remaining plain rows: the empty pattern, and a pattern without wildcards. */
  lemma {:induction false} PlainTable()
    ensures NewPatternMatcher("").Accepts("Scoreboard.Team(1)")
    ensures NewPatternMatcher("ScoreBoard").Accepts("ScoreBoard.State")
    ensures NewPatternMatcher("ScoreBoard").Accepts("ScoreBoard")
  {
    assert "ScoreBoard" == "ScoreBoard" + "";
    WildcardIndexSkip("ScoreBoard", "");
    assert !HasSuffix("ScoreBoard", ".*");
    assert "ScoreBoard.State"[..11] == "ScoreBoard.";
  }

  /** After the team id, the keyed pattern's remainder accepts a key and what may follow it. */
  lemma {:induction false} KeyedRemainder(key: string, tail: string)
    requires ')' !in key
    ensures WildcardMatch(".Color(operator).Name.Key" + Wildcard + "",
                          ".Color(operator).Name.Key" + "(" + key + ")" + tail)
      <==> tail == "" || tail[0] == '.'
  {
    KeyIndex();
    ConsumeWildcard(".Color(operator).Name.Key", "", key, tail);
    assert WildcardPass("", tail) == Decided(tail == "" || tail[0] == '.');
  }

  /**
   * The keyed pattern of the table: once both wildcards have consumed an id,
   * what follows must be the end of the value or a dotted child.
   */
  lemma {:induction false} KeyedPatternMatches(team: string, key: string, tail: string)
    requires ')' !in team && ')' !in key
    ensures NewPatternMatcher("Scoreboard.Team(*).Color(operator).Name.Key(*)")
      .Accepts("Scoreboard.Team(" + team + ")" + ".Color(operator).Name.Key(" + key + ")" + tail)
      <==> tail == "" || tail[0] == '.'
  {
    var prefix := "Scoreboard.Team";
    var rest := ".Color(operator).Name.Key" + Wildcard + "";
    var after := ".Color(operator).Name.Key" + "(" + key + ")" + tail;
    KeyedSplit(team, key, tail);
    FirstWildcardAfter(prefix, rest);
    ConsumeWildcard(prefix, rest, team, after);
    KeyedRemainder(key, tail);
  }

  /** The keyed pattern and a keyed value, cut at the team wildcard. */
  lemma KeyedSplit(team: string, key: string, tail: string)
    ensures "Scoreboard.Team(*).Color(operator).Name.Key(*)"
      == "Scoreboard.Team" + Wildcard + (".Color(operator).Name.Key" + Wildcard + "")
    ensures "Scoreboard.Team(" + team + ")" + ".Color(operator).Name.Key(" + key + ")" + tail
      == "Scoreboard.Team" + "(" + team + ")" + (".Color(operator).Name.Key" + "(" + key + ")" + tail)
  {
  }

  /** The keyed pattern rejects any value whose `Color` id does not start like `operator`. */
  lemma {:induction false} KeyedPatternNeedsOperator(team: string, after: string)
    requires ')' !in team
    requires |after| >= 9 && after[..7] == ".Color(" && after[8] != 'p'
    ensures !NewPatternMatcher("Scoreboard.Team(*).Color(operator).Name.Key(*)")
      .Accepts("Scoreboard.Team(" + team + ")" + after)
  {
    var prefix := "Scoreboard.Team";
    var middle := ".Color(operator).Name.Key";
    var rest := middle + Wildcard + "";
    KeyedSplit(team, "", "");
    TeamSplit(team, after);
    FirstWildcardAfter(prefix, rest);
    ConsumeWildcard(prefix, rest, team, after);
    OperatorMismatch(after);
  }

  /** After the team id, a `Color` id not starting like `operator` ends the match at once. */
  lemma OperatorMismatch(after: string)
    requires |after| >= 9 && after[..7] == ".Color(" && after[8] != 'p'
    ensures WildcardPass(".Color(operator).Name.Key" + Wildcard + "", after) == Decided(false)
  {
    var middle := ".Color(operator).Name.Key";
    var rest := middle + Wildcard + "";
    KeyIndex();
    assert rest[8] == 'p';
    if |after| >= |middle| + 1 {
      assert after[..|middle| + 1][8] != rest[..|middle| + 1][8];
    }
  }

  /** A value under `Scoreboard.Team(team)`, cut at the team id. */
  lemma TeamSplit(team: string, after: string)
    ensures "Scoreboard.Team(" + team + ")" + after == "Scoreboard.Team" + "(" + team + ")" + after
  {
  }

  /** Table row: a different `Color` id is rejected on its own. */
  lemma {:induction false} KeyedRowOverlay()
    ensures !NewPatternMatcher("Scoreboard.Team(*).Color(operator).Name.Key(*)")
      .Accepts("Scoreboard.Team(1).Color(overlay)")
  {
    assert "Scoreboard.Team(1).Color(overlay)" == "Scoreboard.Team(1)" + ".Color(overlay)";
    assert "Scoreboard.Team(1)" == "Scoreboard.Team(" + "1" + ")";
    KeyedPatternNeedsOperator("1", ".Color(overlay)");
  }

  /** The second wildcard of the keyed pattern sits after the literal `(operator)` id. */
  lemma {:induction false} KeyIndex()
    ensures WildcardIndex(".Color(operator).Name.Key" + Wildcard + "") == |".Color(operator).Name.Key"|
  {
    assert ".Color(operator).Name.Key" + Wildcard + "" == ".Color" + "(" + ("operator).Name.Key" + Wildcard + "");
    FirstWildcardAfter("operator).Name.Key", "");
    WildcardIndexSkipParen(".Color", "operator).Name.Key" + Wildcard + "");
  }
}
