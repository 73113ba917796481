/**
 * Helpers shared by the server (utils/utils.go): the base directory for
 * saved files, file paths below it, and the ids of a state path.
 */
module Utils {
  import opened GoBase

  // ------------------------------------------------------------- ParseIDs

  /** The first id of a path and the text after its `)`, if a group opens and closes. */
  datatype Group = NoGroup | Group(id: string, rest: string)

  /** The first group of `k`: from the first `(` to the next `)` after it. */
  function FirstGroup(k: string): (g: Group)
    ensures g.Group? ==> |g.rest| < |k|
  {
    var open := IndexChar(k, '(');
    if open == -1 then NoGroup
    else
      var rest := k[open + 1..];
      var close := IndexChar(rest, ')');
      if close == -1 then NoGroup else Group(rest[..close], rest[close + 1..])
  }

  /** The ids of a path, group after group. */
  function IDs(k: string): (r: seq<string>)
    decreases |k|
  {
    match FirstGroup(k)
    case NoGroup => []
    case Group(id, rest) => [id] + IDs(rest)
  }

  /** The group being read once `id` has been read since its `(` and `t` is still to come. */
  function OpenGroup(id: string, t: string): (g: Group)
  {
    var close := IndexChar(t, ')');
    if close == -1 then NoGroup else Group(id + t[..close], t[close + 1..])
  }

  /** The ids still to come once `id` has been read inside a group and `t` is left. */
  function CloseFrom(id: string, t: string): (r: seq<string>)
  {
    match OpenGroup(id, t)
    case NoGroup => []
    case Group(x, rest) => [x] + IDs(rest)
  }

  /** IndexChar past a first character other than `c`. */
  lemma IndexCharStep(s: string, c: char)
    requires |s| > 0 && s[0] != c
    ensures IndexChar(s, c) == if IndexChar(s[1..], c) == -1 then -1 else IndexChar(s[1..], c) + 1
  {
  }

  /** A step past a character that opens no group. */
  lemma IDsSkip(s: string)
    requires |s| > 0 && s[0] != '('
    ensures IDs(s) == IDs(s[1..])
  {
    FirstGroupSkip(s);
  }

  /** The first group does not depend on a leading character other than `(`. */
  lemma FirstGroupSkip(s: string)
    requires |s| > 0 && s[0] != '('
    ensures FirstGroup(s) == FirstGroup(s[1..])
  {
    IndexCharStep(s, '(');
    var o := IndexChar(s[1..], '(');
    if o != -1 {
      FirstGroupAt(s, o + 1);
      FirstGroupAt(s[1..], o);
      assert s[o + 1 + 1..] == s[1..][o + 1..];
    }
  }

  /** Where the first `(` stands, the first group is the one opened after it. */
  lemma FirstGroupAt(s: string, o: nat)
    requires IndexChar(s, '(') == o
    ensures FirstGroup(s) == OpenGroup([], s[o + 1..])
  {
    var t := s[o + 1..];
    var close := IndexChar(t, ')');
    if close == -1 {
      assert FirstGroup(s) == NoGroup;
    } else {
      assert FirstGroup(s) == Group(t[..close], t[close + 1..]);
      assert [] + t[..close] == t[..close];
    }
  }

  /** A step onto `(`: the group opens right after it, with nothing read yet. */
  lemma IDsOpen(s: string)
    requires |s| > 0 && s[0] == '('
    ensures IDs(s) == CloseFrom([], s[1..])
  {
    assert IndexChar(s, '(') == 0;
    var t := s[1..];
    var close := IndexChar(t, ')');
    if close != -1 {
      assert [] + t[..close] == t[..close];
    }
    assert FirstGroup(s) == OpenGroup([], t);
  }

  /** A step inside a group past a character that closes nothing: it joins the id. */
  lemma CloseSkip(id: string, t: string)
    requires |t| > 0 && t[0] != ')'
    ensures CloseFrom(id, t) == CloseFrom(id + [t[0]], t[1..])
  {
    IndexCharStep(t, ')');
    var c := IndexChar(t[1..], ')');
    if c != -1 {
      assert t[..c + 1] == [t[0]] + t[1..][..c];
      assert id + t[..c + 1] == id + [t[0]] + t[1..][..c];
      assert t[c + 1 + 1..] == t[1..][c + 1..];
    }
    assert OpenGroup(id, t) == OpenGroup(id + [t[0]], t[1..]);
  }

  /** A step onto `)` inside a group: the id is complete. */
  lemma CloseHere(id: string, t: string)
    requires |t| > 0 && t[0] == ')'
    ensures CloseFrom(id, t) == [id] + IDs(t[1..])
  {
    assert IndexChar(t, ')') == 0;
    assert id + t[..0] == id;
    assert OpenGroup(id, t) == Group(id, t[1..]);
  }

  /** Nothing is left to read at the end of the path. */
  lemma AtEnd(id: string)
    ensures IDs([]) == [] && CloseFrom(id, []) == []
  {
    assert IndexChar([], '(') == -1;
    assert FirstGroup([]) == NoGroup;
    assert IndexChar([], ')') == -1;
  }

  /**
   * The character-by-character scan of ParseIDs over what is left to read,
   * `t`, with `open` telling whether a group is open and `id` what it has
   * read so far.
   */
  ghost function Scan(t: string, open: bool, id: string): seq<string>
  {
    if |t| == 0 then []
    else if !open && t[0] == '(' then Scan(t[1..], true, [])
    else if open && t[0] == ')' then [id] + Scan(t[1..], false, [])
    else Scan(t[1..], open, if open then id + [t[0]] else id)
  }

  /** The scan finds the ids, group after group. */
  lemma {:induction false} ScanFindsIDs(t: string, open: bool, id: string)
    ensures Scan(t, open, id) == if open then CloseFrom(id, t) else IDs(t)
  {
    if |t| == 0 {
      AtEnd(id);
    } else if !open && t[0] == '(' {
      IDsOpen(t);
      ScanFindsIDs(t[1..], true, []);
    } else if open && t[0] == ')' {
      CloseHere(id, t);
      ScanFindsIDs(t[1..], false, []);
    } else if open {
      CloseSkip(id, t);
      ScanFindsIDs(t[1..], true, id + [t[0]]);
    } else {
      IDsSkip(t);
      ScanFindsIDs(t[1..], false, id);
    }
  }

  /** One more character read into a slice. */
  lemma SliceExtend(k: string, start: nat, idx: nat)
    requires start <= idx < |k|
    ensures k[start..idx] + [k[idx]] == k[start..idx + 1]
  {
  }

  /** ParseIDs (utils/utils.go and statemanager/statemanager.go): one left-to-right scan. */
  method ParseIDs(k: string) returns (ret: seq<string>)
    ensures ret == IDs(k)
  {
    ret := [];
    var startPos := -1;
    var idx := 0;
    while idx < |k|
      invariant 0 <= idx <= |k|
      invariant startPos == -1 || 0 <= startPos <= idx
      invariant ret + Scan(k[idx..], startPos != -1, if startPos == -1 then [] else k[startPos..idx]) == Scan(k, false, [])
    {
      var c := k[idx];
      var t := k[idx..];
      assert t[0] == c && t[1..] == k[idx + 1..];
      if startPos == -1 && c == '(' {
        assert Scan(t, false, []) == Scan(t[1..], true, []);
        assert k[idx + 1..idx + 1] == [];
        startPos := idx + 1;
      } else if startPos != -1 && c == ')' {
        var id := k[startPos..idx];
        assert Scan(t, true, id) == [id] + Scan(t[1..], false, []);
        assert ret + ([id] + Scan(t[1..], false, [])) == ret + [id] + Scan(t[1..], false, []);
        ret := ret + [id];
        startPos := -1;
      } else if startPos != -1 {
        var id := k[startPos..idx];
        assert Scan(t, true, id) == Scan(t[1..], true, id + [c]);
        SliceExtend(k, startPos, idx);
      } else {
        assert Scan(t, false, []) == Scan(t[1..], false, []);
      }
      idx := idx + 1;
    }
    assert k[0..] == k;
    ScanFindsIDs(k, false, []);
    assert ret + [] == ret;
  }

  /** A path holds no ids exactly when it has no `(` followed later by a `)`. */
  lemma {:induction false} NoParenNoIDs(k: string)
    requires '(' !in k
    ensures IDs(k) == []
  {
    assert FirstGroup(k) == NoGroup;
  }

  /** An unclosed `(` contributes nothing. */
  lemma {:induction false} UnclosedContributesNothing(a: string, b: string)
    requires '(' !in a && ')' !in b
    ensures IDs(a + "(" + b) == []
  {
    var k := a + "(" + b;
    assert k[|a|] == '(';
    assert k[..|a|] == a;
    assert IndexChar(k, '(') == |a|;
    assert k[|a| + 1..] == b;
    assert FirstGroup(k) == NoGroup;
  }

  /**
   * A segment `a(x)` contributes exactly `x`, whatever `x` holds besides `)`:
   * a second `(` inside a group does not restart it.
   */
  lemma {:induction false} IDsSegment(a: string, x: string, b: string)
    requires '(' !in a && ')' !in x
    ensures IDs(a + "(" + x + ")" + b) == [x] + IDs(b)
  {
    var k := a + "(" + x + ")" + b;
    assert k[|a|] == '(';
    assert k[..|a|] == a;
    assert IndexChar(k, '(') == |a|;
    var rest := k[|a| + 1..];
    assert rest == x + ")" + b;
    assert rest[|x|] == ')' && rest[..|x|] == x;
    assert IndexChar(rest, ')') == |x|;
    assert k[|a| + 1..|a| + 1 + |x|] == x;
    assert k[|a| + 1 + |x| + 1..] == b;
    assert FirstGroup(k) == Group(x, b);
  }

  /** Two complete groups, with no stray `(` around them, give exactly their two ids. */
  lemma {:induction false} TwoSegments(a: string, x: string, b: string, y: string, c: string)
    requires '(' !in a && ')' !in x && '(' !in b && ')' !in y && '(' !in c
    ensures IDs(a + "(" + x + ")" + b + "(" + y + ")" + c) == [x, y]
  {
    var tail := b + "(" + y + ")" + c;
    assert a + "(" + x + ")" + b + "(" + y + ")" + c == a + "(" + x + ")" + tail;
    IDsSegment(a, x, tail);
    IDsSegment(b, y, c);
    NoParenNoIDs(c);
  }

  /** The documented example: `Scoreboard.Team(1).Skater(abc123).Name` yields `1` and `abc123`. */
  lemma DocumentedExample(k: string)
    requires k == "Scoreboard.Team(1).Skater(abc123).Name"
    ensures IDs(k) == ["1", "abc123"]
  {
    ExampleParts(k);
    TwoSegments("Scoreboard.Team", "1", ".Skater", "abc123", ".Name");
  }

  /** The documented example, cut at its brackets. */
  lemma ExampleParts(k: string)
    requires k == "Scoreboard.Team(1).Skater(abc123).Name"
    ensures k == "Scoreboard.Team" + "(" + "1" + ")" + ".Skater" + "(" + "abc123" + ")" + ".Name"
  {
  }

  // ---------------------------------------------------------------- paths

  /**
   * filepath.Join of two elements, without the lexical clean-up: empty
   * elements are dropped and the rest are separated by `/`.
   */
  function JoinPath(a: string, b: string): (r: string)
    ensures a == "" ==> r == b
    ensures b == "" ==> r == a
    ensures a != "" && b != "" ==> HasPrefix(r, a + "/") && HasSuffix(r, b)
  {
    if a == "" then b else if b == "" then a else a + "/" + b
  }

  /** filepath.Join over a list, starting from `base`. */
  function JoinPaths(base: string, parts: seq<string>): string
  {
    if |parts| == 0 then base else JoinPath(JoinPaths(base, parts[..|parts| - 1]), parts[|parts| - 1])
  }

  /** The segments Path keeps: those that do not start with `.`. */
  function Kept(parts: seq<string>): (r: seq<string>)
    requires forall i :: 0 <= i < |parts| ==> parts[i] != ""
    ensures forall s :: s in r <==> s in parts && s[0] != '.'
  {
    if |parts| == 0 then []
    else
      var init := Kept(parts[..|parts| - 1]);
      var last := parts[|parts| - 1];
      assert forall s :: s in parts <==> s in parts[..|parts| - 1] || s == last;
      if last[0] != '.' then init + [last] else init
  }

  /** The directory files are loaded from and saved to (utils.baseFilePath). */
  class BaseDir {
    var baseFilePath: string

    constructor()
      ensures baseFilePath == ""
    {
      baseFilePath := "";
    }

    /** BaseFilePath */
    function BaseFilePath(): string
      reads this
    {
      baseFilePath
    }

    /** SetBaseFilePath: the joined elements become the base. */
    method SetBaseFilePath(p: seq<string>)
      modifies this
      ensures BaseFilePath() == JoinPaths("", p)
    {
      baseFilePath := JoinPaths("", p);
    }

    /**
     * Path: the base joined with every segment not starting with `.`. Every
     * segment must be non-empty, since its first character is read.
     */
    method Path(p: seq<string>) returns (ret: string)
      requires forall i :: 0 <= i < |p| ==> p[i] != ""
      ensures ret == JoinPaths(baseFilePath, Kept(p))
    {
      ret := baseFilePath;
      var i := 0;
      while i < |p|
        invariant 0 <= i <= |p|
        invariant ret == JoinPaths(baseFilePath, Kept(p[..i]))
      {
        assert p[..i + 1][..i] == p[..i];
        if p[i][0] != '.' {
          ret := JoinPath(ret, p[i]);
        }
        i := i + 1;
      }
      assert p[..i] == p;
    }
  }

  /** A segment starting with `.` leaves the path unchanged. */
  lemma DotSegmentIgnored(parts: seq<string>, s: string)
    requires forall i :: 0 <= i < |parts| ==> parts[i] != ""
    requires s != "" && s[0] == '.'
    ensures Kept(parts + [s]) == Kept(parts)
  {
    assert (parts + [s])[..|parts|] == parts;
  }
}
