/**
 * Values and library behaviour of Go that the scoreboard server relies on:
 * nil-able results, the server's error values, Go's truncating integer
 * division, and the parts of the `strings` package the core calls (prefix
 * and suffix tests, searching, whitespace trimming, joining, bytewise
 * ordering).
 */
module GoBase {

  datatype Option<T> = None | Some(value: T)

  /** Every error value the modelled code can return; `None` plays Go's `nil`. */
  datatype Error =
    | ErrNotFound            // statemanager: key has no entry
    | ErrUpdaterNotFound     // no updater registered for the key
    | ErrUnknownType         // value of a type the store does not hold
    | ErrStateInvalid        // value holder already released
    | ErrSyntax              // strconv: malformed number or boolean
    | ErrRange               // strconv: number outside int64
    | ErrTimeParse           // time.Parse refused the text
    | ErrCommandArguments
    | ErrCommandNotFound
    | ErrClockNotFound
    | ErrSnapshotNotFound
    | ErrSnapshotClockNotFound
    | ErrSnapshotTeamNotFound
    | ErrSkaterNotFound
    | ErrSkaterOnBench
    | ErrSkaterNotInBox
    | ErrSkaterInBox
    | ErrPositionFull

  /**
   * Go's integer `/` by a positive divisor: the quotient is truncated
   * toward zero, unlike Dafny's Euclidean `/`.
   */
  function Quot(a: int, b: int): (q: int)
    requires b > 0
    ensures a >= 0 ==> q * b <= a < q * b + b
    ensures a < 0 ==> q * b - b < a <= q * b
  {
    if a >= 0 then a / b else -((-a) / b)
  }

  /** Go's integer `%` by a positive divisor: the remainder takes the dividend's sign. */
  function Rem(a: int, b: int): (r: int)
    requires b > 0
    ensures a >= 0 ==> 0 <= r < b
    ensures a < 0 ==> -b < r <= 0
  {
    if a >= 0 then a % b else -((-a) % b)
  }

  /** strings.HasPrefix */
  predicate HasPrefix(s: string, prefix: string)
  {
    |prefix| <= |s| && s[..|prefix|] == prefix
  }

  /** strings.HasSuffix */
  predicate HasSuffix(s: string, suffix: string)
  {
    |suffix| <= |s| && s[|s| - |suffix|..] == suffix
  }

  predicate OccursAt(s: string, sub: string, i: nat)
  {
    i + |sub| <= |s| && s[i..i + |sub|] == sub
  }

  /** strings.Index: the first position of `sub` in `s`, or -1 (see IndexFirst). */
  function Index(s: string, sub: string): (r: int)
    ensures -1 <= r <= |s|
    ensures r >= 0 ==> r + |sub| <= |s|
    decreases |s|
  {
    if OccursAt(s, sub, 0) then 0
    else if |s| == 0 then -1
    else
      var r := Index(s[1..], sub);
      if r == -1 then -1 else r + 1
  }

  /** Index finds the first occurrence, and reports -1 exactly when there is none. */
  lemma {:induction false} IndexFirst(s: string, sub: string)
    ensures Index(s, sub) == -1 <==> forall i: nat :: i <= |s| ==> !OccursAt(s, sub, i)
    ensures Index(s, sub) >= 0 ==>
      OccursAt(s, sub, Index(s, sub)) && forall i: nat :: i < Index(s, sub) ==> !OccursAt(s, sub, i)
    decreases |s|
  {
    if OccursAt(s, sub, 0) {
    } else if |s| == 0 {
      forall i: nat | i <= |s| ensures !OccursAt(s, sub, i) {
        assert i == 0;
      }
    } else {
      IndexFirst(s[1..], sub);
      ShiftOccurs(s, sub);
      var r := Index(s[1..], sub);
      forall i: nat | 0 < i <= |s| ensures OccursAt(s, sub, i) <==> OccursAt(s[1..], sub, i - 1) {
      }
      if r == -1 {
        forall i: nat | i <= |s| ensures !OccursAt(s, sub, i) {
          if i > 0 { assert !OccursAt(s[1..], sub, i - 1); }
        }
      } else {
        forall i: nat | i < r + 1 ensures !OccursAt(s, sub, i) {
          if i > 0 { assert !OccursAt(s[1..], sub, i - 1); }
        }
      }
    }
  }

  lemma ShiftOccurs(s: string, sub: string)
    requires |s| > 0
    ensures forall i: nat :: OccursAt(s[1..], sub, i) <==> OccursAt(s, sub, i + 1)
  {
    forall i: nat
      ensures OccursAt(s[1..], sub, i) <==> OccursAt(s, sub, i + 1)
    {
      if i + 1 + |sub| <= |s| {
        assert s[1..][i..i + |sub|] == s[i + 1..i + 1 + |sub|];
      }
    }
  }

  /** strings.IndexRune / IndexByte: the first position of `c` in `s`, or -1. */
  function IndexChar(s: string, c: char): (r: int)
    ensures -1 <= r < |s|
    ensures r == -1 ==> forall i :: 0 <= i < |s| ==> s[i] != c
    ensures r >= 0 ==> s[r] == c && forall i :: 0 <= i < r ==> s[i] != c
  {
    if |s| == 0 then -1
    else if s[0] == c then 0
    else
      var r := IndexChar(s[1..], c);
      if r == -1 then -1
      else
        r + 1
  }

  /** unicode.IsSpace, the set of characters strings.TrimSpace removes. */
  predicate IsSpace(c: char)
  {
    c == '\t' || c == '\n' || c == '\U{0B}' || c == '\U{0C}' || c == '\r' || c == ' '
    || c == '\U{85}' || c == '\U{A0}' || c == '\U{1680}'
    || (8192 <= c as int <= 8202)
    || c == '\U{2028}' || c == '\U{2029}' || c == '\U{202F}' || c == '\U{205F}' || c == '\U{3000}'
  }

  function TrimLeft(s: string): (r: string)
    ensures |r| <= |s| && r == s[|s| - |r|..]
    ensures |r| > 0 ==> !IsSpace(r[0])
    ensures forall i :: 0 <= i < |s| - |r| ==> IsSpace(s[i])
  {
    if |s| > 0 && IsSpace(s[0]) then TrimLeft(s[1..]) else s
  }

  function TrimRight(s: string): (r: string)
    ensures |r| <= |s| && r == s[..|r|]
    ensures |r| > 0 ==> !IsSpace(r[|r| - 1])
    ensures forall i :: |r| <= i < |s| ==> IsSpace(s[i])
  {
    if |s| > 0 && IsSpace(s[|s| - 1]) then TrimRight(s[..|s| - 1]) else s
  }

  /**
   * strings.TrimSpace: the infix of `s` left once leading and trailing space
   * is cut; it neither starts nor ends with a space, and it is empty exactly
   * when `s` is all space.
   */
  function TrimSpace(s: string): (r: string)
    ensures exists i: nat :: OccursAt(s, r, i)
    ensures |r| > 0 ==> !IsSpace(r[0]) && !IsSpace(r[|r| - 1])
    ensures r == [] <==> forall i :: 0 <= i < |s| ==> IsSpace(s[i])
  {
    var left := TrimLeft(s);
    var r := TrimRight(left);
    TrimBoth(s, left, r);
    r
  }

  lemma TrimBoth(s: string, left: string, r: string)
    requires |left| <= |s| && left == s[|s| - |left|..]
    requires |left| > 0 ==> !IsSpace(left[0])
    requires forall i :: 0 <= i < |s| - |left| ==> IsSpace(s[i])
    requires |r| <= |left| && r == left[..|r|]
    requires forall i :: |r| <= i < |left| ==> IsSpace(left[i])
    ensures OccursAt(s, r, |s| - |left|)
    ensures |r| > 0 ==> !IsSpace(r[0])
    ensures r == [] <==> forall i :: 0 <= i < |s| ==> IsSpace(s[i])
  {
    var i := |s| - |left|;
    assert s[i..i + |r|] == r;
    if |r| > 0 {
      assert r[0] == left[0];
    }
    if r == [] {
      assert |left| == 0;
    } else {
      assert !IsSpace(s[i]);
    }
  }

  /** strings.Join */
  function Join(parts: seq<string>, sep: string): (r: string)
    ensures |parts| == 0 ==> r == []
    ensures |parts| == 1 ==> r == parts[0]
    ensures |parts| > 1 ==> r == Join(parts[..|parts| - 1], sep) + sep + parts[|parts| - 1]
  {
    if |parts| == 0 then []
    else if |parts| == 1 then parts[0]
    else Join(parts[..|parts| - 1], sep) + sep + parts[|parts| - 1]
  }

  /** Go's `<` on strings: bytewise lexicographic order. */
  predicate StringLess(a: string, b: string)
  {
    if |a| == 0 then |b| > 0
    else if |b| == 0 then false
    else a[0] < b[0] || (a[0] == b[0] && StringLess(a[1..], b[1..]))
  }

  lemma {:induction false} StringLessIrreflexive(a: string)
    ensures !StringLess(a, a)
  {
    if |a| > 0 { StringLessIrreflexive(a[1..]); }
  }

  lemma {:induction false} StringLessTotal(a: string, b: string)
    ensures a == b || StringLess(a, b) || StringLess(b, a)
  {
    if |a| > 0 && |b| > 0 && a[0] == b[0] {
      StringLessTotal(a[1..], b[1..]);
      if a[1..] == b[1..] {
        assert a == [a[0]] + a[1..] && b == [b[0]] + b[1..];
      }
    }
  }

  lemma {:induction false} StringLessTransitive(a: string, b: string, c: string)
    requires StringLess(a, b) && StringLess(b, c)
    ensures StringLess(a, c)
  {
    if |a| > 0 && a[0] == b[0] && b[0] == c[0] {
      StringLessTransitive(a[1..], b[1..], c[1..]);
    }
  }

  lemma {:induction false} StringLessAsymmetric(a: string, b: string)
    requires StringLess(a, b)
    ensures !StringLess(b, a)
  {
    if |a| > 0 && |b| > 0 && a[0] == b[0] {
      StringLessAsymmetric(a[1..], b[1..]);
    }
  }
}
