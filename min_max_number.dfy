/**
 * The clamped counter behind every clock's number and time
 * (scoreboard/min_max_number.go): a value kept between a minimum and a
 * maximum, moved by adjust, re-clamped when a bound moves, and published
 * rounded to a multiple of `updateOn` (down when counting up, up when
 * counting down). The published `.PreciseNum` is the value itself; the
 * rounded `.Num` is kept in `shown`.
 */
module MinMax {
  import opened GoBase

  /** The three numbers a counter keeps. */
  datatype Bounds = Bounds(min: int, max: int, num: int)

  predicate InRange(b: Bounds)
  {
    b.min <= b.num <= b.max
  }

  /** setNum's clamp: below min gives min, otherwise above max gives max. */
  function Clamp(v: int, min: int, max: int): (r: int)
    ensures min <= max ==> min <= r <= max
    ensures min <= v <= max ==> r == v
    ensures r == min || r == max || r == v
  {
    if v < min then min else if v > max then max else v
  }

  /** setNum(v) */
  function WithNum(b: Bounds, v: int): (r: Bounds)
    ensures r.min == b.min && r.max == b.max
    ensures b.min <= b.max ==> InRange(r)
    ensures b.min <= v <= b.max ==> r.num == v
  {
    b.(num := Clamp(v, b.min, b.max))
  }

  /**
   * setMin(v), with the setMax and setNum calls it makes: a minimum above
   * the maximum drags the maximum up to it, and the value is pulled up
   * when it falls below the new minimum.
   */
  function WithMin(b: Bounds, v: int): (r: Bounds)
    ensures r.min == v && r.max == (if v > b.max then v else b.max)
    ensures InRange(b) ==> InRange(r) && r.num == Clamp(b.num, r.min, r.max)
  {
    Bounds(v, if v > b.max then v else b.max, if v > b.max || v > b.num then v else b.num)
  }

  /** setMax(v), symmetric to setMin: a maximum below the minimum drags the minimum down. */
  function WithMax(b: Bounds, v: int): (r: Bounds)
    ensures r.max == v && r.min == (if b.min > v then v else b.min)
    ensures InRange(b) ==> InRange(r) && r.num == Clamp(b.num, r.min, r.max)
  {
    Bounds(if b.min > v then v else b.min, v, if b.min > v || b.num > v then v else b.num)
  }

  /** Whether setMin(v) ends up calling setNum, which republishes the value. */
  predicate MinRefreshes(b: Bounds, v: int)
  {
    if v > b.max then b.num != v else v > b.num
  }

  /** Whether setMax(v) ends up calling setNum. */
  predicate MaxRefreshes(b: Bounds, v: int)
  {
    if b.min > v then b.num != v else b.num > v
  }

  /** adjust's direction once a negative amount has flipped it. */
  predicate MovesDown(down: bool, amount: int)
  {
    if amount < 0 then !down else down
  }

  /**
   * adjust(down, amount): the value moves by |amount| in its direction
   * and the result is true, unless that would reach or pass the bound in
   * that direction, in which case the value stops at the bound and the
   * result is false.
   */
  function Adjusted(b: Bounds, down: bool, amount: int): (r: (Bounds, bool))
    ensures r.0.min == b.min && r.0.max == b.max
    ensures var delta := if down then -amount else amount;
      && (r.1 <==> if MovesDown(down, amount) then b.num + delta > b.min else b.num + delta < b.max)
      && (r.1 ==> r.0.num == b.num + delta)
      && (!r.1 ==> r.0.num == if MovesDown(down, amount) then b.min else b.max)
    ensures InRange(b) ==> InRange(r.0)
  {
    var a := if amount < 0 then -amount else amount;
    if MovesDown(down, amount) then
      if b.num <= b.min + a then (b.(num := b.min), false) else (b.(num := b.num - a), true)
    else
      if b.num >= b.max - a then (b.(num := b.max), false) else (b.(num := b.num + a), true)
  }

  /**
   * sendNumStateUpdate's rounding, with Go's truncating `%`: for a value
   * that is not negative, counting up rounds down to a multiple of
   * `updateOn` and counting down rounds up to one.
   */
  function Rounded(num: int, updateOn: int, countdown: bool): (p: int)
    requires updateOn > 0
    ensures num >= 0 && !countdown ==> p == (num / updateOn) * updateOn && p <= num < p + updateOn
    ensures num >= 0 && countdown ==>
      p == (num / updateOn + if num % updateOn == 0 then 0 else 1) * updateOn && p - updateOn < num <= p
  {
    RoundingStep(num, updateOn);
    var diff := Rem(num, updateOn);
    if countdown then num + Rem(updateOn - diff, updateOn) else num - diff
  }

  lemma RoundingStep(num: int, updateOn: int)
    requires updateOn > 0
    ensures num == (num / updateOn) * updateOn + num % updateOn
    ensures num >= 0 ==> Rem(num, updateOn) == num % updateOn
    ensures num >= 0 ==> Rem(updateOn - num % updateOn, updateOn) == if num % updateOn == 0 then 0 else updateOn - num % updateOn
  {
    DivMod(num, updateOn);
    var r := num % updateOn;
    if num >= 0 {
      if r == 0 {
        ModSelf(updateOn);
      } else {
        ModSmall(updateOn - r, updateOn);
      }
    }
  }

  lemma DivMod(a: int, b: int)
    requires b > 0
    ensures a == (a / b) * b + a % b && 0 <= a % b < b
  {
  }

  lemma ModSelf(b: int)
    requires b > 0
    ensures b % b == 0
  {
  }

  lemma ModSmall(a: int, b: int)
    requires 0 <= a < b
    ensures a % b == a
  {
  }

  /** The published `.Num`: the rounded value, clamped into the bounds. */
  function Display(b: Bounds, updateOn: int, countdown: bool): (r: int)
    requires updateOn > 0
    ensures b.min <= b.max ==> b.min <= r <= b.max
    ensures b.min <= Rounded(b.num, updateOn, countdown) <= b.max ==> r == Rounded(b.num, updateOn, countdown)
  {
    Clamp(Rounded(b.num, updateOn, countdown), b.min, b.max)
  }

  /** With an `updateOn` of 1 (a clock's number) the published value is the value itself. */
  lemma DisplayUnit(b: Bounds, countdown: bool)
    requires InRange(b)
    ensures Display(b, 1, countdown) == b.num
  {
    assert Rem(b.num, 1) == 0 by {
      if b.num < 0 {
        assert -(b.num) % 1 == 0;
      }
    }
  }

  /** newMinMaxNumber: setMin, setMax then setNum, starting from all zero. */
  function Initial(min: int, max: int, num: int): (r: Bounds)
    ensures InRange(r)
  {
    WithNum(WithMax(WithMin(Bounds(0, 0, 0), min), max), num)
  }

  /** A counter built with min <= max holds exactly those bounds and the clamped start value. */
  lemma InitialBounds(min: int, max: int, num: int)
    requires min <= max
    ensures Initial(min, max, num) == Bounds(min, max, Clamp(num, min, max))
  {
  }

  /**
   * The updater priorities: Min 1, Max 2, PreciseNum 3. A grouped restore
   * applies them in that order, and that order reproduces any consistent
   * saved triple whatever the counter held before.
   */
  const MinPriority := 1
  const MaxPriority := 2
  const PrecisePriority := 3

  lemma RestoreInPriorityOrder(b: Bounds, saved: Bounds)
    requires InRange(saved)
    ensures MinPriority < MaxPriority < PrecisePriority
    ensures WithNum(WithMax(WithMin(b, saved.min), saved.max), saved.num) == saved
  {
  }

  /** The value must come last: restored before its bounds, it can be clamped away. */
  lemma ValueFirstLosesValue()
    ensures var b := Bounds(0, 10, 5);
      var saved := Bounds(20, 30, 25);
      InRange(b) && InRange(saved) && WithMax(WithMin(WithNum(b, saved.num), saved.min), saved.max) != saved
  {
    var b := Bounds(0, 10, 5);
    assert WithNum(b, 25) == Bounds(0, 10, 10);
    assert WithMin(Bounds(0, 10, 10), 20) == Bounds(20, 20, 20);
  }

  class MinMaxNumber {
    var countdown: bool
    var num: int
    var min: int
    var max: int
    const updateOn: int
    /** The value last published at `.Num`. */
    var shown: int

    function Value(): Bounds
      reads this
    {
      Bounds(min, max, num)
    }

    /** newMinMaxNumber */
    constructor(countdown: bool, min: int, max: int, num: int, updateOn: int)
      requires updateOn > 0
      ensures this.countdown == countdown && this.updateOn == updateOn
      ensures Value() == Initial(min, max, num)
      ensures shown == Display(Value(), updateOn, countdown)
    {
      this.countdown := countdown;
      this.updateOn := updateOn;
      this.num := 0;
      this.min := 0;
      this.max := 0;
      this.shown := 0;
      new;
      SetMin(min);
      SetMax(max);
      SetNum(num);
    }

    /** sendNumStateUpdate: publish the rounded, clamped value. */
    method SendNumStateUpdate()
      requires updateOn > 0
      modifies this
      ensures shown == Display(Value(), updateOn, countdown)
      ensures Value() == old(Value()) && countdown == old(countdown)
    {
      var diff := Rem(num, updateOn);
      if countdown {
        diff := -Rem(updateOn - diff, updateOn);
      }
      var n := num - diff;
      if n < min {
        n := min;
      } else if n > max {
        n := max;
      }
      shown := n;
    }

    /** adjust, which always republishes on the way out. */
    method Adjust(down: bool, amount: int) returns (moved: bool)
      requires updateOn > 0
      modifies this
      ensures (Value(), moved) == Adjusted(old(Value()), down, amount)
      ensures shown == Display(Value(), updateOn, countdown) && countdown == old(countdown)
    {
      var d, a := down, amount;
      if a < 0 {
        a := -a;
        d := !d;
      }
      if d {
        if num <= min + a {
          num := min;
          moved := false;
        } else {
          num := num - a;
          moved := true;
        }
      } else {
        if num >= max - a {
          num := max;
          moved := false;
        } else {
          num := num + a;
          moved := true;
        }
      }
      SendNumStateUpdate();
    }

    /** setMin, which calls setMax and setNum as it needs to. */
    method SetMin(v: int)
      requires updateOn > 0
      modifies this
      ensures Value() == WithMin(old(Value()), v) && countdown == old(countdown)
      ensures shown == if MinRefreshes(old(Value()), v) then Display(Value(), updateOn, countdown) else old(shown)
      decreases if v > max then 1 else 0
    {
      min := v;
      if min > max {
        SetMax(min);
      }
      if min > num {
        SetNum(num);
      }
    }

    /** setMax, which calls setMin and setNum as it needs to. */
    method SetMax(v: int)
      requires updateOn > 0
      modifies this
      ensures Value() == WithMax(old(Value()), v) && countdown == old(countdown)
      ensures shown == if MaxRefreshes(old(Value()), v) then Display(Value(), updateOn, countdown) else old(shown)
      decreases if min > v then 1 else 0
    {
      max := v;
      if min > max {
        SetMin(max);
      }
      if num > max {
        SetNum(max);
      }
    }

    /** setNum: clamp the argument into the bounds, then republish. */
    method SetNum(v: int)
      requires updateOn > 0
      modifies this
      ensures Value() == WithNum(old(Value()), v) && countdown == old(countdown)
      ensures shown == Display(Value(), updateOn, countdown)
    {
      var n := v;
      if n < min {
        n := min;
      } else if n > max {
        n := max;
      }
      if num != n {
        num := n;
      }
      SendNumStateUpdate();
    }

    /** setCountDown: switch the rounding direction and republish. */
    method SetCountDown(countdown: bool)
      requires updateOn > 0
      modifies this
      ensures this.countdown == countdown && Value() == old(Value())
      ensures shown == Display(Value(), updateOn, countdown)
    {
      this.countdown := countdown;
      SendNumStateUpdate();
    }

    /** incNum */
    method IncNum()
      requires updateOn > 0
      modifies this
      ensures Value() == WithNum(old(Value()), old(num) + 1) && countdown == old(countdown)
      ensures shown == Display(Value(), updateOn, countdown)
    {
      SetNum(num + 1);
    }
  }
}
