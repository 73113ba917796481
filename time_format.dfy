/**
 * The clock display formatters: html/javascript/time.js and
 * cmd/scoreboard/html/json/time.js turn a time in integer milliseconds
 * into "m:ss.t" (or "m:ss" in the short form): an optional "-", the whole
 * minutes (not wrapped at 60), the seconds within the minute padded to two
 * digits, and the tenths. JavaScript numbers are restricted to integers
 * here; `toString` of a whole number that is not negative is its decimal
 * digits.
 */
module TimeFormat {
  import opened GoBase
  import opened GoStrconv

  /** The pieces of a time: its sign, whole minutes, seconds within the minute, and tenths. */
  datatype Parts = Parts(neg: bool, min: nat, sec: nat, tenths: nat)

  function Abs(t: int): nat
  {
    if t < 0 then -t else t
  }

  /** What the formatter's arithmetic computes, stated with whole-number division. */
  function PartsOf(t: int): (p: Parts)
    ensures p.sec < 60 && p.tenths < 10 && p.neg == (t < 0)
  {
    var a := Abs(t);
    Parts(t < 0, a / 60000, (a / 1000) % 60, (a % 1000) / 100)
  }

  /**
   * The pieces locate the time to the tenth: minutes, seconds and tenths
   * add up to the magnitude less at most 99 ms.
   */
  lemma PartsBound(t: int)
    ensures var p := PartsOf(t);
      p.min * 60000 + p.sec * 1000 + p.tenths * 100 <= Abs(t) < p.min * 60000 + p.sec * 1000 + p.tenths * 100 + 100
  {
    var a := Abs(t);
    var s := a / 1000;
    assert a == s * 1000 + a % 1000;
    assert s == (s / 60) * 60 + s % 60;
    assert a / 60000 == s / 60 by { DivDiv(a); }
    var ms := a % 1000;
    assert ms == (ms / 100) * 100 + ms % 100;
  }

  lemma DivDiv(a: nat)
    ensures a / 60000 == (a / 1000) / 60
  {
    var s := a / 1000;
    var m := s / 60;
    assert a == s * 1000 + a % 1000;
    assert s == m * 60 + s % 60;
    assert a == m * 60000 + ((s % 60) * 1000 + a % 1000);
    assert 0 <= (s % 60) * 1000 + a % 1000 < 60000;
  }

  /** No other choice of pieces in range meets that bound: the pieces are determined by the time. */
  lemma PartsUnique(t: int, m: nat, s: nat, d: nat)
    requires s < 60 && d < 10
    requires m * 60000 + s * 1000 + d * 100 <= Abs(t) < m * 60000 + s * 1000 + d * 100 + 100
    ensures PartsOf(t) == Parts(t < 0, m, s, d)
  {
    var a := Abs(t);
    PartsBound(t);
    var p := PartsOf(t);
    var x := m * 600 + s * 10 + d;
    var y := p.min * 600 + p.sec * 10 + p.tenths;
    assert x == y;
    TenthsUnique(m, s, d, p.min, p.sec, p.tenths);
  }

  lemma TenthsUnique(m: nat, s: nat, d: nat, m2: nat, s2: nat, d2: nat)
    requires s < 60 && d < 10 && s2 < 60 && d2 < 10
    requires m * 600 + s * 10 + d == m2 * 600 + s2 * 10 + d2
    ensures m == m2 && s == s2 && d == d2
  {
    var x := m * 600 + s * 10 + d;
    assert x / 600 == m && x % 600 == s * 10 + d;
    assert x / 600 == m2 && x % 600 == s2 * 10 + d2;
    assert (s * 10 + d) / 10 == s && (s * 10 + d) % 10 == d;
    assert (s2 * 10 + d2) / 10 == s2 && (s2 * 10 + d2) % 10 == d2;
  }

  /** pad(v, 2): `v` with zeros in front until it is two characters long. */
  function Padded(v: string): (r: string)
    ensures |r| == if |v| < 2 then 2 else |v|
    ensures r[|r| - |v|..] == v && forall i :: 0 <= i < |r| - |v| ==> r[i] == '0'
  {
    if |v| < 2 then Zeros(2 - |v|) + v else v
  }

  function Zeros(n: nat): (z: string)
    ensures |z| == n && forall i :: 0 <= i < n ==> z[i] == '0'
  {
    seq(n, _ => '0')
  }

  lemma ZerosStep(n: nat, v: string)
    ensures "0" + (Zeros(n) + v) == Zeros(n + 1) + v
  {
    assert "0" + Zeros(n) == Zeros(n + 1);
  }

  /** The sign a negative time is written with. */
  function Sign(neg: bool): string
  {
    if neg then "-" else ""
  }

  /** Minutes, ':', the padded seconds, then '.' and the tenth unless short. */
  function Clock(p: Parts, short: bool): string
    requires p.tenths < 10
  {
    var mmss := Digits(p.min) + ":" + Padded(Digits(p.sec));
    if short then mmss else mmss + ("." + [DigitChar(p.tenths)])
  }

  /** The formatter's text for a time in milliseconds. */
  function Human(t: int, short: bool): string
  {
    var p := PartsOf(t);
    Sign(p.neg) + Clock(p, short)
  }

  /** The short form is the long form without its last two characters. */
  lemma ShortDropsTenths(t: int)
    ensures Human(t, false) == Human(t, true) + ("." + [DigitChar(PartsOf(t).tenths)])
  {
  }

  /** A negative time reads as its magnitude with a leading '-'. */
  lemma NegativeIsSigned(t: int, short: bool)
    requires t > 0
    ensures Human(-t, short) == "-" + Human(t, short)
  {
    var p := PartsOf(t);
    assert PartsOf(-t) == p.(neg := true);
    assert Human(t, short) == "" + Clock(p, short) == Clock(p, short);
  }

  /** Two-digit seconds: the padded seconds are exactly two digits. */
  lemma SecondsTwoDigits(sec: nat)
    requires sec < 60
    ensures |Padded(Digits(sec))| == 2 && AllDigits(Padded(Digits(sec)))
    ensures DecimalValue(Padded(Digits(sec))) == sec
  {
    var d := Digits(sec);
    DigitsValue(sec);
    if sec < 10 {
      assert d == [DigitChar(sec)];
      assert Padded(d) == ['0', DigitChar(sec)];
      assert Padded(d)[..1] == ['0'];
    } else {
      assert d == Digits(sec / 10) + [DigitChar(sec % 10)];
      assert Digits(sec / 10) == [DigitChar(sec / 10)];
    }
  }

  /**
   * Reading a long-form text back: an optional '-', digits up to the ':',
   * two digits of seconds, '.', one digit of tenths.
   */
  function ReadHuman(s: string): Option<Parts>
  {
    if |s| > 0 && s[0] == '-' then ReadUnsigned(true, s[1..]) else ReadUnsigned(false, s)
  }

  function ReadUnsigned(neg: bool, body: string): Option<Parts>
  {
    var colon := IndexChar(body, ':');
    if colon < 1 || |body| != colon + 5 || body[colon + 3] != '.' then None
    else
      var m := body[..colon];
      var sec := body[colon + 1..colon + 3];
      var d := body[colon + 4];
      if AllDigits(m) && AllDigits(sec) && IsDigit(d)
      then Some(Parts(neg, DecimalValue(m), DecimalValue(sec), d as int - '0' as int))
      else None
  }

  /** The long form always reads back as the pieces it was made from. */
  lemma ReadHumanRoundTrip(t: int)
    ensures ReadHuman(Human(t, false)) == Some(PartsOf(t))
  {
    var p := PartsOf(t);
    SecondsTwoDigits(p.sec);
    DigitsValue(p.min);
    ReadBody(p.neg, Digits(p.min), Padded(Digits(p.sec)), DigitChar(p.tenths));
    SignSplit(p.neg, Clock(p, false));
  }

  /** A leading '-' is the sign, provided the rest does not start with one. */
  lemma SignSplit(neg: bool, body: string)
    requires |body| > 0 && '0' <= body[0] <= '9'
    ensures ReadHuman(Sign(neg) + body) == ReadUnsigned(neg, body)
  {
    if neg {
      assert ("-" + body)[1..] == body;
    } else {
      assert "" + body == body;
    }
  }

  lemma ReadBody(neg: bool, ms: string, ss: string, d: char)
    requires |ms| > 0 && AllDigits(ms) && |ss| == 2 && AllDigits(ss) && IsDigit(d)
    ensures ReadUnsigned(neg, ms + ":" + ss + ("." + [d])) == Some(Parts(neg, DecimalValue(ms), DecimalValue(ss), d as int - '0' as int))
  {
    var body := ms + ":" + ss + ("." + [d]);
    BodyShape(ms, ss, d);
    ReadUnsignedAt(neg, body, |ms|);
  }

  lemma BodyShape(ms: string, ss: string, d: char)
    requires AllDigits(ms) && |ss| == 2
    ensures var body := ms + ":" + ss + ("." + [d]);
      && IndexChar(body, ':') == |ms| && |body| == |ms| + 5
      && body[..|ms|] == ms && body[|ms| + 1..|ms| + 3] == ss && body[|ms| + 3] == '.' && body[|ms| + 4] == d
  {
    var body := ms + ":" + ss + ("." + [d]);
    assert forall j :: 0 <= j < |ms| ==> body[j] == ms[j] && IsDigit(ms[j]);
    IndexCharAt(body, ':', |ms|);
    assert body[..|ms|] == ms;
    assert body[|ms| + 1..|ms| + 3] == ss;
  }

  /** ReadUnsigned on a text whose first ':' is at `colon` and whose pieces are digits. */
  lemma ReadUnsignedAt(neg: bool, body: string, colon: nat)
    requires 1 <= colon && IndexChar(body, ':') == colon && |body| == colon + 5 && body[colon + 3] == '.'
    requires AllDigits(body[..colon]) && AllDigits(body[colon + 1..colon + 3]) && IsDigit(body[colon + 4])
    ensures ReadUnsigned(neg, body) == Some(Parts(neg, DecimalValue(body[..colon]),
      DecimalValue(body[colon + 1..colon + 3]), body[colon + 4] as int - '0' as int))
  {
  }

  lemma IndexCharAt(s: string, c: char, i: nat)
    requires i < |s| && s[i] == c && forall j :: 0 <= j < i ==> s[j] != c
    ensures IndexChar(s, c) == i
  {
  }

  /** pad: the `while (v.length < 2) v = '0' + v` loop. */
  method Pad(v: string) returns (r: string)
    ensures r == Padded(v)
  {
    r := v;
    assert r == Zeros(0) + v;
    while |r| < 2
      invariant |v| <= |r| <= (if |v| < 2 then 2 else |v|) && r == Zeros(|r| - |v|) + v
      decreases 2 - |r|
    {
      ZerosStep(|r| - |v|, v);
      r := "0" + r;
    }
  }

  /**
   * timeComputerToHuman(t, s) of html/javascript/time.js: take the sign
   * off, then peel milliseconds, seconds and minutes off the magnitude.
   */
  method TimeComputerToHuman(t: int, short: bool) returns (r: string)
    ensures r == Human(t, short)
  {
    var neg, ms, subSec, sec, min;
    neg, ms, subSec, sec, min := Peel(t);
    var padded := Pad(Digits(sec));
    var mmss := Digits(min) + ":" + padded;
    if short {
      r := neg + mmss;
    } else {
      r := neg + (mmss + ("." + [DigitChar(subSec)]));
    }
  }

  /**
   * The arithmetic both formatters share: the sign, then `ms = t % 1000`,
   * `subSec = floor(ms / 100)`, `t = (t - ms) / 1000`, `sec = t % 60`,
   * `t = (t - sec) / 60`, `min = t`.
   */
  method Peel(t0: int) returns (neg: string, ms: nat, subSec: nat, sec: nat, min: nat)
    ensures neg == Sign(t0 < 0)
    ensures var p := PartsOf(t0); min == p.min && sec == p.sec && subSec == p.tenths && ms == Abs(t0) % 1000
  {
    var t := t0;
    neg := "";
    if t < 0 {
      neg := "-";
      t := -t;
    }
    ms := t % 1000;
    subSec := ms / 100;
    assert (t - ms) % 1000 == 0 && (t - ms) / 1000 == t / 1000;
    t := (t - ms) / 1000;
    sec := t % 60;
    assert (t - sec) / 60 == t / 60;
    t := (t - sec) / 60;
    min := t;
    DivDiv(Abs(t0));
  }
}

/**
 * cmd/scoreboard/html/json/time.js: the same arithmetic and padding,
 * always in the long form (its logging call is left out).
 */
module JsonTimeFormat {
  import opened GoStrconv
  import TimeFormat

  /** timeComputerToHuman(t): the long form of the other formatter, for every input. */
  method TimeComputerToHuman(t: int) returns (r: string)
    ensures r == TimeFormat.Human(t, false)
  {
    var neg, ms, subSec, sec, min := TimeFormat.Peel(t);
    var padded := TimeFormat.Pad(Digits(sec));
    r := neg + (Digits(min) + ":" + padded + ("." + [DigitChar(subSec)]));
  }
}
