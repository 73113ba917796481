/**
 * The parts of Go's `strconv` and `time` packages the stores use to render
 * and parse typed values: decimal int64, booleans, and instants.
 * Instants are kept opaque: their RFC 3339 (section 5.6) rendering and
 * parsing are supplied as a `TimeCodec` value by whoever builds a store.
 */
module GoStrconv {
  import opened GoBase

  const MinInt64: int := -0x8000_0000_0000_0000
  const MaxInt64: int := 0x7fff_ffff_ffff_ffff

  predicate IsInt64(n: int) { MinInt64 <= n <= MaxInt64 }

  /** The outcome of a Go parse call: the value it returns and its error. */
  datatype Parsed<T> = Parsed(value: T, err: Option<Error>)

  // ---------------------------------------------------------------- digits

  predicate IsDigit(c: char) { '0' <= c <= '9' }

  predicate AllDigits(s: string) { forall i :: 0 <= i < |s| ==> IsDigit(s[i]) }

  function DigitChar(d: nat): (c: char)
    requires d < 10
    ensures IsDigit(c) && c as int - '0' as int == d
  {
    ('0' as int + d) as char
  }

  /** The number a string of decimal digits denotes. */
  function DecimalValue(s: string): nat
    requires AllDigits(s)
  {
    if |s| == 0 then 0
    else DecimalValue(s[..|s| - 1]) * 10 + (s[|s| - 1] as int - '0' as int)
  }

  /** Decimal rendering of a natural number, without leading zeros. */
  function Digits(n: nat): (s: string)
    ensures |s| > 0 && AllDigits(s)
  {
    if n < 10 then [DigitChar(n)] else Digits(n / 10) + [DigitChar(n % 10)]
  }

  lemma {:induction false} DigitsValue(n: nat)
    ensures DecimalValue(Digits(n)) == n
  {
    if n >= 10 {
      DigitsValue(n / 10);
      var s := Digits(n);
      assert s[..|s| - 1] == Digits(n / 10);
    }
  }

  // --------------------------------------------------------------- integers

  /** strconv.FormatInt(n, 10) */
  function FormatInt(n: int): string
  {
    if n < 0 then "-" + Digits(-n) else Digits(n)
  }

  /** strconv.ParseUint(s, 10, 64) as ParseInt uses it: unbounded digits, or a syntax error. */
  function ParseDigits(s: string): Option<nat>
  {
    if |s| > 0 && AllDigits(s) then Some(DecimalValue(s)) else None
  }

  /**
   * strconv.ParseInt(s, 10, 64): an optional sign and at least one decimal
   * digit. A syntax error returns 0; a value outside int64 returns the
   * nearest bound with a range error.
   */
  function ParseInt(s: string): (r: Parsed<int>)
    ensures IsInt64(r.value)
    ensures r.err == Some(ErrSyntax) ==> r.value == 0
    ensures r.err == None || r.err == Some(ErrSyntax) || r.err == Some(ErrRange)
  {
    if |s| == 0 then Parsed(0, Some(ErrSyntax))
    else
      var neg := s[0] == '-';
      var body := if s[0] == '+' || s[0] == '-' then s[1..] else s;
      match ParseDigits(body)
      case None => Parsed(0, Some(ErrSyntax))
      case Some(un) =>
        if !neg && un > MaxInt64 then Parsed(MaxInt64, Some(ErrRange))
        else if neg && un > -MinInt64 then Parsed(MinInt64, Some(ErrRange))
        else Parsed(if neg then 0 - (un as int) else un as int, None)
  }

  /** Every int64 renders to text that parses back to it without error. */
  lemma FormatIntRoundTrip(n: int)
    requires IsInt64(n)
    ensures ParseInt(FormatInt(n)) == Parsed(n, None)
  {
    var s := FormatInt(n);
    if n < 0 {
      DigitsValue(-n);
      assert s[0] == '-' && s[1..] == Digits(-n);
      assert ParseDigits(s[1..]) == Some(-n);
    } else {
      DigitsValue(n);
      assert IsDigit(s[0]);
      assert ParseDigits(s) == Some(n);
    }
  }

  /** A syntax error is reported exactly when the text is not a signed digit string. */
  lemma ParseIntSyntax(s: string)
    ensures ParseInt(s).err == Some(ErrSyntax) <==>
      var body := if |s| > 0 && (s[0] == '+' || s[0] == '-') then s[1..] else s;
      |body| == 0 || !AllDigits(body)
  {
  }

  // --------------------------------------------------------------- booleans

  /** strconv.FormatBool */
  function FormatBool(b: bool): string
  {
    if b then "true" else "false"
  }

  /** strconv.ParseBool: the six spellings of each value; anything else is a syntax error with false. */
  function ParseBool(s: string): (r: Parsed<bool>)
    ensures r.err == None || r.err == Some(ErrSyntax)
    ensures r.err == Some(ErrSyntax) ==> !r.value
  {
    if s in {"1", "t", "T", "TRUE", "true", "True"} then Parsed(true, None)
    else if s in {"0", "f", "F", "FALSE", "false", "False"} then Parsed(false, None)
    else Parsed(false, Some(ErrSyntax))
  }

  lemma FormatBoolRoundTrip(b: bool)
    ensures ParseBool(FormatBool(b)) == Parsed(b, None)
  {
  }

  // ------------------------------------------------------------------ times

  /** A Go time.Time, as nanoseconds from an arbitrary origin. */
  datatype Time = Time(nanos: int)

  /** The zero time.Time a failed time.Parse returns. */
  const ZeroTime := Time(0)

  /**
   * RFC 3339 (section 5.6) rendering in UTC and parsing, as used by the
   * stores: `format` plays t.UTC().Format(time.RFC3339), `parse` plays
   * time.Parse(time.RFC3339, s).
   */
  datatype TimeCodec = TimeCodec(format: Time -> string, parse: string -> Parsed<Time>)
  {
    /** time.Parse returns the zero time together with its error. */
    ghost predicate Valid()
    {
      forall s :: parse(s).err.Some? ==> parse(s) == Parsed(ZeroTime, Some(ErrTimeParse))
    }
  }
}
