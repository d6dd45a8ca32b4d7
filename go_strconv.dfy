/**
  A model of Go's `strconv.ParseInt(s, 10, 64)`, the integer parser the market
  query binder uses for `int` fields, and of `strconv.FormatInt(n, 10)`, its
  inverse, which serves as the reference the parser is proved against.

  With an explicit base of 10, Go accepts an optional '+' or '-' followed by one
  or more decimal digits (no '_' separators, no prefix, no spaces), and reports
  a range error for any value outside the 64-bit signed range; both kinds of
  error are failures here.
*/
module GoStrconv {
  import opened Wrappers

  const MinInt64: int := -0x8000_0000_0000_0000
  const MaxInt64: int := 0x7FFF_FFFF_FFFF_FFFF

  predicate IsInt64(n: int) {
    MinInt64 <= n <= MaxInt64
  }

  predicate IsDigit(c: char) {
    '0' <= c <= '9'
  }

  predicate AllDigits(s: string) {
    forall i :: 0 <= i < |s| ==> IsDigit(s[i])
  }

  /** The text `ParseInt` accepts before its range check: a sign at most, then digits. */
  predicate IsDecimalLiteral(s: string) {
    if s != [] && (s[0] == '+' || s[0] == '-') then s[1..] != [] && AllDigits(s[1..])
    else s != [] && AllDigits(s)
  }

  function DigitValue(c: char): (d: nat)
    requires IsDigit(c)
    ensures d < 10
  {
    c as int - '0' as int
  }

  function DigitChar(d: nat): (c: char)
    requires d < 10
    ensures IsDigit(c) && DigitValue(c) == d
  {
    ('0' as int + d) as char
  }

  /** The value of a run of decimal digits, most significant first. */
  function DigitsValue(s: string): nat
    requires AllDigits(s)
    decreases |s|
  {
    if s == [] then 0 else DigitsValue(s[..|s| - 1]) * 10 + DigitValue(s[|s| - 1])
  }

  /** The signed value a decimal literal denotes. */
  function LiteralValue(s: string): int
    requires IsDecimalLiteral(s)
  {
    if s[0] == '-' then -(DigitsValue(s[1..]) as int)
    else if s[0] == '+' then DigitsValue(s[1..])
    else DigitsValue(s)
  }

  /**
    `strconv.ParseInt(s, 10, 64)`: `None` stands for Go's syntax and range errors.
    It accepts exactly the decimal literals whose value fits in 64 bits, and
    returns that value.
  */
  function ParseInt64(s: string): (r: Option<int>)
    ensures r.Some? <==> IsDecimalLiteral(s) && IsInt64(LiteralValue(s))
    ensures r.Some? ==> r.value == LiteralValue(s)
  {
    if s == [] then None
    else
      var neg := s[0] == '-';
      var body := if s[0] == '+' || s[0] == '-' then s[1..] else s;
      if body == [] || !AllDigits(body) then None
      else
        var magnitude: int := DigitsValue(body);
        var n := if neg then -magnitude else magnitude;
        if IsInt64(n) then Some(n) else None
  }

  /** The decimal digits of `n`, without leading zeros. */
  function Digits(n: nat): (s: string)
    ensures s != [] && AllDigits(s)
    decreases n
  {
    if n < 10 then [DigitChar(n)] else Digits(n / 10) + [DigitChar(n % 10)]
  }

  /** `strconv.FormatInt(n, 10)`. */
  function FormatInt(n: int): string
  {
    if n < 0 then "-" + Digits(-n) else Digits(n)
  }

  lemma {:induction false} DigitsValueOfDigits(n: nat)
    ensures DigitsValue(Digits(n)) == n
    decreases n
  {
    var s := Digits(n);
    if n >= 10 {
      DigitsValueOfDigits(n / 10);
      assert s[..|s| - 1] == Digits(n / 10);
    }
  }

  lemma {:induction false} DigitsValueLeadingZero(d: string)
    requires AllDigits(d)
    ensures AllDigits("0" + d) && DigitsValue("0" + d) == DigitsValue(d)
    decreases |d|
  {
    var z := "0" + d;
    if d != [] {
      assert z[..|z| - 1] == "0" + d[..|d| - 1];
      DigitsValueLeadingZero(d[..|d| - 1]);
    }
  }

  /** A '+' sign is accepted and changes nothing: "+d" parses as "d" does. */
  lemma PlusSignIgnored(d: string)
    requires d != [] && AllDigits(d)
    ensures ParseInt64("+" + d) == ParseInt64(d)
  {
  }

  /** Leading zeros are accepted and change nothing, after a sign or without one. */
  lemma LeadingZerosIgnored(d: string)
    requires d != [] && AllDigits(d)
    ensures ParseInt64("0" + d) == ParseInt64(d)
    ensures ParseInt64("-0" + d) == ParseInt64("-" + d)
    ensures ParseInt64("+0" + d) == ParseInt64(d)
  {
    DigitsValueLeadingZero(d);
    assert ("-0" + d)[1..] == "0" + d;
    assert ("-" + d)[1..] == d;
    assert ("+0" + d)[1..] == "0" + d;
  }

  /** Minus zero is zero. */
  lemma MinusZeroIsZero()
    ensures ParseInt64("-0") == Some(0)
  {
  }

  /** Every 64-bit integer survives formatting and parsing back. */
  lemma ParseFormatRoundTrip(n: int)
    requires IsInt64(n)
    ensures ParseInt64(FormatInt(n)) == Some(n)
  {
    var s := FormatInt(n);
    if n < 0 {
      DigitsValueOfDigits(-n);
      assert s[1..] == Digits(-n);
    } else {
      DigitsValueOfDigits(n);
    }
  }

  /** Concrete inputs: signed and unsigned digit runs parse; letters, an empty string, a bare sign, '_' and a leading space do not. */
  lemma ParseExamples()
    ensures ParseInt64("42") == Some(42)
    ensures ParseInt64("-7") == Some(-7)
    ensures ParseInt64("+007") == Some(7)
    ensures ParseInt64("abc") == None
    ensures ParseInt64("") == None
    ensures ParseInt64("-") == None
    ensures ParseInt64("1_000") == None
    ensures ParseInt64(" 1") == None
  {
    assert "42"[..1] == "4" && "4"[..0] == "";
    assert "+007"[1..] == "007" && "007"[..2] == "00" && "00"[..1] == "0" && "0"[..0] == "";
    assert "-7"[1..] == "7" && "7"[..0] == "";
    assert !IsDigit("1_000"[1]);
    assert !IsDigit(" 1"[0]);
  }

  /** The range check: the int64 bounds parse, one past either bound does not. */
  lemma ParseBounds()
    ensures ParseInt64(FormatInt(MaxInt64)) == Some(MaxInt64)
    ensures ParseInt64(FormatInt(MinInt64)) == Some(MinInt64)
    ensures ParseInt64(FormatInt(MaxInt64 + 1)) == None
    ensures ParseInt64(FormatInt(MinInt64 - 1)) == None
  {
    ParseFormatRoundTrip(MaxInt64);
    ParseFormatRoundTrip(MinInt64);
    var s := FormatInt(MaxInt64 + 1);
    DigitsValueOfDigits(MaxInt64 + 1);
    var t := FormatInt(MinInt64 - 1);
    DigitsValueOfDigits(-(MinInt64 - 1));
    assert t[1..] == Digits(-(MinInt64 - 1));
  }
}
