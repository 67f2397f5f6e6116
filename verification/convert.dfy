/** convert.go: turning request strings into typed values. Each converter
    returns the parsed value and an ok flag that is true exactly when the
    underlying strconv call reported no error. */
module Convert {
  import opened Strconv

  /** The (value, ok) pair every converter returns. */
  datatype Parsed<T> = Parsed(value: T, ok: bool)

  /** Go's fixed-width integer types; `int` and `uint` are 64 bits wide. */
  type GoInt = x: int | -0x8000_0000_0000_0000 <= x < 0x8000_0000_0000_0000
  type GoInt32 = x: int | -0x8000_0000 <= x < 0x8000_0000
  type GoInt64 = GoInt
  type GoUint = x: int | 0 <= x < 0x1_0000_0000_0000_0000
  type GoUint32 = x: int | 0 <= x < 0x1_0000_0000
  type GoUint64 = GoUint

  /** ToBool: ok for the twelve spellings strconv.ParseBool knows, and the
      value is true only for the six "true" spellings. */
  function ToBool(value: string): (r: Parsed<bool>)
    ensures r.ok <==> value in TrueSpellings || value in FalseSpellings
    ensures r.value <==> value in TrueSpellings
  {
    var p := ParseBool(value);
    Parsed(p.value, p.err == NoError)
  }

  /** ToString: the input itself, ok when it is not empty. */
  function ToString(value: string): (r: Parsed<string>)
    ensures r.value == value
    ensures r.ok <==> value != ""
  {
    Parsed(value, |value| > 0)
  }

  /** The signed converters: ok exactly for an optionally signed run of
      digits whose value fits the width; the value is then that number.
      Otherwise the value is what strconv.ParseInt returns with its error:
      the bound on the sign's side after a range error, 0 after a syntax
      error. */
  function ToInt(value: string): (r: Parsed<GoInt>)
    ensures r.ok <==> IsSignedDecimal(value) && MinInt(WordSize) <= SignedValue(value) <= MaxInt(WordSize)
    ensures r.ok ==> r.value == SignedValue(value)
    ensures !r.ok ==> r.value == (if !SignedOverflow(value, WordSize) then 0
                                 else if value[0] == '-' then MinInt(WordSize) else MaxInt(WordSize))
  {
    var p := ParseInt(value, WordSize);
    Parsed(p.value, p.err == NoError)
  }

  function ToInt32(value: string): (r: Parsed<GoInt32>)
    ensures r.ok <==> IsSignedDecimal(value) && -0x8000_0000 <= SignedValue(value) < 0x8000_0000
    ensures r.ok ==> r.value == SignedValue(value)
    ensures !r.ok ==> r.value == (if !SignedOverflow(value, Bits32) then 0
                                 else if value[0] == '-' then MinInt(Bits32) else MaxInt(Bits32))
  {
    var p := ParseInt(value, Bits32);
    Parsed(p.value, p.err == NoError)
  }

  function ToInt64(value: string): (r: Parsed<GoInt64>)
    ensures r.ok <==> (IsSignedDecimal(value)
                       && -0x8000_0000_0000_0000 <= SignedValue(value) < 0x8000_0000_0000_0000)
    ensures r.ok ==> r.value == SignedValue(value)
    ensures !r.ok ==> r.value == (if !SignedOverflow(value, Bits64) then 0
                                 else if value[0] == '-' then MinInt(Bits64) else MaxInt(Bits64))
  {
    var p := ParseInt(value, Bits64);
    Parsed(p.value, p.err == NoError)
  }

  /** The unsigned converters: ok exactly for a run of digits (no sign at
      all) whose value fits the width. Otherwise the value is the largest
      value of the width when a leading run of digits overflows it, and 0
      after a syntax error. */
  function ToUint(value: string): (r: Parsed<GoUint>)
    ensures r.ok <==> IsDecimal(value) && DecimalValue(value) <= MaxUint(WordSize)
    ensures r.ok ==> r.value == DecimalValue(value)
    ensures !r.ok ==> r.value == (if OverflowsAt(value, MaxUint(WordSize)) then MaxUint(WordSize) else 0)
  {
    var p := ParseUint(value, WordSize);
    Parsed(p.value, p.err == NoError)
  }

  function ToUint32(value: string): (r: Parsed<GoUint32>)
    ensures r.ok <==> IsDecimal(value) && DecimalValue(value) < 0x1_0000_0000
    ensures r.ok ==> r.value == DecimalValue(value)
    ensures !r.ok ==> r.value == (if OverflowsAt(value, MaxUint(Bits32)) then MaxUint(Bits32) else 0)
  {
    var p := ParseUint(value, Bits32);
    Parsed(p.value, p.err == NoError)
  }

  function ToUint64(value: string): (r: Parsed<GoUint64>)
    ensures r.ok <==> IsDecimal(value) && DecimalValue(value) < 0x1_0000_0000_0000_0000
    ensures r.ok ==> r.value == DecimalValue(value)
    ensures !r.ok ==> r.value == (if OverflowsAt(value, MaxUint(Bits64)) then MaxUint(Bits64) else 0)
  {
    var p := ParseUint(value, Bits64);
    Parsed(p.value, p.err == NoError)
  }

  /** Every value of each type is read back from its decimal rendering. */
  lemma ConvertRoundTrip(n: int)
    ensures -0x8000_0000_0000_0000 <= n < 0x8000_0000_0000_0000 ==>
      ToInt(FormatInt(n)) == Parsed(n, true) && ToInt64(FormatInt(n)) == Parsed(n, true)
    ensures -0x8000_0000 <= n < 0x8000_0000 ==> ToInt32(FormatInt(n)) == Parsed(n, true)
    ensures 0 <= n < 0x1_0000_0000_0000_0000 ==>
      ToUint(FormatUint(n)) == Parsed(n, true) && ToUint64(FormatUint(n)) == Parsed(n, true)
    ensures 0 <= n < 0x1_0000_0000 ==> ToUint32(FormatUint(n)) == Parsed(n, true)
  {
    if -0x8000_0000_0000_0000 <= n < 0x8000_0000_0000_0000 {
      ParseFormatInt(n, WordSize);
      ParseFormatInt(n, Bits64);
    }
    if -0x8000_0000 <= n < 0x8000_0000 {
      ParseFormatInt(n, Bits32);
    }
    if 0 <= n < 0x1_0000_0000_0000_0000 {
      ParseFormatUint(n, WordSize);
      ParseFormatUint(n, Bits64);
    }
    if 0 <= n < 0x1_0000_0000 {
      ParseFormatUint(n, Bits32);
    }
  }

  /** Both bools are read back from their rendering. */
  lemma ConvertBoolRoundTrip(b: bool)
    ensures ToBool(FormatBool(b)) == Parsed(b, true)
  {
    ParseFormatBool(b);
  }

  /** A sign is never accepted by the unsigned converters, whatever follows it. */
  lemma UnsignedRejectsSign(value: string)
    requires |value| > 0 && (value[0] == '-' || value[0] == '+')
    ensures ToUint(value) == Parsed(0, false)
    ensures ToUint32(value) == Parsed(0, false)
    ensures ToUint64(value) == Parsed(0, false)
  {
  }

  /** The cases the converters' table tests pin down. */
  lemma ConvertExamples()
    ensures ToBool("true") == Parsed(true, true)
    ensures ToBool("false") == Parsed(false, true)
    ensures ToBool("someting else") == Parsed(false, false)
    ensures ToString("test") == Parsed("test", true)
    ensures ToString("") == Parsed("", false)
    ensures ToInt("-03") == Parsed(-3, true)
    ensures ToInt("03") == Parsed(3, true)
    ensures ToInt("2.1") == Parsed(0, false)
    ensures ToInt32("-1") == Parsed(-1, true)
    ensures ToUint("02") == Parsed(2, true)
    ensures ToUint("-1") == Parsed(0, false)
  {
  }

  /** A too large int32 reads as the int32 maximum. */
  lemma Int32OverflowExample(big: string)
    requires big == "3000000000"
    ensures ToInt32(big) == Parsed(0x7FFF_FFFF, false)
  {
    assert IsDecimal(big) && big[0] == '3';
    HornerScale(3, big[1..]);
    assert |big[1..]| == 9;
    assert Pow10(9) == 1_000_000_000;
    assert DecimalValue(big) >= 3_000_000_000;
    assert Magnitude(big) == big;
    assert SignedOverflow(big, Bits32);
  }

  /** An unsigned scan that overflows before a non-digit reports the range
      error, and so the maximum, rather than the syntax error. */
  lemma Uint32OverflowExample(s: string)
    requires s == "99999999999x"
    ensures ToUint32(s) == Parsed(0xFFFF_FFFF, false)
  {
    var run := s[..11];
    assert AllDigits(run) && run[0] == '9';
    HornerScale(9, run[1..]);
    assert Pow10(|run[1..]|) == 10_000_000_000;
    assert DecimalValue(run) >= 90_000_000_000;
    assert OverflowsAt(s, MaxUint(Bits32));
  }

  /** Ten to the power `n`. */
  function Pow10(n: nat): nat
  {
    if n == 0 then 1 else 10 * Pow10(n - 1)
  }

  /** Reading the digits `s` after `acc` gives at least `acc` shifted left by
      as many decimal places as `s` has digits. */
  lemma {:induction false} HornerScale(acc: nat, s: string)
    requires AllDigits(s)
    ensures Horner(acc, s) >= acc * Pow10(|s|)
    decreases |s|
  {
    if |s| > 0 {
      var next := acc * 10 + DigitValue(s[0]);
      var p := Pow10(|s| - 1);
      HornerScale(next, s[1..]);
      assert Horner(acc, s) == Horner(next, s[1..]);
      MulMonotone(next, acc * 10, p);
      assert acc * 10 * p == acc * (10 * p);
    }
  }

  lemma MulMonotone(x: nat, y: nat, p: nat)
    requires x >= y
    ensures x * p >= y * p
  {
  }
}
