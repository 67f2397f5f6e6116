/** The parts of Go's `strconv` package that the converters and the CORS
    engine call: base-10 `ParseUint`/`ParseInt` with a bit size, `ParseBool`,
    and the decimal renderings `FormatUint`/`FormatInt`/`FormatBool`.
    Integers are unbounded here; the bit size is an explicit range check. */
module Strconv {

  /** The error a parse reports: none, a malformed input, or a value outside
      the bit size (strconv.ErrSyntax / strconv.ErrRange). */
  datatype NumError = NoError | ErrSyntax | ErrRange

  /** The (value, error) pair a numeric parse returns. */
  datatype NumResult = NumResult(value: int, err: NumError)

  /** The (value, error) pair strconv.ParseBool returns. */
  datatype BoolResult = BoolResult(value: bool, err: NumError)

  /** The bit sizes convert.go passes: 0 (the platform word), 32 and 64. */
  datatype BitSize = WordSize | Bits32 | Bits64

  /** strconv.IntSize on the 64-bit platforms the model assumes. */
  const IntSize: nat := 64

  function Width(b: BitSize): nat
  {
    match b
    case WordSize => IntSize
    case Bits32 => 32
    case Bits64 => 64
  }

  /** 2 to the power Width(b). */
  function UintLimit(b: BitSize): nat
  {
    if Width(b) == 32 then 0x1_0000_0000 else 0x1_0000_0000_0000_0000
  }

  /** The largest unsigned value of the bit size. */
  function MaxUint(b: BitSize): nat
  {
    UintLimit(b) - 1
  }

  /** The smallest and largest signed values of the bit size. */
  function MinInt(b: BitSize): int
  {
    -(UintLimit(b) / 2)
  }

  function MaxInt(b: BitSize): int
  {
    UintLimit(b) / 2 - 1
  }

  predicate IsDigit(c: char)
  {
    '0' <= c <= '9'
  }

  function DigitValue(c: char): nat
    requires IsDigit(c)
  {
    c as int - '0' as int
  }

  function DigitChar(d: nat): (c: char)
    requires d < 10
    ensures IsDigit(c) && DigitValue(c) == d
  {
    (d + '0' as int) as char
  }

  predicate AllDigits(s: string)
  {
    forall i :: 0 <= i < |s| ==> IsDigit(s[i])
  }

  /** A non-empty run of decimal digits; leading zeros are allowed. */
  predicate IsDecimal(s: string)
  {
    |s| > 0 && AllDigits(s)
  }

  /** The value of the digits `s` read after an already accumulated `acc`,
      most significant digit first. */
  function Horner(acc: nat, s: string): nat
    requires AllDigits(s)
    decreases |s|
  {
    if |s| == 0 then acc else Horner(acc * 10 + DigitValue(s[0]), s[1..])
  }

  /** The number a run of decimal digits denotes. */
  function DecimalValue(s: string): nat
    requires AllDigits(s)
  {
    Horner(0, s)
  }

  /** Reading more digits never makes the accumulated value smaller. */
  lemma {:induction false} HornerAtLeast(acc: nat, s: string)
    ensures AllDigits(s) ==> Horner(acc, s) >= acc
    decreases |s|
  {
    if |s| > 0 && AllDigits(s) {
      assert AllDigits(s[1..]);
      HornerAtLeast(acc * 10 + DigitValue(s[0]), s[1..]);
    }
  }

  /** Appending one digit multiplies the value by ten and adds the digit. */
  lemma {:induction false} HornerSnoc(acc: nat, s: string, c: char)
    requires AllDigits(s) && IsDigit(c)
    ensures AllDigits(s + [c])
    ensures Horner(acc, s + [c]) == Horner(acc, s) * 10 + DigitValue(c)
    decreases |s|
  {
    if |s| > 0 {
      assert (s + [c])[1..] == s[1..] + [c];
      HornerSnoc(acc * 10 + DigitValue(s[0]), s[1..], c);
    }
  }

  /** The digit loop of ParseUint in base 10: each character must be a digit,
      and the accumulated value must stay at most `max`. Go stops at the first
      offending character, so an overflow reports ErrRange (and `max`) even if
      a non-digit follows it, and a non-digit reports ErrSyntax (and 0). */
  function ScanDigits(s: string, acc: nat, max: nat): (r: NumResult)
    requires acc <= max
    ensures r.err == NoError <==> AllDigits(s) && Horner(acc, s) <= max
    ensures r.err == NoError ==> r.value == Horner(acc, s)
    ensures r.err == ErrRange ==> r.value == max
    ensures r.err == ErrSyntax ==> r.value == 0 && !AllDigits(s)
    decreases |s|
  {
    if |s| == 0 then NumResult(acc, NoError)
    else if !IsDigit(s[0]) then NumResult(0, ErrSyntax)
    else
      var n := acc * 10 + DigitValue(s[0]);
      HornerAtLeast(n, s[1..]);
      assert AllDigits(s) <==> AllDigits(s[1..]);
      if n > max then NumResult(max, ErrRange)
      else ScanDigits(s[1..], n, max)
  }

  /** Scanning fails with ErrRange exactly when some leading run of digits
      already exceeds `max`, whatever follows that run. */
  lemma {:induction false} ScanDigitsRange(s: string, acc: nat, max: nat)
    requires acc <= max
    ensures ScanDigits(s, acc, max).err == ErrRange
      <==> exists k :: 0 < k <= |s| && AllDigits(s[..k]) && Horner(acc, s[..k]) > max
    decreases |s|
  {
    if |s| > 0 && !IsDigit(s[0]) {
      forall k | 0 < k <= |s|
        ensures !AllDigits(s[..k])
      {
        assert s[..k][0] == s[0];
      }
    } else if |s| > 0 {
      var n := acc * 10 + DigitValue(s[0]);
      assert AllDigits(s[..1]) && s[..1][1..] == [];
      assert Horner(acc, s[..1]) == n;
      if n <= max {
        ScanDigitsRange(s[1..], n, max);
        forall k | 1 < k <= |s| && AllDigits(s[..k])
          ensures AllDigits(s[1..][..k - 1]) && Horner(acc, s[..k]) == Horner(n, s[1..][..k - 1])
        {
          assert s[..k][1..] == s[1..][..k - 1];
        }
        forall k | 0 < k <= |s| - 1 && AllDigits(s[1..][..k])
          ensures AllDigits(s[..k + 1]) && Horner(acc, s[..k + 1]) == Horner(n, s[1..][..k])
        {
          assert s[..k + 1][1..] == s[1..][..k];
          assert s[..k + 1][0] == s[0];
        }
      }
    }
  }

  /** Some leading run of digits of `s` exceeds `max`: where ParseUint stops
      with ErrRange. */
  ghost predicate OverflowsAt(s: string, max: nat)
  {
    exists k :: 0 < k <= |s| && AllDigits(s[..k]) && DecimalValue(s[..k]) > max
  }

  /** strconv.ParseUint(s, 10, bitSize): digits only, no sign. An input is
      out of range as soon as a leading run of its digits is, even when a
      non-digit follows; every other failure is a syntax error. */
  function ParseUint(s: string, b: BitSize): (r: NumResult)
    ensures r.err == NoError <==> IsDecimal(s) && DecimalValue(s) <= MaxUint(b)
    ensures r.err == NoError ==> r.value == DecimalValue(s)
    ensures r.err == ErrRange <==> OverflowsAt(s, MaxUint(b))
    ensures r.err == ErrRange ==> r.value == MaxUint(b)
    ensures r.err == ErrSyntax ==> r.value == 0 && !IsDecimal(s)
    ensures 0 <= r.value <= MaxUint(b)
  {
    if |s| == 0 then NumResult(0, ErrSyntax)
    else
      ScanDigitsRange(s, 0, MaxUint(b));
      ScanDigits(s, 0, MaxUint(b))
  }

  /** The input without its leading '+' or '-', if it has one. */
  function Magnitude(s: string): string
  {
    if |s| > 0 && (s[0] == '+' || s[0] == '-') then s[1..] else s
  }

  /** An optional sign followed by a non-empty run of digits. */
  predicate IsSignedDecimal(s: string)
  {
    IsDecimal(Magnitude(s))
  }

  /** The number a signed decimal denotes. */
  function SignedValue(s: string): int
    requires IsSignedDecimal(s)
  {
    var m: int := DecimalValue(Magnitude(s));
    if s[0] == '-' then -m else m
  }

  /** The magnitude overflows the unsigned range as ParseUint scans it, or
      it is a valid number outside the signed range. */
  ghost predicate SignedOverflow(s: string, b: BitSize)
  {
    || OverflowsAt(Magnitude(s), MaxUint(b))
    || (IsSignedDecimal(s) && !(MinInt(b) <= SignedValue(s) <= MaxInt(b)))
  }

  /** strconv.ParseInt(s, 10, bitSize): the sign is taken off, the rest goes
      through ParseUint, and an out-of-range magnitude is clamped to the
      nearest bound of the signed range with ErrRange. */
  function ParseInt(s: string, b: BitSize): (r: NumResult)
    ensures r.err == NoError <==> IsSignedDecimal(s) && MinInt(b) <= SignedValue(s) <= MaxInt(b)
    ensures r.err == NoError ==> r.value == SignedValue(s)
    ensures r.err == ErrRange <==> SignedOverflow(s, b)
    ensures r.err == ErrRange ==> |s| > 0 && r.value == (if s[0] == '-' then MinInt(b) else MaxInt(b))
    ensures r.err == ErrSyntax ==> r.value == 0 && !IsSignedDecimal(s)
    ensures MinInt(b) <= r.value <= MaxInt(b)
  {
    if |s| == 0 then NumResult(0, ErrSyntax)
    else
      var neg := s[0] == '-';
      var u := ParseUint(Magnitude(s), b);
      if u.err != NoError && u.err != ErrRange then NumResult(0, u.err)
      else
        var cutoff := UintLimit(b) / 2;
        if !neg && u.value >= cutoff then NumResult(cutoff - 1, ErrRange)
        else if neg && u.value > cutoff then NumResult(-cutoff, ErrRange)
        else NumResult(if neg then -u.value else u.value, NoError)
  }

  /** strconv.FormatUint(n, 10): the canonical decimal rendering, with no
      leading zero except for 0 itself. */
  function FormatUint(n: nat): (r: string)
    ensures IsDecimal(r) && DecimalValue(r) == n
    ensures r[0] == '0' ==> r == "0"
    decreases n
  {
    if n < 10 then
      assert Horner(0, [DigitChar(n)]) == Horner(n, []);
      [DigitChar(n)]
    else
      var front := FormatUint(n / 10);
      HornerSnoc(0, front, DigitChar(n % 10));
      front + [DigitChar(n % 10)]
  }

  /** strconv.FormatInt(n, 10): a '-' before the magnitude when negative. */
  function FormatInt(n: int): (r: string)
    ensures IsSignedDecimal(r) && SignedValue(r) == n
    ensures r[0] != '+'
    ensures r[0] == '-' <==> n < 0
    ensures Magnitude(r)[0] == '0' ==> r == "0"
  {
    if n < 0 then
      var m := FormatUint(-n);
      assert Magnitude("-" + m) == m;
      "-" + m
    else FormatUint(n)
  }

  /** Every in-range value survives a round trip through its rendering. */
  lemma ParseFormatUint(n: nat, b: BitSize)
    requires n <= MaxUint(b)
    ensures ParseUint(FormatUint(n), b) == NumResult(n, NoError)
  {
  }

  lemma ParseFormatInt(n: int, b: BitSize)
    requires MinInt(b) <= n <= MaxInt(b)
    ensures ParseInt(FormatInt(n), b) == NumResult(n, NoError)
  {
  }

  /** The spellings strconv.ParseBool accepts. */
  const TrueSpellings: set<string> := {"1", "t", "T", "TRUE", "true", "True"}
  const FalseSpellings: set<string> := {"0", "f", "F", "FALSE", "false", "False"}

  /** strconv.ParseBool. */
  function ParseBool(s: string): (r: BoolResult)
    ensures r.err == NoError <==> s in TrueSpellings || s in FalseSpellings
    ensures r.value <==> s in TrueSpellings
    ensures r.err != NoError ==> r.err == ErrSyntax
  {
    if s in TrueSpellings then BoolResult(true, NoError)
    else if s in FalseSpellings then BoolResult(false, NoError)
    else BoolResult(false, ErrSyntax)
  }

  /** strconv.FormatBool. */
  function FormatBool(b: bool): string
  {
    if b then "true" else "false"
  }

  /** ParseBool reads back what FormatBool writes. */
  lemma ParseFormatBool(b: bool)
    ensures ParseBool(FormatBool(b)) == BoolResult(b, NoError)
  {
  }
}
