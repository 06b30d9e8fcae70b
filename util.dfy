/**
 * The interval parser of utils/util.go: "30m", "24h", "1d", "1w" to seconds.
 * Go's `int` is 64 bits wide, so `strconv.Atoi` rejects numbers outside that
 * range and the multiplication by the unit wraps around.
 */
module Util {
  import opened Wrappers
  import opened Strings

  const Int64Min: int := -0x8000_0000_0000_0000
  const Int64Max: int := 0x7FFF_FFFF_FFFF_FFFF
  const Int64Modulus: int := 0x1_0000_0000_0000_0000

  predicate InInt64(x: int) {
    Int64Min <= x <= Int64Max
  }

  /** Two's-complement wrap-around of an exact product to 64 bits. */
  function WrapInt64(x: int): (r: int)
    ensures InInt64(r)
    ensures InInt64(x) ==> r == x
    ensures (x - r) % Int64Modulus == 0
  {
    (x - Int64Min) % Int64Modulus + Int64Min
  }

  /** A product just past the top of the 64-bit range wraps to that product less 2^64, a negative value. */
  lemma WrapAbove(x: int)
    requires Int64Max < x < Int64Modulus
    ensures WrapInt64(x) == x - Int64Modulus && WrapInt64(x) < 0
  {
    var q := x - Int64Min - Int64Modulus;
    assert 0 <= q < Int64Modulus;
    assert x - Int64Min == q + Int64Modulus;
  }

  /** Go's `strconv.Atoi`: an optional sign, then at least one decimal digit, within 64 bits. */
  function Atoi(s: string): (r: Option<int>)
    ensures r.Some? ==> InInt64(r.value)
    ensures r.Some? ==> |s| >= 1
  {
    var signed := |s| > 0 && (s[0] == '+' || s[0] == '-');
    var digits := if signed then s[1..] else s;
    if |digits| == 0 || !AllDigits(digits) then None
    else
      var v: int := if |s| > 0 && s[0] == '-' then 0 - DecimalValue(digits) else DecimalValue(digits);
      if InInt64(v) then Some(v) else None
  }

  /** Formatting a 64-bit integer in decimal and parsing it back gives the integer. */
  lemma AtoiFormatInt(n: int)
    requires InInt64(n)
    ensures Atoi(FormatInt(n)) == Some(n)
  {
    if n < 0 {
      var d := FormatNat(-n);
      var s := "-" + d;
      assert s[0] == '-' && s[1..] == d;
      DecimalValueOfFormat(-n);
      assert DecimalValue(d) == -n;
    } else {
      var d := FormatNat(n);
      assert IsDigit(d[0]);
      DecimalValueOfFormat(n);
    }
  }

  datatype IntervalError =
    | InvalidFormat(s: string)    // fewer than two characters
    | InvalidNumber(num: string)  // the prefix is not an integer
    | UnsupportedUnit(unit: char) // the last character is not m, h, d or w

  /** The number of seconds in one unit, for the four supported units. */
  function UnitSeconds(unit: char): (r: Option<int>)
    ensures r.Some? <==> unit in {'m', 'h', 'd', 'w'}
    ensures r.Some? ==> r.value > 0 && r.value % 60 == 0
  {
    match unit
    case 'm' => Some(60)
    case 'h' => Some(60 * 60)
    case 'd' => Some(24 * 60 * 60)
    case 'w' => Some(7 * 24 * 60 * 60)
    case _ => None
  }

  /** StringToInterval: the prefix before the last character, parsed, times the unit's seconds. */
  function StringToInterval(s: string): (r: Result<int, IntervalError>)
    ensures |s| < 2 ==> r == Failure(InvalidFormat(s))
    ensures |s| >= 2 && Atoi(s[..|s| - 1]).None? ==> r == Failure(InvalidNumber(s[..|s| - 1]))
    ensures |s| >= 2 && Atoi(s[..|s| - 1]).Some? && s[|s| - 1] !in {'m', 'h', 'd', 'w'} ==>
              r == Failure(UnsupportedUnit(s[|s| - 1]))
    ensures r.Success? <==> |s| >= 2 && Atoi(s[..|s| - 1]).Some? && s[|s| - 1] in {'m', 'h', 'd', 'w'}
    ensures r.Success? ==> InInt64(r.value)
  {
    if |s| < 2 then Failure(InvalidFormat(s))
    else
      var num := s[..|s| - 1];
      var unit := s[|s| - 1];
      match Atoi(num)
      case None => Failure(InvalidNumber(num))
      case Some(multiplier) =>
        match UnitSeconds(unit)
        case None => Failure(UnsupportedUnit(unit))
        case Some(seconds) => Success(WrapInt64(multiplier * seconds))
  }

  /** A successful result is the parsed prefix times the unit's seconds; without overflow it is a multiple of 60. */
  lemma IntervalIsScaledPrefix(s: string)
    requires StringToInterval(s).Success?
    ensures |s| >= 2 && Atoi(s[..|s| - 1]).Some? && UnitSeconds(s[|s| - 1]).Some?
    ensures var n := Atoi(s[..|s| - 1]).value;
            var f := UnitSeconds(s[|s| - 1]).value;
            && StringToInterval(s).value == WrapInt64(n * f)
            && (InInt64(n * f) ==> StringToInterval(s).value == n * f && (n * f) % 60 == 0)
  {
    var n := Atoi(s[..|s| - 1]).value;
    var f := UnitSeconds(s[|s| - 1]).value;
    MultipleOf60(n, f / 60);
    assert f == 60 * (f / 60);
  }

  /** A multiple of 60 times any number is a multiple of 60. */
  lemma MultipleOf60(n: int, k: int)
    ensures (n * (60 * k)) % 60 == 0
  {
    assert n * (60 * k) == 60 * (n * k);
  }

  /** A number formatted in decimal with a unit letter appended parses to that number of units. */
  lemma IntervalRoundTrip(n: int, unit: char)
    requires InInt64(n) && UnitSeconds(unit).Some?
    ensures StringToInterval(FormatInt(n) + [unit]) == Success(WrapInt64(n * UnitSeconds(unit).value))
  {
    var s := FormatInt(n) + [unit];
    assert s[..|s| - 1] == FormatInt(n);
    AtoiFormatInt(n);
  }

  lemma SmallNumbers()
    ensures Atoi("1") == Some(1) && Atoi("10") == Some(10)
    ensures Atoi("24") == Some(24) && Atoi("30") == Some(30) && Atoi("-1") == Some(-1)
  {
    assert "10"[..1] == "1" && "24"[..1] == "2" && "30"[..1] == "3";
    assert "1"[..0] == "" && "2"[..0] == "" && "3"[..0] == "";
    assert DecimalValue("1") == 1 && DecimalValue("2") == 2 && DecimalValue("3") == 3;
    assert DecimalValue("10") == 10 && DecimalValue("24") == 24 && DecimalValue("30") == 30;
    assert "-1"[1..] == "1";
  }

  lemma DocumentedExamples()
    ensures StringToInterval("24h") == Success(86400)
    ensures StringToInterval("1d") == Success(86400)
    ensures StringToInterval("1w") == Success(604800)
    ensures StringToInterval("30m") == Success(1800)
  {
    SmallNumbers();
    assert "24h"[..2] == "24";
    assert "1d"[..1] == "1";
    assert "1w"[..1] == "1";
    assert "30m"[..2] == "30";
  }

  /** The number check runs before the unit check, and a sign carries through. */
  lemma ErrorOrderAndSign()
    ensures StringToInterval("x") == Failure(InvalidFormat("x"))
    ensures StringToInterval("xx") == Failure(InvalidNumber("x"))
    ensures StringToInterval("10x") == Failure(UnsupportedUnit('x'))
    ensures StringToInterval("-1h") == Success(-3600)
  {
    SmallNumbers();
    assert "xx"[..1] == "x";
    assert "10x"[..2] == "10";
    assert "-1h"[..2] == "-1";
    assert "-1"[1..] == "1";
  }
}
