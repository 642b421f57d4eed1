/** `dpsg::cli::parse_unsigned_int` of src/cli.hpp. */
module Cli {
  import opened IntegerResult
  import opened Decimal

  /** `parse_error` codes. */
  const InvalidCharacter: nat := 1
  const EmptyString: nat := 2

  const TwoTo32: int := 0x1_0000_0000
  const TwoTo31: int := 0x8000_0000

  /** The int that `r *= 10; r += d` leaves after wrapping around, as a
      two's complement build computes it (signed overflow is undefined in
      C++; this is the wrap-around the usual compilers produce). */
  function Wrap32(x: int): (r: int)
    ensures -TwoTo31 <= r < TwoTo31
  {
    (x + TwoTo31) % TwoTo32 - TwoTo31
  }

  /** What `parse_unsigned_int(str)` returns: an `empty_string` error for the
      empty string, an `invalid_character` error when some character is not a
      digit, and otherwise the accumulated value in an int. */
  function ParsedUnsignedInt(str: string): (r: IntegerResult)
    ensures r.Wf() && r.width == Int32
  {
    if |str| == 0 then FromError(Int32, EmptyString)
    else if !AllDigits(str) then FromError(Int32, InvalidCharacter)
    else IntErr(Wrap32(DecimalValue(str)))
  }

  lemma WrapShift(x: int, k: int)
    ensures Wrap32(x + TwoTo32 * k) == Wrap32(x)
  {
  }

  lemma WrapStep(acc: int, d: nat)
    ensures Wrap32(Wrap32(Wrap32(acc) * 10) + d) == Wrap32(acc * 10 + d)
  {
    var q := (acc + TwoTo31) / TwoTo32;
    assert Wrap32(acc) == acc - TwoTo32 * q;
    WrapShift(acc * 10, -10 * q);
    var b := Wrap32(acc * 10);
    var q2 := (acc * 10 + TwoTo31) / TwoTo32;
    assert b == acc * 10 - TwoTo32 * q2;
    WrapShift(acc * 10 + d, -q2);
  }

  /** The `for` loop of parse_unsigned_int: every character must be a digit,
      and `r` accumulates `r * 10 + digit` in an int. */
  method ParseUnsignedInt(str: string) returns (r: IntegerResult)
    ensures r == ParsedUnsignedInt(str)
  {
    if |str| == 0 {
      return FromError(Int32, EmptyString);
    }
    var acc := 0;
    for s := 0 to |str|
      invariant AllDigits(str[..s])
      invariant acc == Wrap32(DecimalValue(str[..s]))
    {
      if !IsDigit(str[s]) {
        return FromError(Int32, InvalidCharacter);
      }
      assert str[..s + 1][..s] == str[..s];
      WrapStep(DecimalValue(str[..s]), DigitValue(str[s]));
      acc := Wrap32(acc * 10);
      acc := Wrap32(acc + DigitValue(str[s]));
    }
    assert str[..|str|] == str;
    return IntErr(acc);
  }

  /** The empty string is an `empty_string` error. */
  lemma EmptyIsError()
    ensures ParsedUnsignedInt("").IsError()
    ensures ParsedUnsignedInt("").Error() == EmptyString
  {
  }

  /** Any character that is not a digit, a sign included, is an
      `invalid_character` error. */
  lemma NonDigitIsInvalid(str: string, i: nat)
    requires i < |str| && !IsDigit(str[i])
    ensures ParsedUnsignedInt(str).IsError()
    ensures ParsedUnsignedInt(str).Error() == InvalidCharacter
  {
  }

  /** A digit string whose value is below 2^31 gives that value. */
  lemma DigitsGiveValue(str: string)
    requires |str| > 0 && AllDigits(str) && DecimalValue(str) < TwoTo31
    ensures ParsedUnsignedInt(str).IsValue()
    ensures ParsedUnsignedInt(str).Value() == DecimalValue(str)
  {
  }

  /** Digit strings with a value in [2^31, 2^32) wrap to a negative int,
      which reads as an error. */
  lemma TooLargeReadsAsError(str: string)
    requires |str| > 0 && AllDigits(str) && TwoTo31 <= DecimalValue(str) < TwoTo32
    ensures ParsedUnsignedInt(str).IsError()
  {
  }

  /** Leading zeros are accepted and do not change the value. */
  lemma LeadingZerosAccepted(str: string)
    requires |str| > 0 && AllDigits(str)
    ensures ParsedUnsignedInt("0" + str) == ParsedUnsignedInt(str)
  {
    LeadingZero(str);
  }

  /** `std::to_string` output of a number below 2^31 parses back to it. */
  lemma ParsesToString(n: nat)
    requires n < TwoTo31
    ensures ParsedUnsignedInt(NatToString(n)).IsValue()
    ensures ParsedUnsignedInt(NatToString(n)).Value() == n
  {
    NatToStringRoundTrip(n);
  }

  lemma ParseExamples()
    ensures ParsedUnsignedInt("007") == IntErr(7)
    ensures ParsedUnsignedInt("-5").IsError() && ParsedUnsignedInt("+5").IsError()
  {
    assert !IsDigit("-5"[0]) && !IsDigit("+5"[0]);
    assert DecimalValue("007") == 7 by {
      assert "007"[..2] == "00" && "00"[..1] == "0" && "0"[..0] == "";
    }
  }
}
