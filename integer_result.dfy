/** `integer_result<T, Enum>` of src/posix.hpp: a signed integer of type T whose
    top (sign) bit marks an error code, and whose other bits hold either a
    value or the error.

    The model works on the integer value of T in two's complement: the top bit
    is set exactly when the value is negative, `x | error_bit` adds the most
    negative value of T to a non-negative x, and `x ^ error_bit` removes it
    again from a negative x.  The bit-level facts behind this reading are
    checked on `bv32` at the end of the module. */
module IntegerResult {

  /** The instantiations the program uses: `int_err` (int) and `long_err` (long). */
  datatype Width = Int32 | Int64 {
    function Bits(): nat { if Int32? then 32 else 64 }
    /** The value of `error_bit` read as a signed T: 1 << (bits - 1). */
    function Min(): int { if Int32? then -0x8000_0000 else -0x8000_0000_0000_0000 }
    function Max(): int { -Min() - 1 }
    predicate InRange(x: int) { Min() <= x <= Max() }
  }

  datatype IntegerResult = IntegerResult(width: Width, raw: int) {

    /** The stored T is representable in its width. */
    predicate Wf() { width.InRange(raw) }

    /** `(error_bit & _value) != 0`: the sign bit is set. */
    predicate IsError() { raw < 0 }

    /** `(error_bit & _value) == 0`. */
    predicate IsValue() { raw >= 0 }

    /** `value()`; its assert is the precondition. */
    function Value(): (v: int)
      requires IsValue()
      ensures v >= 0
    {
      raw
    }

    /** `error()`: `_value ^ error_bit`, the stored bits without the sign bit. */
    function Error(): (e: int)
      requires Wf() && IsError()
      ensures 0 <= e <= width.Max()
    {
      raw - width.Min()
    }
  }

  /** `from_errno()`: `errno | error_bit`; errno is a parameter of the model. */
  function FromErrno(w: Width, errno: nat): (r: IntegerResult)
    requires errno <= w.Max()
    ensures r.Wf() && r.IsError() && r.Error() == errno
  {
    IntegerResult(w, errno + w.Min())
  }

  /** `from_unknown(value)`: the raw return of a system call, where a negative
      return means "look at errno". */
  function FromUnknown(w: Width, value: int, errno: nat): (r: IntegerResult)
    requires w.InRange(value) && errno <= w.Max()
    ensures r.Wf()
    ensures r.IsValue() <==> value >= 0
    ensures value >= 0 ==> r.Value() == value
    ensures value < 0 ==> r.Error() == errno
  {
    if value < 0 then FromErrno(w, errno) else IntegerResult(w, value)
  }

  /** `from_error(e)`: `e | error_bit`. */
  function FromError(w: Width, e: nat): (r: IntegerResult)
    requires e <= w.Max()
    ensures r.Wf() && r.IsError() && r.Error() == e
  {
    IntegerResult(w, e + w.Min())
  }

  /** `int_err` as returned by `poll` and `parse_unsigned_int`. */
  function IntErr(raw: int): IntegerResult { IntegerResult(Int32, raw) }

  /** is_error() and is_value() are exact complements, and an error is a
      negative T. */
  lemma ErrorIffNotValue(r: IntegerResult)
    ensures r.IsError() <==> !r.IsValue()
    ensures r.IsError() <==> r.raw < 0
  {
  }

  /** from_error then error() gives back the code, for every code that fits
      below the sign bit; the stored T is negative. */
  lemma FromErrorRoundTrip(w: Width, e: nat)
    requires e <= w.Max()
    ensures FromError(w, e).IsError() && !FromError(w, e).IsValue()
    ensures FromError(w, e).Error() == e
    ensures FromError(w, e).raw < 0
  {
  }

  // Bit-level facts behind the arithmetic reading, for T = int (32 bits).

  const ErrorBit32: bv32 := 0x8000_0000

  /** The top-bit test is the unsigned comparison with 2^31, i.e. the sign of
      the two's complement value. */
  lemma TopBitIsSign(b: bv32)
    ensures ((ErrorBit32 & b) != 0) <==> b >= ErrorBit32
  {
  }

  /** Setting then clearing the top bit of a code below 2^31 gives the code
      back; the set bit makes it an error. */
  lemma OrThenXor(e: bv32)
    requires e < ErrorBit32
    ensures (e | ErrorBit32) ^ ErrorBit32 == e
    ensures (ErrorBit32 & (e | ErrorBit32)) != 0
  {
  }
}
