/**
 * Conversion of one column's raw string value to the typed value put into a
 * payload or key block, selected by the column's JDBC type code.
 */
module Coercion {
  import opened Wrappers
  import Decimal
  import Text

  // java.sql.Types codes the conversion branches on.
  const BIT: int := -7
  const TINYINT: int := -6
  const BIGINT: int := -5
  const NUMERIC: int := 2
  const INTEGER: int := 4
  const SMALLINT: int := 5
  const FLOAT: int := 6
  const REAL: int := 7
  const DOUBLE: int := 8
  const BOOLEAN: int := 16

  /** A typed column value; the floating-point cases carry IEEE-754 bit patterns. */
  datatype Value =
    | Str(text: string)
    | Int32(int32: int)
    | Int64(int64: int)
    | Bool(flag: bool)
    | Float64(bits64: bv64)
    | Float32(bits32: bv32)

  /**
   * Formatter settings that affect conversion. The two floating-point conversions
   * are left uninterpreted: `toRoundedDouble` stands for `Double.valueOf` followed by
   * rounding to 16 fractional digits half-up, `parseFloat` for `Float.parseFloat`;
   * `None` is a NumberFormatException.
   */
  datatype Options = Options(
    treatAllAsStrings: bool,
    toRoundedDouble: string -> Option<bv64>,
    parseFloat: string -> Option<bv32>)

  predicate IsIntegerFamily(t: int) {
    t == BIT || t == TINYINT || t == SMALLINT || t == INTEGER
  }

  predicate IsDoubleFamily(t: int) {
    t == NUMERIC || t == DOUBLE
  }

  predicate IsFloatFamily(t: int) {
    t == FLOAT || t == REAL
  }

  /** The types that keep their raw string when conversion is enabled. */
  predicate IsPassThrough(t: int) {
    !IsIntegerFamily(t) && !IsDoubleFamily(t) && !IsFloatFamily(t) && t != BIGINT && t != BOOLEAN
  }

  /** `Boolean.valueOf`: true exactly for "true" in any letter case. */
  function ParseBoolean(s: string): (b: bool)
    ensures b <==> |s| == 4 && s[0] in "tT" && s[1] in "rR" && s[2] in "uU" && s[3] in "eE"
  {
    Text.EqualsIgnoreCase(s, "true")
  }

  /** The typed value of `raw` for a column of JDBC type `t`; `None` when conversion throws. */
  function Coerce(opts: Options, t: int, raw: string): (r: Option<Value>)
    ensures opts.treatAllAsStrings ==> r == Some(Str(raw))
    ensures !opts.treatAllAsStrings && IsIntegerFamily(t) ==>
      && (r.Some? <==> Decimal.IsDecimal(raw) && Decimal.InInt32(Decimal.ParseDecimal(raw).value))
      && (r.Some? ==> r.value == Int32(Decimal.ParseDecimal(raw).value))
    ensures !opts.treatAllAsStrings && t == BIGINT ==>
      && (r.Some? <==> Decimal.IsDecimal(raw) && Decimal.InInt64(Decimal.ParseDecimal(raw).value))
      && (r.Some? ==> r.value == Int64(Decimal.ParseDecimal(raw).value))
    ensures !opts.treatAllAsStrings && t == BOOLEAN ==> r == Some(Bool(ParseBoolean(raw)))
    ensures !opts.treatAllAsStrings && IsPassThrough(t) ==> r == Some(Str(raw))
    ensures !opts.treatAllAsStrings && IsDoubleFamily(t) ==>
      && (r.Some? <==> opts.toRoundedDouble(raw).Some?)
      && (r.Some? ==> r.value == Float64(opts.toRoundedDouble(raw).value))
    ensures !opts.treatAllAsStrings && IsFloatFamily(t) ==>
      && (r.Some? <==> opts.parseFloat(raw).Some?)
      && (r.Some? ==> r.value == Float32(opts.parseFloat(raw).value))
  {
    if opts.treatAllAsStrings then Some(Str(raw))
    else if IsDoubleFamily(t) then
      match opts.toRoundedDouble(raw)
      case Some(d) => Some(Float64(d))
      case None => None
    else if IsIntegerFamily(t) then
      match Decimal.ParseInt32(raw)
      case Some(n) => Some(Int32(n))
      case None => None
    else if t == BIGINT then
      match Decimal.ParseInt64(raw)
      case Some(n) => Some(Int64(n))
      case None => None
    else if IsFloatFamily(t) then
      match opts.parseFloat(raw)
      case Some(f) => Some(Float32(f))
      case None => None
    else if t == BOOLEAN then Some(Bool(ParseBoolean(raw)))
    else Some(Str(raw))
  }

  /** Integer-family columns accept the printed form of exactly the 32-bit integers, value unchanged. */
  lemma IntegerFamilyRoundTrip(opts: Options, t: int, n: int)
    requires !opts.treatAllAsStrings && IsIntegerFamily(t)
    ensures Coerce(opts, t, Decimal.ShowInt(n)) == (if Decimal.InInt32(n) then Some(Int32(n)) else None)
  {
    Decimal.ParseInt32OfShowInt(n);
  }

  /** BIGINT columns accept the printed form of exactly the 64-bit integers, value unchanged. */
  lemma BigIntRoundTrip(opts: Options, n: int)
    requires !opts.treatAllAsStrings
    ensures Coerce(opts, BIGINT, Decimal.ShowInt(n)) == (if Decimal.InInt64(n) then Some(Int64(n)) else None)
  {
    Decimal.ParseInt64OfShowInt(n);
  }

  /** BOOLEAN conversion never fails, and is true exactly for the case-insensitive spellings of "true". */
  lemma BooleanCases(opts: Options, raw: string)
    requires !opts.treatAllAsStrings
    ensures Coerce(opts, BOOLEAN, raw) == Some(Bool(Text.EqualsIgnoreCase(raw, "true")))
    ensures Coerce(opts, BOOLEAN, "TRUE") == Some(Bool(true))
    ensures Coerce(opts, BOOLEAN, "True") == Some(Bool(true))
    ensures Coerce(opts, BOOLEAN, "yes") == Some(Bool(false))
    ensures Coerce(opts, BOOLEAN, "1") == Some(Bool(false))
  {
    assert Text.EqualsIgnoreCase("TRUE", "true");
    assert Text.EqualsIgnoreCase("True", "true");
  }
}
