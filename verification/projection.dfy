/**
 * Projection of an operation's columns onto a payload block or a key block.
 * Columns are matched with the table's column metadata by position; a column
 * contributes a field only when the chosen side's value object exists and does
 * not hold a null, and a key block further keeps only key columns.
 */
module Projection {
  import opened Wrappers
  import opened Errors
  import Coercion

  /** A value object that exists: an explicit null, or a value in its string form. */
  datatype ColVal = Null | Val(raw: string)

  /** One column of an operation: the before and after value objects, either possibly absent. */
  datatype Column = Column(before: Option<ColVal>, after: Option<ColVal>)

  /** The table's description of one column. */
  datatype ColumnMeta = ColumnMeta(name: string, jdbcType: int, isKey: bool)

  datatype Side = Before | After

  datatype Field = Field(name: string, value: Coercion.Value)

  /** A block of fields in the order they were put. */
  type Struct = seq<Field>

  function ValueObject(c: Column, side: Side): Option<ColVal> {
    match side
    case Before => c.before
    case After => c.after
  }

  /** The inclusion rule: the value object exists and its value is not null. */
  predicate HasValue(c: Column, side: Side) {
    ValueObject(c, side).Some? && ValueObject(c, side).value.Val?
  }

  function Raw(c: Column, side: Side): string
    requires HasValue(c, side)
  {
    ValueObject(c, side).value.raw
  }

  /** Whether a block on `side` (a key block when `keysOnly`) has a field for this column. */
  predicate Included(c: Column, m: ColumnMeta, side: Side, keysOnly: bool) {
    (!keysOnly || m.isKey) && HasValue(c, side)
  }

  /** The field one column contributes, named after the column, or the conversion failure. */
  function Cell(opts: Coercion.Options, c: Column, m: ColumnMeta, side: Side): (r: Result<Field, Error>)
    requires HasValue(c, side)
    ensures r.Success? <==> Coercion.Coerce(opts, m.jdbcType, Raw(c, side)).Some?
    ensures r.Success? ==> r.value == Field(m.name, Coercion.Coerce(opts, m.jdbcType, Raw(c, side)).value)
    ensures r.Failure? ==> r.error == CoercionFailed(m.name, Raw(c, side))
  {
    match Coercion.Coerce(opts, m.jdbcType, Raw(c, side))
    case Some(v) => Success(Field(m.name, v))
    case None => Failure(CoercionFailed(m.name, Raw(c, side)))
  }

  /**
   * Positions, among the first `n` columns, of the columns a block includes:
   * exactly the included ones, in increasing column order (the order in which
   * the source's loop puts them).
   */
  function Selected(cols: seq<Column>, metas: seq<ColumnMeta>, side: Side, keysOnly: bool, n: nat): (sel: seq<nat>)
    requires n <= |cols| <= |metas|
    ensures forall k :: 0 <= k < |sel| ==> sel[k] < n && Included(cols[sel[k]], metas[sel[k]], side, keysOnly)
    ensures forall i :: 0 <= i < n && Included(cols[i], metas[i], side, keysOnly) ==> i in sel
    ensures forall a, b :: 0 <= a < b < |sel| ==> sel[a] < sel[b]
    decreases n
  {
    if n == 0 then []
    else
      var prev := Selected(cols, metas, side, keysOnly, n - 1);
      if Included(cols[n - 1], metas[n - 1], side, keysOnly) then prev + [n - 1] else prev
  }

  /**
   * The block built from the first `n` columns, walking them in order as the
   * source's loop does and stopping at the first value that does not convert.
   */
  function Block(opts: Coercion.Options, cols: seq<Column>, metas: seq<ColumnMeta>, side: Side, keysOnly: bool, n: nat)
    : Result<Struct, Error>
    requires n <= |cols| <= |metas|
    decreases n
  {
    if n == 0 then Success([])
    else
      var prev :- Block(opts, cols, metas, side, keysOnly, n - 1);
      if Included(cols[n - 1], metas[n - 1], side, keysOnly) then
        var f :- Cell(opts, cols[n - 1], metas[n - 1], side);
        Success(prev + [f])
      else
        Success(prev)
  }

  /** Every included column among the first `n` converts. */
  ghost predicate AllConvert(opts: Coercion.Options, cols: seq<Column>, metas: seq<ColumnMeta>, side: Side, keysOnly: bool, n: nat)
    requires n <= |cols| <= |metas|
  {
    forall i :: 0 <= i < n && Included(cols[i], metas[i], side, keysOnly) ==> Cell(opts, cols[i], metas[i], side).Success?
  }

  /** Column `i` is the first included column that does not convert, and `e` is its error. */
  ghost predicate FirstFailure(opts: Coercion.Options, cols: seq<Column>, metas: seq<ColumnMeta>, side: Side, keysOnly: bool, i: nat, e: Error)
    requires i < |cols| <= |metas|
  {
    && Included(cols[i], metas[i], side, keysOnly)
    && Cell(opts, cols[i], metas[i], side) == Failure(e)
    && AllConvert(opts, cols, metas, side, keysOnly, i)
  }

  /** A block succeeds exactly when every included column converts. */
  lemma {:induction false} BlockSucceedsIff(
    opts: Coercion.Options, cols: seq<Column>, metas: seq<ColumnMeta>, side: Side, keysOnly: bool, n: nat)
    requires n <= |cols| <= |metas|
    ensures Block(opts, cols, metas, side, keysOnly, n).Success? <==> AllConvert(opts, cols, metas, side, keysOnly, n)
    decreases n
  {
    if n > 0 {
      BlockSucceedsIff(opts, cols, metas, side, keysOnly, n - 1);
    }
  }

  /** A successful block holds, in column order, the converted values of exactly the included columns. */
  lemma {:induction false} BlockFields(
    opts: Coercion.Options, cols: seq<Column>, metas: seq<ColumnMeta>, side: Side, keysOnly: bool, n: nat)
    requires n <= |cols| <= |metas|
    requires Block(opts, cols, metas, side, keysOnly, n).Success?
    ensures AllConvert(opts, cols, metas, side, keysOnly, n)
    ensures
      var sel := Selected(cols, metas, side, keysOnly, n);
      var fields := Block(opts, cols, metas, side, keysOnly, n).value;
      && |fields| == |sel|
      && forall k :: 0 <= k < |sel| ==> fields[k] == Cell(opts, cols[sel[k]], metas[sel[k]], side).value
    decreases n
  {
    BlockSucceedsIff(opts, cols, metas, side, keysOnly, n);
    if n > 0 {
      BlockFields(opts, cols, metas, side, keysOnly, n - 1);
      var prev := Block(opts, cols, metas, side, keysOnly, n - 1);
      if Included(cols[n - 1], metas[n - 1], side, keysOnly) {
        var cell := Cell(opts, cols[n - 1], metas[n - 1], side);
        assert Block(opts, cols, metas, side, keysOnly, n).value == prev.value + [cell.value];
      }
    }
  }

  /** A failed block reports the error of the first included column that does not convert. */
  lemma {:induction false} BlockFirstFailure(
    opts: Coercion.Options, cols: seq<Column>, metas: seq<ColumnMeta>, side: Side, keysOnly: bool, n: nat)
    requires n <= |cols| <= |metas|
    requires Block(opts, cols, metas, side, keysOnly, n).Failure?
    ensures exists i :: 0 <= i < n && FirstFailure(opts, cols, metas, side, keysOnly, i, Block(opts, cols, metas, side, keysOnly, n).error)
    decreases n
  {
    var prev := Block(opts, cols, metas, side, keysOnly, n - 1);
    var r := Block(opts, cols, metas, side, keysOnly, n);
    if prev.Failure? {
      BlockFirstFailure(opts, cols, metas, side, keysOnly, n - 1);
      var i :| 0 <= i < n - 1 && FirstFailure(opts, cols, metas, side, keysOnly, i, prev.error);
      assert FirstFailure(opts, cols, metas, side, keysOnly, i, r.error);
    } else {
      BlockSucceedsIff(opts, cols, metas, side, keysOnly, n - 1);
      assert FirstFailure(opts, cols, metas, side, keysOnly, n - 1, r.error);
    }
  }

  /**
   * What a block is: it succeeds exactly when every included column converts;
   * then its fields are, in column order, the converted values of exactly the
   * included columns; otherwise its error is the first failing column's.
   */
  lemma BlockCharacterization(
    opts: Coercion.Options, cols: seq<Column>, metas: seq<ColumnMeta>, side: Side, keysOnly: bool, n: nat)
    requires n <= |cols| <= |metas|
    ensures Block(opts, cols, metas, side, keysOnly, n).Success? <==> AllConvert(opts, cols, metas, side, keysOnly, n)
    ensures Block(opts, cols, metas, side, keysOnly, n).Success? ==>
      var sel := Selected(cols, metas, side, keysOnly, n);
      var fields := Block(opts, cols, metas, side, keysOnly, n).value;
      && |fields| == |sel|
      && forall k :: 0 <= k < |sel| ==> fields[k] == Cell(opts, cols[sel[k]], metas[sel[k]], side).value
    ensures Block(opts, cols, metas, side, keysOnly, n).Failure? ==>
      exists i :: 0 <= i < n && FirstFailure(opts, cols, metas, side, keysOnly, i, Block(opts, cols, metas, side, keysOnly, n).error)
  {
    BlockSucceedsIff(opts, cols, metas, side, keysOnly, n);
    if Block(opts, cols, metas, side, keysOnly, n).Success? {
      BlockFields(opts, cols, metas, side, keysOnly, n);
    } else {
      BlockFirstFailure(opts, cols, metas, side, keysOnly, n);
    }
  }

  /**
   * The source's column loop: walk the columns with a running metadata index,
   * put each included column's converted value, and stop at the first failure.
   */
  method FormatValues(opts: Coercion.Options, cols: seq<Column>, metas: seq<ColumnMeta>, side: Side, keysOnly: bool)
    returns (r: Result<Struct, Error>)
    requires |cols| <= |metas|
    ensures r == Block(opts, cols, metas, side, keysOnly, |cols|)
  {
    var rec: Struct := [];
    var cIndex := 0;
    while cIndex < |cols|
      invariant 0 <= cIndex <= |cols|
      invariant Block(opts, cols, metas, side, keysOnly, cIndex) == Success(rec)
    {
      var col := cols[cIndex];
      var cMeta := metas[cIndex];
      cIndex := cIndex + 1;
      if Included(col, cMeta, side, keysOnly) {
        var cell := Cell(opts, col, cMeta, side);
        if cell.Failure? {
          assert Block(opts, cols, metas, side, keysOnly, cIndex) == Failure(cell.error);
          BlockFailureSticks(opts, cols, metas, side, keysOnly, cIndex, |cols|);
          return Failure(cell.error);
        }
        rec := rec + [cell.value];
      }
      assert Block(opts, cols, metas, side, keysOnly, cIndex) == Success(rec);
    }
    return Success(rec);
  }

  /** Once a prefix of the columns fails, every longer prefix fails with the same error. */
  lemma {:induction false} BlockFailureSticks(
    opts: Coercion.Options, cols: seq<Column>, metas: seq<ColumnMeta>, side: Side, keysOnly: bool, m: nat, n: nat)
    requires m <= n <= |cols| <= |metas|
    requires Block(opts, cols, metas, side, keysOnly, m).Failure?
    ensures Block(opts, cols, metas, side, keysOnly, n) == Block(opts, cols, metas, side, keysOnly, m)
    decreases n
  {
    if m < n {
      BlockFailureSticks(opts, cols, metas, side, keysOnly, m, n - 1);
      assert Block(opts, cols, metas, side, keysOnly, n) == Block(opts, cols, metas, side, keysOnly, n - 1);
    }
  }

  /** A key block never fails where the payload block on the same side succeeds. */
  lemma KeyBlockSucceedsWithPayload(opts: Coercion.Options, cols: seq<Column>, metas: seq<ColumnMeta>, side: Side, n: nat)
    requires n <= |cols| <= |metas|
    requires Block(opts, cols, metas, side, false, n).Success?
    ensures Block(opts, cols, metas, side, true, n).Success?
  {
    BlockCharacterization(opts, cols, metas, side, false, n);
    BlockCharacterization(opts, cols, metas, side, true, n);
  }

  /**
   * Every field of a key block is a field of the payload block on the same side,
   * with the same value.
   */
  lemma KeyFieldsInPayload(opts: Coercion.Options, cols: seq<Column>, metas: seq<ColumnMeta>, side: Side, n: nat)
    requires n <= |cols| <= |metas|
    requires Block(opts, cols, metas, side, false, n).Success?
    ensures Block(opts, cols, metas, side, true, n).Success?
    ensures forall f :: f in Block(opts, cols, metas, side, true, n).value ==>
      f in Block(opts, cols, metas, side, false, n).value
  {
    KeyBlockSucceedsWithPayload(opts, cols, metas, side, n);
    BlockCharacterization(opts, cols, metas, side, false, n);
    BlockCharacterization(opts, cols, metas, side, true, n);
    var payload := Block(opts, cols, metas, side, false, n).value;
    var key := Block(opts, cols, metas, side, true, n).value;
    var selP := Selected(cols, metas, side, false, n);
    var selK := Selected(cols, metas, side, true, n);
    forall f | f in key
      ensures f in payload
    {
      var k :| 0 <= k < |key| && key[k] == f;
      var i := selK[k];
      assert Included(cols[i], metas[i], side, false);
      var j :| 0 <= j < |selP| && selP[j] == i;
      assert payload[j] == f;
    }
  }

  /**
   * A block depends on the columns only through which of them have a value on
   * the chosen side and what that value is.
   */
  lemma {:induction false} BlockDependsOnlyOnSideValues(
    opts: Coercion.Options, cols1: seq<Column>, cols2: seq<Column>, metas: seq<ColumnMeta>, side: Side, keysOnly: bool, n: nat)
    requires n <= |cols1| <= |metas| && |cols1| == |cols2|
    requires forall i :: 0 <= i < |cols1| ==> (HasValue(cols1[i], side) <==> HasValue(cols2[i], side))
    requires forall i :: 0 <= i < |cols1| && HasValue(cols1[i], side) ==> Raw(cols1[i], side) == Raw(cols2[i], side)
    ensures Block(opts, cols1, metas, side, keysOnly, n) == Block(opts, cols2, metas, side, keysOnly, n)
    decreases n
  {
    if n > 0 {
      BlockDependsOnlyOnSideValues(opts, cols1, cols2, metas, side, keysOnly, n - 1);
    }
  }

  function WithValueObject(c: Column, side: Side, v: Option<ColVal>): Column {
    match side
    case Before => c.(before := v)
    case After => c.(after := v)
  }

  /**
   * An absent value object and one holding an explicit null are indistinguishable:
   * turning one into the other leaves every block on that side unchanged.
   */
  lemma AbsentAndNullAlike(
    opts: Coercion.Options, cols: seq<Column>, metas: seq<ColumnMeta>, side: Side, keysOnly: bool, i: nat)
    requires i < |cols| <= |metas|
    requires ValueObject(cols[i], side) == None
    ensures Block(opts, cols[i := WithValueObject(cols[i], side, Some(Null))], metas, side, keysOnly, |cols|)
         == Block(opts, cols, metas, side, keysOnly, |cols|)
  {
    var cols2 := cols[i := WithValueObject(cols[i], side, Some(Null))];
    BlockDependsOnlyOnSideValues(opts, cols2, cols, metas, side, keysOnly, |cols|);
  }

  /** A block on one side ignores the other side's values entirely. */
  lemma BlockIgnoresOtherSide(
    opts: Coercion.Options, cols: seq<Column>, metas: seq<ColumnMeta>, side: Side, keysOnly: bool, i: nat, v: Option<ColVal>)
    requires i < |cols| <= |metas|
    ensures Block(opts, cols[i := WithValueObject(cols[i], if side == Before then After else Before, v)], metas, side, keysOnly, |cols|)
         == Block(opts, cols, metas, side, keysOnly, |cols|)
  {
    var other := if side == Before then After else Before;
    var cols2 := cols[i := WithValueObject(cols[i], other, v)];
    BlockDependsOnlyOnSideValues(opts, cols2, cols, metas, side, keysOnly, |cols|);
  }
}
