/**
 * Formatting of one change-data-capture operation into Kafka Connect records:
 * the operation metadata, the source bookkeeping block, and the before or
 * after payload block with its key, routed by operation type and by the
 * primary-key-update policy.
 */
module Formatter {
  import opened Wrappers
  import opened Errors
  import Coercion
  import opened Projection
  import opened PkPolicy

  /** The classification an operation type answers, checked in this order by the router. */
  datatype OpType = OpType(isInsert: bool, isDelete: bool, isPkUpdate: bool, isUpdate: bool)

  /** The formatter's settings, fixed before any operation is formatted. */
  datatype Config = Config(
    insertOpKey: string,
    updateOpKey: string,
    deleteOpKey: string,
    pkHandling: PkHandling,
    coercion: Coercion.Options)

  /** The settings a freshly created formatter has. */
  function DefaultConfig(toRoundedDouble: string -> Option<bv64>, parseFloat: string -> Option<bv32>): Config {
    Config("I", "U", "D", PkAbend, Coercion.Options(false, toRoundedDouble, parseFloat))
  }

  /** Table metadata: the original table name and the columns in table order. */
  datatype TableMeta = TableMeta(originalName: string, columns: seq<ColumnMeta>)

  /** One operation: its type, its table's short name, its columns, timestamp and position. */
  datatype Operation = Operation(
    opType: OpType,
    tableShortName: string,
    columns: seq<Column>,
    timestamp: string,
    position: string)

  /** Every operation column has its metadata at the same position. */
  predicate Aligned(op: Operation, tMeta: TableMeta) {
    |op.columns| <= |tMeta.columns|
  }

  /** The metadata fields of a record; `opType` is `None` when no `op_type` field is put. */
  datatype Metadata = Metadata(table: string, opType: Option<string>, opTs: string, currentTs: string, pos: string)

  /** The `source` bookkeeping block. */
  datatype Source = Source(
    entity: string,
    snapshotLast: bool,
    isIncrement: bool,
    totalSize: int,
    index: int,
    binlogTs: int)

  /** A record: each part is `None` when nothing was put there. */
  datatype Record = Record(metadata: Option<Metadata>, source: Option<Source>, before: Option<Struct>, after: Option<Struct>)

  /** The two record/key slots of the formatted data. */
  datatype Output = Output(record1: Record, key1: Option<Struct>, record2: Option<Record>, key2: Option<Struct>)

  /** `formatOpType`: the configured code for inserts, updates and deletes, checked in that order. */
  function OpTypeCode(cfg: Config, t: OpType): Option<string> {
    if t.isInsert then Some(cfg.insertOpKey)
    else if t.isUpdate then Some(cfg.updateOpKey)
    else if t.isDelete then Some(cfg.deleteOpKey)
    else None
  }

  /** `formatOperationMetadata`; `currentTs` is the generated unique timestamp. */
  function OperationMetadata(cfg: Config, t: OpType, op: Operation, tMeta: TableMeta, currentTs: string): Metadata {
    Metadata(tMeta.originalName, OpTypeCode(cfg, t), op.timestamp, currentTs, op.position)
  }

  /** `formatPayloadSource`; `nowMillis` is the wall-clock reading. */
  function PayloadSource(op: Operation, nowMillis: int): Source {
    Source(op.tableShortName, false, true, 0, 0, nowMillis)
  }

  /** `formatBeforeValues` / `formatAfterValues`. */
  function PayloadBlock(cfg: Config, op: Operation, tMeta: TableMeta, side: Side): Result<Struct, Error>
    requires Aligned(op, tMeta)
  {
    Block(cfg.coercion, op.columns, tMeta.columns, side, false, |op.columns|)
  }

  /** `formatBeforeKeys` / `formatAfterKeys` when a key struct exists. */
  function KeyBlock(cfg: Config, op: Operation, tMeta: TableMeta, side: Side): Result<Struct, Error>
    requires Aligned(op, tMeta)
  {
    Block(cfg.coercion, op.columns, tMeta.columns, side, true, |op.columns|)
  }

  /**
   * `formatBeforeValuesOp` / `formatAfterValuesOp`: the payload block, then the
   * key block when the table has a key shape (no key otherwise).
   */
  function ValuesOp(cfg: Config, op: Operation, tMeta: TableMeta, side: Side, hasKey: bool)
    : (r: Result<(Struct, Option<Struct>), Error>)
    requires Aligned(op, tMeta)
    ensures r.Success? <==> PayloadBlock(cfg, op, tMeta, side).Success?
    ensures r.Failure? ==> r.error == PayloadBlock(cfg, op, tMeta, side).error
    ensures r.Success? ==> r.value.0 == PayloadBlock(cfg, op, tMeta, side).value
    ensures r.Success? ==> (r.value.1.Some? <==> hasKey)
    ensures r.Success? && hasKey ==>
      KeyBlock(cfg, op, tMeta, side).Success? && r.value.1 == Some(KeyBlock(cfg, op, tMeta, side).value)
  {
    var values :- PayloadBlock(cfg, op, tMeta, side);
    if hasKey then
      KeyBlockSucceedsWithPayload(cfg.coercion, op.columns, tMeta.columns, side, |op.columns|);
      Success((values, Some(KeyBlock(cfg, op, tMeta, side).value)))
    else
      Success((values, None))
  }

  /** A record carrying metadata, the source block and one payload block on `side`. */
  function FullRecord(meta: Metadata, source: Source, side: Side, values: Struct): Record {
    match side
    case Before => Record(Some(meta), Some(source), Some(values), None)
    case After => Record(Some(meta), Some(source), None, Some(values))
  }

  /**
   * `formatOp`: routes the operation by type (insert, delete, primary-key update,
   * update, in that order) and, for primary-key updates, by the configured policy.
   * `hasKey` says whether the table's schema has a key shape; `currentTs` and
   * `nowMillis` are the generated timestamp and the clock reading.
   */
  function FormatOp(cfg: Config, op: Operation, tMeta: TableMeta, hasKey: bool, currentTs: string, nowMillis: int)
    : (r: Result<Output, Error>)
    requires Aligned(op, tMeta)
    ensures r.Success? ==> r.value.record1.metadata.Some? && r.value.record1.source.Some?
    ensures r.Success? ==> (r.value.record1.before.Some? <==> r.value.record1.after.None?)
    ensures r.Success? ==> (r.value.key1.Some? <==> hasKey)
    ensures r.Success? ==>
      (r.value.record2.Some? <==>
        !op.opType.isInsert && !op.opType.isDelete && op.opType.isPkUpdate && cfg.pkHandling == PkDeleteInsert)
    ensures r.Success? && r.value.record2.Some? ==>
      && r.value.record2.value == Record(None, None, None, r.value.record2.value.after)
      && r.value.record2.value.after.Some?
      && (r.value.key2.Some? <==> hasKey)
    ensures r.Success? && r.value.record2.None? ==> r.value.key2.None?
  {
    var t := op.opType;
    var meta := OperationMetadata(cfg, t, op, tMeta, currentTs);
    var source := PayloadSource(op, nowMillis);
    if t.isInsert then
      var (values, key) :- ValuesOp(cfg, op, tMeta, After, hasKey);
      Success(Output(FullRecord(meta, source, After, values), key, None, None))
    else if t.isDelete then
      var (values, key) :- ValuesOp(cfg, op, tMeta, Before, hasKey);
      Success(Output(FullRecord(meta, source, Before, values), key, None, None))
    else if t.isPkUpdate then
      match cfg.pkHandling
      case PkAbend => Failure(PkUpdateAbend(tMeta.originalName))
      case PkUpdate =>
        var (values, key) :- ValuesOp(cfg, op, tMeta, After, hasKey);
        Success(Output(FullRecord(meta, source, After, values), key, None, None))
      case PkDeleteInsert =>
        var (before, key1) :- ValuesOp(cfg, op, tMeta, Before, hasKey);
        var (after, key2) :- ValuesOp(cfg, op, tMeta, After, hasKey);
        Success(Output(FullRecord(meta, source, Before, before), key1, Some(Record(None, None, None, Some(after))), key2))
    else if t.isUpdate then
      var (values, key) :- ValuesOp(cfg, op, tMeta, After, hasKey);
      Success(Output(FullRecord(meta, source, After, values), key, None, None))
    else
      Failure(UnknownOperation(tMeta.originalName))
  }
}
