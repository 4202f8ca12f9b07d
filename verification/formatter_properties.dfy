/** What `formatOp` produces for each kind of operation and each primary-key policy. */
module FormatterProperties {
  import opened Wrappers
  import opened Errors
  import opened Projection
  import opened PkPolicy
  import opened Formatter

  /** The key slot filled from `side`: the key block when the table has a key shape, nothing otherwise. */
  ghost predicate KeyFrom(key: Option<Struct>, cfg: Config, op: Operation, tMeta: TableMeta, side: Side, hasKey: bool)
    requires Aligned(op, tMeta)
  {
    if hasKey then KeyBlock(cfg, op, tMeta, side).Success? && key == Some(KeyBlock(cfg, op, tMeta, side).value)
    else key == None
  }

  /**
   * `r` is the single-record result on `side`: it fails exactly as that side's
   * payload block fails; otherwise the first record holds the metadata of the
   * original operation, the source block and only that side's block, the first
   * key comes from the same side, and the second record and key are empty.
   */
  ghost predicate OneRecordFrom(
    r: Result<Output, Error>, cfg: Config, op: Operation, tMeta: TableMeta, side: Side,
    hasKey: bool, currentTs: string, nowMillis: int)
    requires Aligned(op, tMeta)
  {
    var payload := PayloadBlock(cfg, op, tMeta, side);
    && (r.Success? <==> payload.Success?)
    && (r.Failure? ==> r.error == payload.error)
    && (r.Success? ==>
          && r.value.record1 == FullRecord(OperationMetadata(cfg, op.opType, op, tMeta, currentTs),
                                           PayloadSource(op, nowMillis), side, payload.value)
          && KeyFrom(r.value.key1, cfg, op, tMeta, side, hasKey)
          && r.value.record2 == None
          && r.value.key2 == None)
  }

  /** An insert produces one record with only an after block, keyed from the after values. */
  lemma InsertRouting(cfg: Config, op: Operation, tMeta: TableMeta, hasKey: bool, currentTs: string, nowMillis: int)
    requires Aligned(op, tMeta) && op.opType.isInsert
    ensures OneRecordFrom(FormatOp(cfg, op, tMeta, hasKey, currentTs, nowMillis), cfg, op, tMeta, After, hasKey, currentTs, nowMillis)
  {
  }

  /** A delete produces one record with only a before block, keyed from the before values. */
  lemma DeleteRouting(cfg: Config, op: Operation, tMeta: TableMeta, hasKey: bool, currentTs: string, nowMillis: int)
    requires Aligned(op, tMeta) && !op.opType.isInsert && op.opType.isDelete
    ensures OneRecordFrom(FormatOp(cfg, op, tMeta, hasKey, currentTs, nowMillis), cfg, op, tMeta, Before, hasKey, currentTs, nowMillis)
  {
  }

  /** A plain update produces one record with only an after block, although before values exist. */
  lemma UpdateRouting(cfg: Config, op: Operation, tMeta: TableMeta, hasKey: bool, currentTs: string, nowMillis: int)
    requires Aligned(op, tMeta)
    requires !op.opType.isInsert && !op.opType.isDelete && !op.opType.isPkUpdate && op.opType.isUpdate
    ensures OneRecordFrom(FormatOp(cfg, op, tMeta, hasKey, currentTs, nowMillis), cfg, op, tMeta, After, hasKey, currentTs, nowMillis)
  {
  }

  /** A primary-key update under ABEND throws, and so no slot of the output is set. */
  lemma PkUpdateAbends(cfg: Config, op: Operation, tMeta: TableMeta, hasKey: bool, currentTs: string, nowMillis: int)
    requires Aligned(op, tMeta)
    requires !op.opType.isInsert && !op.opType.isDelete && op.opType.isPkUpdate && cfg.pkHandling == PkAbend
    ensures FormatOp(cfg, op, tMeta, hasKey, currentTs, nowMillis) == Failure(PkUpdateAbend(tMeta.originalName))
  {
  }

  /** A primary-key update under UPDATE is formatted as one record with an after block. */
  lemma PkUpdateAsUpdate(cfg: Config, op: Operation, tMeta: TableMeta, hasKey: bool, currentTs: string, nowMillis: int)
    requires Aligned(op, tMeta)
    requires !op.opType.isInsert && !op.opType.isDelete && op.opType.isPkUpdate && cfg.pkHandling == PkUpdate
    ensures OneRecordFrom(FormatOp(cfg, op, tMeta, hasKey, currentTs, nowMillis), cfg, op, tMeta, After, hasKey, currentTs, nowMillis)
  {
  }

  /**
   * A primary-key update under DELETE_INSERT: the first record carries metadata,
   * the source block and the before block, with its key from the before values;
   * the second record carries only an after block, with its key from the after
   * values. It fails with the before side's error first, then the after side's.
   */
  lemma PkUpdateAsDeleteInsert(cfg: Config, op: Operation, tMeta: TableMeta, hasKey: bool, currentTs: string, nowMillis: int)
    requires Aligned(op, tMeta)
    requires !op.opType.isInsert && !op.opType.isDelete && op.opType.isPkUpdate && cfg.pkHandling == PkDeleteInsert
    ensures
      var r := FormatOp(cfg, op, tMeta, hasKey, currentTs, nowMillis);
      var before := PayloadBlock(cfg, op, tMeta, Before);
      var after := PayloadBlock(cfg, op, tMeta, After);
      && (r.Success? <==> before.Success? && after.Success?)
      && (r.Failure? ==> r.error == if before.Failure? then before.error else after.error)
      && (r.Success? ==>
            && r.value.record1 == Record(Some(OperationMetadata(cfg, op.opType, op, tMeta, currentTs)),
                                         Some(PayloadSource(op, nowMillis)), Some(before.value), None)
            && KeyFrom(r.value.key1, cfg, op, tMeta, Before, hasKey)
            && r.value.record2 == Some(Record(None, None, None, Some(after.value)))
            && KeyFrom(r.value.key2, cfg, op, tMeta, After, hasKey))
  {
  }

  /** An operation that is none of insert, delete, primary-key update or update throws. */
  lemma UnknownOperationFails(cfg: Config, op: Operation, tMeta: TableMeta, hasKey: bool, currentTs: string, nowMillis: int)
    requires Aligned(op, tMeta)
    requires !op.opType.isInsert && !op.opType.isDelete && !op.opType.isPkUpdate && !op.opType.isUpdate
    ensures FormatOp(cfg, op, tMeta, hasKey, currentTs, nowMillis) == Failure(UnknownOperation(tMeta.originalName))
  {
  }

  /** A freshly configured formatter abends on every primary-key update. */
  lemma DefaultConfigAbendsOnPkUpdate(
    toRoundedDouble: string -> Option<bv64>, parseFloat: string -> Option<bv32>,
    op: Operation, tMeta: TableMeta, hasKey: bool, currentTs: string, nowMillis: int)
    requires Aligned(op, tMeta)
    requires !op.opType.isInsert && !op.opType.isDelete && op.opType.isPkUpdate
    ensures FormatOp(DefaultConfig(toRoundedDouble, parseFloat), op, tMeta, hasKey, currentTs, nowMillis).Failure?
  {
  }

  /**
   * Whenever formatting succeeds, the first record's metadata describes the
   * ORIGINAL operation type, whatever record the router chose, and copies the
   * table's original name, the operation timestamp and position; the source
   * block holds the table's short name and the fixed placeholder values.
   */
  lemma MetadataAndSource(cfg: Config, op: Operation, tMeta: TableMeta, hasKey: bool, currentTs: string, nowMillis: int)
    requires Aligned(op, tMeta)
    ensures
      var r := FormatOp(cfg, op, tMeta, hasKey, currentTs, nowMillis);
      var t := op.opType;
      r.Success? ==>
        && r.value.record1.metadata == Some(Metadata(
             tMeta.originalName,
             if t.isInsert then Some(cfg.insertOpKey)
             else if t.isUpdate then Some(cfg.updateOpKey)
             else if t.isDelete then Some(cfg.deleteOpKey)
             else None,
             op.timestamp, currentTs, op.position))
        && r.value.record1.source == Some(Source(op.tableShortName, false, true, 0, 0, nowMillis))
  {
  }

  /**
   * A primary-key update that also reports itself as an update is split by
   * DELETE_INSERT into a first record that holds the before block yet is coded
   * as an update, and a second record with no code at all.
   */
  lemma DeleteInsertKeepsUpdateCode(cfg: Config, op: Operation, tMeta: TableMeta, hasKey: bool, currentTs: string, nowMillis: int)
    requires Aligned(op, tMeta)
    requires op.opType == OpType(false, false, true, true) && cfg.pkHandling == PkDeleteInsert
    requires FormatOp(cfg, op, tMeta, hasKey, currentTs, nowMillis).Success?
    ensures
      var o := FormatOp(cfg, op, tMeta, hasKey, currentTs, nowMillis).value;
      && o.record1.before.Some?
      && o.record1.metadata.Some? && o.record1.metadata.value.opType == Some(cfg.updateOpKey)
      && o.record2.Some? && o.record2.value.metadata == None
  {
  }

  /** Every key field is a field of the block of the record it belongs to. */
  lemma KeysWithinRecords(cfg: Config, op: Operation, tMeta: TableMeta, hasKey: bool, currentTs: string, nowMillis: int)
    requires Aligned(op, tMeta)
    requires FormatOp(cfg, op, tMeta, hasKey, currentTs, nowMillis).Success?
    ensures
      var o := FormatOp(cfg, op, tMeta, hasKey, currentTs, nowMillis).value;
      var block1 := if o.record1.before.Some? then o.record1.before.value else o.record1.after.value;
      && (o.key1.Some? ==> forall f :: f in o.key1.value ==> f in block1)
      && (o.key2.Some? && o.record2.Some? ==>
            o.record2.value.after.Some? && forall f :: f in o.key2.value ==> f in o.record2.value.after.value)
  {
    var n := |op.columns|;
    var t := op.opType;
    if t.isInsert || (!t.isDelete && (t.isUpdate || t.isPkUpdate)) {
      KeyFieldsInPayload(cfg.coercion, op.columns, tMeta.columns, After, n);
    }
    if !t.isInsert && (t.isDelete || (t.isPkUpdate && cfg.pkHandling == PkDeleteInsert)) {
      KeyFieldsInPayload(cfg.coercion, op.columns, tMeta.columns, Before, n);
    }
  }

  /** Blanks the two generated values: the current timestamp and the clock reading. */
  function WithoutGeneratedValues(o: Output): Output {
    var r1 := o.record1;
    var meta := if r1.metadata.Some? then Some(r1.metadata.value.(currentTs := "")) else None;
    var source := if r1.source.Some? then Some(r1.source.value.(binlogTs := 0)) else None;
    o.(record1 := r1.(metadata := meta, source := source))
  }

  /** Formatting the same operation twice gives the same result apart from the generated values. */
  lemma OnlyGeneratedValuesDiffer(
    cfg: Config, op: Operation, tMeta: TableMeta, hasKey: bool,
    currentTs1: string, nowMillis1: int, currentTs2: string, nowMillis2: int)
    requires Aligned(op, tMeta)
    ensures
      var r1 := FormatOp(cfg, op, tMeta, hasKey, currentTs1, nowMillis1);
      var r2 := FormatOp(cfg, op, tMeta, hasKey, currentTs2, nowMillis2);
      && (r1.Success? <==> r2.Success?)
      && (r1.Failure? ==> r1.error == r2.error)
      && (r1.Success? ==> WithoutGeneratedValues(r1.value) == WithoutGeneratedValues(r2.value))
  {
  }

  /**
   * Inserts, plain updates and primary-key updates under UPDATE ignore the
   * before values: replacing them changes nothing in the output.
   */
  lemma AfterImageIgnoresBeforeValues(
    cfg: Config, op: Operation, op2: Operation, tMeta: TableMeta, hasKey: bool, currentTs: string, nowMillis: int)
    requires Aligned(op, tMeta)
    requires op2 == op.(columns := op2.columns) && |op2.columns| == |op.columns|
    requires forall i :: 0 <= i < |op.columns| ==> op2.columns[i].after == op.columns[i].after
    requires op.opType.isInsert || (!op.opType.isDelete && op.opType.isPkUpdate && cfg.pkHandling == PkUpdate)
          || (!op.opType.isDelete && !op.opType.isPkUpdate && op.opType.isUpdate)
    ensures FormatOp(cfg, op2, tMeta, hasKey, currentTs, nowMillis) == FormatOp(cfg, op, tMeta, hasKey, currentTs, nowMillis)
  {
    var n := |op.columns|;
    BlockDependsOnlyOnSideValues(cfg.coercion, op2.columns, op.columns, tMeta.columns, After, false, n);
    BlockDependsOnlyOnSideValues(cfg.coercion, op2.columns, op.columns, tMeta.columns, After, true, n);
  }

  /**
   * When the three configured codes differ, the `op_type` code identifies
   * which of the classification tests decided it, in their order.
   */
  lemma OpTypeCodeIdentifiesType(cfg: Config, t: OpType)
    requires cfg.insertOpKey != cfg.updateOpKey
    requires cfg.insertOpKey != cfg.deleteOpKey
    requires cfg.updateOpKey != cfg.deleteOpKey
    ensures OpTypeCode(cfg, t) == Some(cfg.insertOpKey) <==> t.isInsert
    ensures OpTypeCode(cfg, t) == Some(cfg.updateOpKey) <==> !t.isInsert && t.isUpdate
    ensures OpTypeCode(cfg, t) == Some(cfg.deleteOpKey) <==> !t.isInsert && !t.isUpdate && t.isDelete
    ensures OpTypeCode(cfg, t) == None <==> !t.isInsert && !t.isUpdate && !t.isDelete
  {
  }
}
