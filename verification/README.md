# Kafka Connect row formatter — a Dafny model

This project models the per-operation logic of the Oracle GoldenGate Kafka
Connect formatter (`KafkaConnectFormatter`). It takes one change-data-capture
operation (an insert, delete, update or primary-key update) and formats it into
one or two Kafka Connect records, each paired with an optional key.

The model is made of pure functions over immutable datatypes:

- `PkPolicy`: `setPkUpdateHandling`, which turns a configuration string into the
  ABEND, UPDATE or DELETE_INSERT policy.
- `Formatter`: `formatOp` routing. The operation type is checked in the order
  insert, delete, primary-key update, update; a primary-key update then goes by
  the policy. Also the record metadata (`formatOperationMetadata`,
  `formatOpType`) and the `source` bookkeeping block (`formatPayloadSource`).
  The result is a `Result` holding either the two record/key slots or the
  exception that aborted the call.
- `Projection`: `formatBefore/AfterValues` and `formatBefore/AfterKeys`. These
  walk the operation's columns by position against the table's column
  metadata. A column contributes a field only when the chosen side's value
  object exists and is not null. Key blocks also keep only key columns.
  `Block` is the functional definition. `FormatValues` is the source's
  `cIndex` loop, proved equal to it.
- `Coercion`: `formatColumnValue`, which chooses the conversion by the
  column's JDBC type code (the `java.sql.Types` values). `Decimal` holds the
  `Integer.parseInt` and `Long.parseLong` syntax and ranges, together with a
  printer (`ShowInt`) that the parser is proved against in both directions.
  `Text` holds the case-insensitive comparison used by `Boolean.valueOf`.

`OpType` records the four classification tests the source asks of an operation
type (`isInsert`, `isDelete`, `isPkUpdate`, `isUpdate`) as independent
booleans. The operation-type enumeration is not part of this model, so the
order in which the router and `formatOpType` ask these questions stays visible.

Two behaviours of the code that a reader might not expect are modelled as written:

- The `op_type` code always comes from the original operation type. It is
  written once, before routing (line 211), and the per-side calls that would
  have used the forced type are commented out (lines 288 and 296). A
  primary-key update split into delete and insert is therefore not coded as
  a delete.
- The second record of a DELETE_INSERT split gets only an `after` block. It
  has no metadata and no `source` block (lines 241-247), so it shares neither
  table name nor position with the first record.

## Model

| member | source | states |
|---|---|---|
| PkPolicy.SetPkUpdateHandling | src/main/java/oracle/goldengate/kafkaconnect/formatter/KafkaConnectFormatter.java:114-128 | the policy is UPDATE exactly when ABEND does not match and UPDATE does; DELETE_INSERT exactly when neither earlier action matches and it does; a string no action matches gives ABEND |
| PkPolicy.ActionNameRoundTrip | src/main/java/oracle/goldengate/kafkaconnect/formatter/KafkaConnectFormatter.java:105-128 | each documented setting name ("abend", "update", "delete-insert"), in any letter case, selects its own action |
| PkPolicy.SettingSelectsNamedAction | src/main/java/oracle/goldengate/kafkaconnect/formatter/KafkaConnectFormatter.java:114-128 | under the name comparison, any setting selects UPDATE when it is "update", DELETE_INSERT when it is "delete-insert" (letter case ignored), and ABEND for every other string |
| PkPolicy.SettingExamples | src/main/java/oracle/goldengate/kafkaconnect/formatter/KafkaConnectFormatter.java:114-128 | illustrations only: "delete_insert", "" and "updates" fall back to ABEND, and "Delete-Insert" selects DELETE_INSERT |
| Decimal.ParseDecimal | src/main/java/oracle/goldengate/kafkaconnect/formatter/KafkaConnectFormatter.java:480-483 | parsing succeeds exactly on an optional single sign followed by one or more digits; a leading minus gives a non-positive value, otherwise non-negative |
| Decimal.ParseShowRoundTrip | src/main/java/oracle/goldengate/kafkaconnect/formatter/KafkaConnectFormatter.java:480-483 | parsing the printed form of any integer gives that integer back, and the printed form is canonical |
| Decimal.ShowParseRoundTrip | src/main/java/oracle/goldengate/kafkaconnect/formatter/KafkaConnectFormatter.java:480-483 | printing the value of any canonical decimal text gives the same text back |
| Decimal.ParseDecimalValue | src/main/java/oracle/goldengate/kafkaconnect/formatter/KafkaConnectFormatter.java:480-483 | every accepted decimal, including text with a `+`, leading zeros or "-0", parses to the number whose printed form is the text with the `+` and leading zeros dropped and negative zero read as zero |
| Decimal.LeadingZeroIgnored | src/main/java/oracle/goldengate/kafkaconnect/formatter/KafkaConnectFormatter.java:480-483 | a leading zero does not change the value of a digit string |
| Decimal.PlusSignIgnored | src/main/java/oracle/goldengate/kafkaconnect/formatter/KafkaConnectFormatter.java:480-483 | a leading `+` before digits is accepted and gives the same result as the digits alone |
| Decimal.NonCanonicalExamples | src/main/java/oracle/goldengate/kafkaconnect/formatter/KafkaConnectFormatter.java:480-483 | "+42" gives 42, "007" gives 7, "-0" gives 0 and "-00012" gives -12 |
| Decimal.ParseInt32 | src/main/java/oracle/goldengate/kafkaconnect/formatter/KafkaConnectFormatter.java:480 | `Integer.parseInt` succeeds exactly on decimal text (optional single sign, one or more digits) whose value lies in [-2^31, 2^31-1], and then returns that value |
| Decimal.ParseInt64 | src/main/java/oracle/goldengate/kafkaconnect/formatter/KafkaConnectFormatter.java:483 | `Long.parseLong` succeeds exactly on decimal text whose value lies in [-2^63, 2^63-1], and then returns that value |
| Decimal.ParseInt32OfShowInt | src/main/java/oracle/goldengate/kafkaconnect/formatter/KafkaConnectFormatter.java:480 | `Integer.parseInt` accepts the printed form of an integer exactly when it lies in the 32-bit range |
| Decimal.ParseInt64OfShowInt | src/main/java/oracle/goldengate/kafkaconnect/formatter/KafkaConnectFormatter.java:483 | `Long.parseLong` accepts the printed form of an integer exactly when it lies in the 64-bit range |
| Coercion.ParseBoolean | src/main/java/oracle/goldengate/kafkaconnect/formatter/KafkaConnectFormatter.java:489-490 | true exactly for four-character text spelling t, r, u, e with each letter in either case; every other text is false |
| Coercion.Coerce | src/main/java/oracle/goldengate/kafkaconnect/formatter/KafkaConnectFormatter.java:462-496 | treat-all-as-strings keeps the raw string; the integer family succeeds iff the text is a decimal in the 32-bit range, BIGINT iff in the 64-bit range, with that value; BOOLEAN never fails and gives the boolean reading; other non-floating types keep the raw string; NUMERIC/DOUBLE and FLOAT/REAL succeed exactly when their conversion does, with its value |
| Coercion.IntegerFamilyRoundTrip | src/main/java/oracle/goldengate/kafkaconnect/formatter/KafkaConnectFormatter.java:476-481 | BIT/TINYINT/SMALLINT/INTEGER columns convert the printed form of n to n when n fits 32 bits and fail otherwise |
| Coercion.BigIntRoundTrip | src/main/java/oracle/goldengate/kafkaconnect/formatter/KafkaConnectFormatter.java:482-484 | BIGINT columns convert the printed form of n to n when n fits 64 bits and fail otherwise |
| Coercion.BooleanCases | src/main/java/oracle/goldengate/kafkaconnect/formatter/KafkaConnectFormatter.java:489-491 | BOOLEAN columns never fail; "TRUE" and "True" give true, "yes" and "1" give false |
| Projection.Selected | src/main/java/oracle/goldengate/kafkaconnect/formatter/KafkaConnectFormatter.java:309-324 | the positions a block uses are exactly the columns that pass the inclusion rule, in increasing column order |
| Projection.BlockCharacterization | src/main/java/oracle/goldengate/kafkaconnect/formatter/KafkaConnectFormatter.java:345-360 | a block succeeds iff every included column converts; its fields are then, in column order, the converted values of exactly the included columns; otherwise the error is that of the first included column that fails |
| Projection.BlockSucceedsIff | src/main/java/oracle/goldengate/kafkaconnect/formatter/KafkaConnectFormatter.java:309-324 | a block succeeds exactly when every column that passes the inclusion rule converts |
| Projection.BlockFields | src/main/java/oracle/goldengate/kafkaconnect/formatter/KafkaConnectFormatter.java:309-324 | a successful block holds, in column order, the converted values of exactly the included columns |
| Projection.BlockFirstFailure | src/main/java/oracle/goldengate/kafkaconnect/formatter/KafkaConnectFormatter.java:319-322 | a failed block reports the error of the first included column that does not convert |
| Projection.FormatValues | src/main/java/oracle/goldengate/kafkaconnect/formatter/KafkaConnectFormatter.java:309-324 | the positional loop, stopping at the first conversion failure, computes the same block as the functional definition |
| Projection.BlockFailureSticks | src/main/java/oracle/goldengate/kafkaconnect/formatter/KafkaConnectFormatter.java:312-323 | once a column fails, the rest of the walk does not change the outcome |
| Projection.KeyBlockSucceedsWithPayload | src/main/java/oracle/goldengate/kafkaconnect/formatter/KafkaConnectFormatter.java:326-343 | a key block cannot fail where the payload block on the same side succeeded |
| Projection.KeyFieldsInPayload | src/main/java/oracle/goldengate/kafkaconnect/formatter/KafkaConnectFormatter.java:362-379 | every key field is a field of the payload block on the same side, with the same value |
| Projection.BlockDependsOnlyOnSideValues | src/main/java/oracle/goldengate/kafkaconnect/formatter/KafkaConnectFormatter.java:345-360 | a block depends only on which columns have a non-null value on its side and on those values |
| Projection.AbsentAndNullAlike | src/main/java/oracle/goldengate/kafkaconnect/formatter/KafkaConnectFormatter.java:314-322 | replacing an absent value object by one holding an explicit null leaves every block unchanged |
| Projection.BlockIgnoresOtherSide | src/main/java/oracle/goldengate/kafkaconnect/formatter/KafkaConnectFormatter.java:348-358 | changing a column's value on the other side leaves the block unchanged |
| Formatter.ValuesOp | src/main/java/oracle/goldengate/kafkaconnect/formatter/KafkaConnectFormatter.java:286-301 | fails exactly as the payload block fails; otherwise returns that block, plus a key from the same side exactly when the table has a key shape |
| Formatter.FormatOp | src/main/java/oracle/goldengate/kafkaconnect/formatter/KafkaConnectFormatter.java:197-272 | a successful result has metadata and a source block on the first record and exactly one payload block there; a first key iff the schema has a key shape; a second record only for a primary-key update under DELETE_INSERT, and that record holds only an after block |
| FormatterProperties.InsertRouting | src/main/java/oracle/goldengate/kafkaconnect/formatter/KafkaConnectFormatter.java:216-220 | an insert gives one record with only the after block, a key from the after values, and empty second slots |
| FormatterProperties.DeleteRouting | src/main/java/oracle/goldengate/kafkaconnect/formatter/KafkaConnectFormatter.java:221-225 | a delete gives one record with only the before block, a key from the before values, and empty second slots |
| FormatterProperties.UpdateRouting | src/main/java/oracle/goldengate/kafkaconnect/formatter/KafkaConnectFormatter.java:249-253 | a plain update gives one record with only the after block and empty second slots |
| FormatterProperties.PkUpdateAbends | src/main/java/oracle/goldengate/kafkaconnect/formatter/KafkaConnectFormatter.java:229-232 | a primary-key update under ABEND throws, so no output is set |
| FormatterProperties.PkUpdateAsUpdate | src/main/java/oracle/goldengate/kafkaconnect/formatter/KafkaConnectFormatter.java:233-236 | a primary-key update under UPDATE gives one record with only the after block |
| FormatterProperties.PkUpdateAsDeleteInsert | src/main/java/oracle/goldengate/kafkaconnect/formatter/KafkaConnectFormatter.java:237-248 | under DELETE_INSERT the first record carries the before block with a key from before values; the second carries only an after block with a key from after values; the before side's error is reported first |
| FormatterProperties.UnknownOperationFails | src/main/java/oracle/goldengate/kafkaconnect/formatter/KafkaConnectFormatter.java:254-259 | an operation that is none of insert, delete, primary-key update or update throws |
| FormatterProperties.DefaultConfigAbendsOnPkUpdate | src/main/java/oracle/goldengate/kafkaconnect/formatter/KafkaConnectFormatter.java:42-46 | with the default settings every primary-key update fails |
| FormatterProperties.MetadataAndSource | src/main/java/oracle/goldengate/kafkaconnect/formatter/KafkaConnectFormatter.java:381-437 | `op_type` is the insert, update or delete code of the original operation type, checked in that order, and absent otherwise; `table`, `op_ts` and `pos` copy their inputs; the source block holds the short table name, false, true, 0 and 0 |
| FormatterProperties.DeleteInsertKeepsUpdateCode | src/main/java/oracle/goldengate/kafkaconnect/formatter/KafkaConnectFormatter.java:211-248 | a split primary-key update that also reports itself as an update has a first record holding the before block but coded as an update, and a second record with no metadata |
| FormatterProperties.OpTypeCodeIdentifiesType | src/main/java/oracle/goldengate/kafkaconnect/formatter/KafkaConnectFormatter.java:417-425 | when the three configured codes differ, the `op_type` code is the insert code iff the type is an insert, the update code iff it is an update and not an insert, the delete code iff it is a delete and neither of those, and absent iff none of the three |
| FormatterProperties.KeysWithinRecords | src/main/java/oracle/goldengate/kafkaconnect/formatter/KafkaConnectFormatter.java:326-379 | every field of either key is a field of the block of its record |
| FormatterProperties.OnlyGeneratedValuesDiffer | src/main/java/oracle/goldengate/kafkaconnect/formatter/KafkaConnectFormatter.java:381-399 | formatting one operation twice gives the same outcome except for the current timestamp and the clock reading |
| FormatterProperties.AfterImageIgnoresBeforeValues | src/main/java/oracle/goldengate/kafkaconnect/formatter/KafkaConnectFormatter.java:216-253 | inserts, plain updates and primary-key updates under UPDATE give the same output whatever the before values are |

## Left out

- Floating-point conversion is not modelled. This covers NUMERIC/DOUBLE (`Double.valueOf`, then `BigDecimal` rounding to 16 fractional digits half-up) and FLOAT/REAL (`Float.parseFloat`). Both are function parameters of `Coercion.Options` that may fail, because IEEE-754 arithmetic is out of scope.
- The generated `current_ts` (`NgUniqueTimestamp`) and the `System.currentTimeMillis()` reading in the source block are nondeterministic. They are parameters of `Formatter.FormatOp`, so the `useIso8601Format` setting has nothing to act on.
- `KafkaConnectSchemaGenerator` is not part of this model. This covers the schema cache, `getSchema` and `dropSchema` (so `ddlOperation`). The key shape's presence is the `hasKey` input.
- A Kafka Connect `Struct` is modelled as the fields put into it, in put order. A real `Struct` has one slot per field of its schema. Fields never put stay null, and the field order is the schema's, which comes from the schema generator that is not modelled. So "in column order" in `Projection.Selected` and `Projection.BlockFields` means the order in which the loop puts the fields. Schema validation on `put`, and overwriting when one name is put twice, are not modelled either.
- The data carried by `Errors.Error` belongs to the model: the table name in `PkUpdateAbend` and `UnknownOperation`, and the column and raw text in `CoercionFailed`. The source's ABEND exception has a fixed message, its unknown-operation message names the operation type, and a `NumberFormatException` names only the input text. Message texts are not modelled.
- `KafkaConnectFormattedData` is not part of this model. Its `setRecord`/`setKey` calls become the two record/key slots of `Formatter.Output`.
- Formatter.FormatOp: requires at least as many column metadata entries as operation columns. What `getColumnMetaData` does past the end is not visible.
- `init` (its configuration summary and the schema generator setup), every logger call, and the exception's message text are left out. The `versionAvroSchemas` flag is never read and is left out too.
- The setters `setInsertOpKey`, `setUpdateOpKey`, `setDeleteOpKey` and `setTreatAllColumnsAsStrings` only assign fields. They are the fields of `Formatter.Config`, with `Formatter.DefaultConfig` giving the initial values.
- `setIso8601Format` and its `useIso8601Format` field are left out together with `current_ts`: the flag only selects the format of the generated timestamp, which is a parameter of `Formatter.FormatOp`.
- `formatPrimaryKeys`, `formatTokens` and `formatEmptyValuesOp` are never called, and are left out.
- `beginTx`, `endTx`, `metaDataChanged` and `createNgFormattedData` are stubs, and are left out.
- PkPolicy.SetPkUpdateHandling: `PkHandling` and its `compareAction` are not part of this model, so the comparison is a parameter. The lemmas use case-insensitive equality with the names the setter documents.
- Decimal.ParseDecimal: accepts ASCII digits only. `Integer.parseInt` also accepts other Unicode decimal digits through `Character.digit`.
- Coercion.ParseBoolean: letter case is folded for ASCII letters only. `String.equalsIgnoreCase` also folds non-ASCII characters.
