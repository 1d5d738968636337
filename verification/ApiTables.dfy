/**
 The field tables of the generated records, in source order, with the mask bytes and the key
 switch of each Decode. `date` and `uri` read the textual form of a date-time and of a URI;
 their spelling is library code, so they stay parameters. Enums and the 64-bit number strings
 are read verbatim by the generated code.
 */
module ApiTables {
  import opened Wrappers
  import opened PresenceBits
  import opened RecordCodec
  import opened TableChecks

  const PLAIN: Shape := Text(Verbatim)
  const NIL_PLAIN: Shape := Nullable(Verbatim)
  const INT64: Shape := Integer(-0x8000_0000_0000_0000, 0x7FFF_FFFF_FFFF_FFFF)
  const INT32: Shape := Integer(-0x8000_0000, 0x7FFF_FFFF)

  function CollectionWarningFields(): seq<Field> {
    [
      Field("kind", Required, PLAIN),
      Field("code", Required, PLAIN),
      Field("message", Required, PLAIN),
      Field("nodeId", Optional, PLAIN)
    ]
  }

  function CollectionWarning(): Shape {
    Record(CollectionWarningFields(), [Flags(0x07)], false)
  }

  function CollectionWarningSlot(key: string): int {
    match key
    case "kind" => 0
    case "code" => 1
    case "message" => 2
    case "nodeId" => 3
    case _ => -1
  }

  lemma CollectionWarningLands(key: string)
    ensures Lands(CollectionWarningSlot, CollectionWarning(), key)
  {
    var slot := CollectionWarningSlot(key);
    if slot >= 0 {
      assert CollectionWarning().fields[slot].name == key;
    }
  }

  lemma CollectionWarningWf()
    ensures Wf(CollectionWarning()) && Switches(CollectionWarningSlot, CollectionWarning())
  {
    First(CollectionWarningSlot, CollectionWarningFields(), Flags(0x07));
    TableWf(CollectionWarningSlot, CollectionWarningFields(), [Flags(0x07)], false);
    forall key: string ensures Lands(CollectionWarningSlot, CollectionWarning(), key) {
      CollectionWarningLands(key);
    }
  }

  function CollectionMetaFields(date: Parser): seq<Field> {
    [
      Field("collectedAt", Required, Text(date)),
      Field("partial", Required, Boolean),
      Field("collectionDurationMs", Required, INT64),
      Field("nodesExpected", Required, INT64),
      Field("nodesResponded", Required, INT64),
      Field("nodesFailed", Required, INT64),
      Field("warnings", Required, Slice(CollectionWarning()))
    ]
  }

  function CollectionMeta(date: Parser): Shape {
    Record(CollectionMetaFields(date), [Flags(0x7F)], false)
  }

  function CollectionMetaSlot(key: string): int {
    match key
    case "collectedAt" => 0
    case "partial" => 1
    case "collectionDurationMs" => 2
    case "nodesExpected" => 3
    case "nodesResponded" => 4
    case "nodesFailed" => 5
    case "warnings" => 6
    case _ => -1
  }

  lemma CollectionMetaLands(date: Parser, key: string)
    ensures Lands(CollectionMetaSlot, CollectionMeta(date), key)
  {
    var slot := CollectionMetaSlot(key);
    if slot >= 0 {
      assert CollectionMeta(date).fields[slot].name == key;
    }
  }

  lemma CollectionMetaWf(date: Parser)
    ensures Wf(CollectionMeta(date)) && Switches(CollectionMetaSlot, CollectionMeta(date))
  {
    CollectionWarningWf();
    First(CollectionMetaSlot, CollectionMetaFields(date), Flags(0x7F));
    TableWf(CollectionMetaSlot, CollectionMetaFields(date), [Flags(0x7F)], false);
    forall key: string ensures Lands(CollectionMetaSlot, CollectionMeta(date), key) {
      CollectionMetaLands(date, key);
    }
  }

  function ConditionByte0(): seq<Field> {
    [
      Field("conditionId", Required, PLAIN),
      Field("severity", Required, PLAIN),
      Field("code", Required, PLAIN),
      Field("message", Required, PLAIN),
      Field("database", Optional, NIL_PLAIN),
      Field("table", Optional, NIL_PLAIN),
      Field("partition", Optional, NIL_PLAIN),
      Field("partitionId", Optional, NIL_PLAIN)
    ]
  }

  function ConditionByte1(date: Parser): seq<Field> {
    [
      Field("nodeId", Optional, NIL_PLAIN),
      Field("observedAt", Required, Text(date)),
      Field("evidence", Optional, Dict(RawJson)),
      Field("links", Optional, Dict(PLAIN))
    ]
  }

  function Condition(date: Parser): Shape {
    Record(ConditionByte0() + ConditionByte1(date), [Flags(0x0F), Flags(0x02)], false)
  }

  function ConditionSlot(key: string): int {
    match key
    case "conditionId" => 0
    case "severity" => 1
    case "code" => 2
    case "message" => 3
    case "database" => 4
    case "table" => 5
    case "partition" => 6
    case "partitionId" => 7
    case "nodeId" => 8
    case "observedAt" => 9
    case "evidence" => 10
    case "links" => 11
    case _ => -1
  }

  lemma ConditionByte0Ok()
    ensures ByteOk(ConditionSlot, ConditionByte0(), Flags(0x0F), 0)
  {
    assert ConditionSlot("conditionId") == 0;
    assert ConditionSlot("severity") == 1;
    assert ConditionSlot("code") == 2;
    assert ConditionSlot("message") == 3;
    assert ConditionSlot("database") == 4;
    assert ConditionSlot("table") == 5;
    assert ConditionSlot("partition") == 6;
    assert ConditionSlot("partitionId") == 7;
  }

  lemma ConditionByte1Ok(date: Parser)
    ensures ByteOk(ConditionSlot, ConditionByte1(date), Flags(0x02), 8)
  {
    assert Wf(Dict(PLAIN));
    assert Wf(Dict(RawJson));
    assert ConditionSlot("nodeId") == 8;
    assert ConditionSlot("observedAt") == 9;
    assert ConditionSlot("evidence") == 10;
    assert ConditionSlot("links") == 11;
  }

  lemma ConditionLands(date: Parser, key: string)
    ensures Lands(ConditionSlot, Condition(date), key)
  {
    var slot := ConditionSlot(key);
    if slot >= 0 {
      assert Condition(date).fields[slot].name == key;
    }
  }

  lemma ConditionWf(date: Parser)
    ensures Wf(Condition(date)) && Switches(ConditionSlot, Condition(date))
  {
    ConditionByte0Ok();
    ConditionByte1Ok(date);
    var fields, masks := ConditionByte0(), [Flags(0x0F)];
    First(ConditionSlot, fields, masks[0]);
    Extend(ConditionSlot, fields, masks, ConditionByte1(date), Flags(0x02));
    fields, masks := fields + ConditionByte1(date), masks + [Flags(0x02)];
    TableWf(ConditionSlot, fields, masks, false);
    assert masks == Condition(date).masks;
    forall key: string ensures Lands(ConditionSlot, Condition(date), key) {
      ConditionLands(date, key);
    }
  }

  function TieringConditionByte0(date: Parser): seq<Field> {
    [
      Field("severity", Required, PLAIN),
      Field("code", Required, PLAIN),
      Field("message", Required, PLAIN),
      Field("observedAt", Required, Text(date)),
      Field("nodeId", Optional, PLAIN),
      Field("database", Optional, PLAIN),
      Field("table", Optional, PLAIN),
      Field("partition", Optional, PLAIN)
    ]
  }

  function TieringConditionByte1(): seq<Field> {
    [
      Field("partitionId", Optional, PLAIN)
    ]
  }

  function TieringCondition(date: Parser): Shape {
    Record(TieringConditionByte0(date) + TieringConditionByte1(), [Flags(0x0F), Flags(0x00)], false)
  }

  function TieringConditionSlot(key: string): int {
    match key
    case "severity" => 0
    case "code" => 1
    case "message" => 2
    case "observedAt" => 3
    case "nodeId" => 4
    case "database" => 5
    case "table" => 6
    case "partition" => 7
    case "partitionId" => 8
    case _ => -1
  }

  lemma TieringConditionByte0Ok(date: Parser)
    ensures ByteOk(TieringConditionSlot, TieringConditionByte0(date), Flags(0x0F), 0)
  {
    assert TieringConditionSlot("severity") == 0;
    assert TieringConditionSlot("code") == 1;
    assert TieringConditionSlot("message") == 2;
    assert TieringConditionSlot("observedAt") == 3;
    assert TieringConditionSlot("nodeId") == 4;
    assert TieringConditionSlot("database") == 5;
    assert TieringConditionSlot("table") == 6;
    assert TieringConditionSlot("partition") == 7;
  }

  lemma TieringConditionByte1Ok()
    ensures ByteOk(TieringConditionSlot, TieringConditionByte1(), Flags(0x00), 8)
  {
    assert TieringConditionSlot("partitionId") == 8;
  }

  lemma TieringConditionLands(date: Parser, key: string)
    ensures Lands(TieringConditionSlot, TieringCondition(date), key)
  {
    var slot := TieringConditionSlot(key);
    if slot >= 0 {
      assert TieringCondition(date).fields[slot].name == key;
    }
  }

  lemma TieringConditionWf(date: Parser)
    ensures Wf(TieringCondition(date)) && Switches(TieringConditionSlot, TieringCondition(date))
  {
    TieringConditionByte0Ok(date);
    TieringConditionByte1Ok();
    var fields, masks := TieringConditionByte0(date), [Flags(0x0F)];
    First(TieringConditionSlot, fields, masks[0]);
    Extend(TieringConditionSlot, fields, masks, TieringConditionByte1(), Flags(0x00));
    fields, masks := fields + TieringConditionByte1(), masks + [Flags(0x00)];
    TableWf(TieringConditionSlot, fields, masks, false);
    assert masks == TieringCondition(date).masks;
    forall key: string ensures Lands(TieringConditionSlot, TieringCondition(date), key) {
      TieringConditionLands(date, key);
    }
  }

  function TieringTablePlanByte0(date: Parser): seq<Field> {
    [
      Field("nodeId", Required, PLAIN),
      Field("database", Required, PLAIN),
      Field("table", Required, PLAIN),
      Field("reconciledAt", Required, Text(date)),
      Field("tickDurationMs", Required, INT64),
      Field("generation", Required, PLAIN),
      Field("lastError", Required, NIL_PLAIN),
      Field("partitions", Required, INT64)
    ]
  }

  function TieringTablePlanByte1(date: Parser): seq<Field> {
    [
      Field("actionable", Required, INT64),
      Field("conditions", Required, Slice(TieringCondition(date)))
    ]
  }

  function TieringTablePlan(date: Parser): Shape {
    Record(TieringTablePlanByte0(date) + TieringTablePlanByte1(date), [Flags(0xFF), Flags(0x03)], false)
  }

  function TieringTablePlanSlot(key: string): int {
    match key
    case "nodeId" => 0
    case "database" => 1
    case "table" => 2
    case "reconciledAt" => 3
    case "tickDurationMs" => 4
    case "generation" => 5
    case "lastError" => 6
    case "partitions" => 7
    case "actionable" => 8
    case "conditions" => 9
    case _ => -1
  }

  lemma TieringTablePlanByte0Ok(date: Parser)
    ensures ByteOk(TieringTablePlanSlot, TieringTablePlanByte0(date), Flags(0xFF), 0)
  {
    assert TieringTablePlanSlot("nodeId") == 0;
    assert TieringTablePlanSlot("database") == 1;
    assert TieringTablePlanSlot("table") == 2;
    assert TieringTablePlanSlot("reconciledAt") == 3;
    assert TieringTablePlanSlot("tickDurationMs") == 4;
    assert TieringTablePlanSlot("generation") == 5;
    assert TieringTablePlanSlot("lastError") == 6;
    assert TieringTablePlanSlot("partitions") == 7;
  }

  lemma TieringTablePlanByte1Ok(date: Parser)
    ensures ByteOk(TieringTablePlanSlot, TieringTablePlanByte1(date), Flags(0x03), 8)
  {
    TieringConditionWf(date);
    assert Wf(Slice(TieringCondition(date)));
    assert TieringTablePlanSlot("actionable") == 8;
    assert TieringTablePlanSlot("conditions") == 9;
  }

  lemma TieringTablePlanLands(date: Parser, key: string)
    ensures Lands(TieringTablePlanSlot, TieringTablePlan(date), key)
  {
    var slot := TieringTablePlanSlot(key);
    if slot >= 0 {
      assert TieringTablePlan(date).fields[slot].name == key;
    }
  }

  lemma TieringTablePlanWf(date: Parser)
    ensures Wf(TieringTablePlan(date)) && Switches(TieringTablePlanSlot, TieringTablePlan(date))
  {
    TieringTablePlanByte0Ok(date);
    TieringTablePlanByte1Ok(date);
    var fields, masks := TieringTablePlanByte0(date), [Flags(0xFF)];
    First(TieringTablePlanSlot, fields, masks[0]);
    Extend(TieringTablePlanSlot, fields, masks, TieringTablePlanByte1(date), Flags(0x03));
    fields, masks := fields + TieringTablePlanByte1(date), masks + [Flags(0x03)];
    TableWf(TieringTablePlanSlot, fields, masks, false);
    assert masks == TieringTablePlan(date).masks;
    forall key: string ensures Lands(TieringTablePlanSlot, TieringTablePlan(date), key) {
      TieringTablePlanLands(date, key);
    }
  }

  function TieringDiskPartFields(): seq<Field> {
    [
      Field("disk", Required, PLAIN),
      Field("parts", Required, PLAIN)
    ]
  }

  function TieringDiskPart(): Shape {
    Record(TieringDiskPartFields(), [Flags(0x03)], false)
  }

  function TieringDiskPartSlot(key: string): int {
    match key
    case "disk" => 0
    case "parts" => 1
    case _ => -1
  }

  lemma TieringDiskPartLands(key: string)
    ensures Lands(TieringDiskPartSlot, TieringDiskPart(), key)
  {
    var slot := TieringDiskPartSlot(key);
    if slot >= 0 {
      assert TieringDiskPart().fields[slot].name == key;
    }
  }

  lemma TieringDiskPartWf()
    ensures Wf(TieringDiskPart()) && Switches(TieringDiskPartSlot, TieringDiskPart())
  {
    First(TieringDiskPartSlot, TieringDiskPartFields(), Flags(0x03));
    TableWf(TieringDiskPartSlot, TieringDiskPartFields(), [Flags(0x03)], false);
    forall key: string ensures Lands(TieringDiskPartSlot, TieringDiskPart(), key) {
      TieringDiskPartLands(key);
    }
  }

  function TieringPolicyByte0(): seq<Field> {
    [
      Field("mode", Required, PLAIN),
      Field("ageBasis", Required, PLAIN),
      Field("olderThan", Optional, PLAIN),
      Field("field", Optional, PLAIN),
      Field("keepLast", Optional, PLAIN),
      Field("quietFor", Required, PLAIN),
      Field("tierFrozenAfter", Required, PLAIN),
      Field("targetDisk", Required, PLAIN)
    ]
  }

  function TieringPolicyByte1(): seq<Field> {
    [
      Field("hotVolume", Optional, PLAIN),
      Field("optimizeToParts", Required, PLAIN),
      Field("skipOptimize", Required, Boolean),
      Field("optimizeOn", Required, PLAIN),
      Field("optimizeSkipAboveBytes", Required, PLAIN),
      Field("resplitStrategy", Required, PLAIN),
      Field("resplitQuietFor", Required, PLAIN),
      Field("fragmentAbovePartCount", Required, PLAIN)
    ]
  }

  function TieringPolicy(): Shape {
    Record(TieringPolicyByte0() + TieringPolicyByte1(), [Flags(0xE3), Flags(0xFE)], false)
  }

  function TieringPolicySlot(key: string): int {
    match key
    case "mode" => 0
    case "ageBasis" => 1
    case "olderThan" => 2
    case "field" => 3
    case "keepLast" => 4
    case "quietFor" => 5
    case "tierFrozenAfter" => 6
    case "targetDisk" => 7
    case "hotVolume" => 8
    case "optimizeToParts" => 9
    case "skipOptimize" => 10
    case "optimizeOn" => 11
    case "optimizeSkipAboveBytes" => 12
    case "resplitStrategy" => 13
    case "resplitQuietFor" => 14
    case "fragmentAbovePartCount" => 15
    case _ => -1
  }

  lemma TieringPolicyByte0Ok()
    ensures ByteOk(TieringPolicySlot, TieringPolicyByte0(), Flags(0xE3), 0)
  {
    assert TieringPolicySlot("mode") == 0;
    assert TieringPolicySlot("ageBasis") == 1;
    assert TieringPolicySlot("olderThan") == 2;
    assert TieringPolicySlot("field") == 3;
    assert TieringPolicySlot("keepLast") == 4;
    assert TieringPolicySlot("quietFor") == 5;
    assert TieringPolicySlot("tierFrozenAfter") == 6;
    assert TieringPolicySlot("targetDisk") == 7;
  }

  lemma TieringPolicyByte1Ok()
    ensures ByteOk(TieringPolicySlot, TieringPolicyByte1(), Flags(0xFE), 8)
  {
    assert TieringPolicySlot("hotVolume") == 8;
    assert TieringPolicySlot("optimizeToParts") == 9;
    assert TieringPolicySlot("skipOptimize") == 10;
    assert TieringPolicySlot("optimizeOn") == 11;
    assert TieringPolicySlot("optimizeSkipAboveBytes") == 12;
    assert TieringPolicySlot("resplitStrategy") == 13;
    assert TieringPolicySlot("resplitQuietFor") == 14;
    assert TieringPolicySlot("fragmentAbovePartCount") == 15;
  }

  lemma TieringPolicyLands(key: string)
    ensures Lands(TieringPolicySlot, TieringPolicy(), key)
  {
    var slot := TieringPolicySlot(key);
    if slot >= 0 {
      assert TieringPolicy().fields[slot].name == key;
    }
  }

  lemma TieringPolicyWf()
    ensures Wf(TieringPolicy()) && Switches(TieringPolicySlot, TieringPolicy())
  {
    TieringPolicyByte0Ok();
    TieringPolicyByte1Ok();
    var fields, masks := TieringPolicyByte0(), [Flags(0xE3)];
    First(TieringPolicySlot, fields, masks[0]);
    Extend(TieringPolicySlot, fields, masks, TieringPolicyByte1(), Flags(0xFE));
    fields, masks := fields + TieringPolicyByte1(), masks + [Flags(0xFE)];
    TableWf(TieringPolicySlot, fields, masks, false);
    assert masks == TieringPolicy().masks;
    forall key: string ensures Lands(TieringPolicySlot, TieringPolicy(), key) {
      TieringPolicyLands(key);
    }
  }

  function TieringHoldDetailFields(date: Parser): seq<Field> {
    [
      Field("gate", Required, PLAIN),
      Field("window", Optional, PLAIN),
      Field("lastInsertAt", Optional, Text(date)),
      Field("lastChangeAt", Optional, Text(date)),
      Field("releasesAt", Optional, Text(date)),
      Field("retryAt", Optional, Text(date)),
      Field("failures", Optional, INT64)
    ]
  }

  function TieringHoldDetail(date: Parser): Shape {
    Record(TieringHoldDetailFields(date), [Flags(0x01)], false)
  }

  function TieringHoldDetailSlot(key: string): int {
    match key
    case "gate" => 0
    case "window" => 1
    case "lastInsertAt" => 2
    case "lastChangeAt" => 3
    case "releasesAt" => 4
    case "retryAt" => 5
    case "failures" => 6
    case _ => -1
  }

  lemma TieringHoldDetailLands(date: Parser, key: string)
    ensures Lands(TieringHoldDetailSlot, TieringHoldDetail(date), key)
  {
    var slot := TieringHoldDetailSlot(key);
    if slot >= 0 {
      assert TieringHoldDetail(date).fields[slot].name == key;
    }
  }

  lemma TieringHoldDetailWf(date: Parser)
    ensures Wf(TieringHoldDetail(date)) && Switches(TieringHoldDetailSlot, TieringHoldDetail(date))
  {
    First(TieringHoldDetailSlot, TieringHoldDetailFields(date), Flags(0x01));
    TableWf(TieringHoldDetailSlot, TieringHoldDetailFields(date), [Flags(0x01)], false);
    forall key: string ensures Lands(TieringHoldDetailSlot, TieringHoldDetail(date), key) {
      TieringHoldDetailLands(date, key);
    }
  }

  function TieringPartitionByte0(): seq<Field> {
    [
      Field("nodeId", Required, PLAIN),
      Field("shard", Required, PLAIN),
      Field("replica", Required, PLAIN),
      Field("database", Required, PLAIN),
      Field("table", Required, PLAIN),
      Field("partition", Required, PLAIN),
      Field("partitionId", Required, PLAIN),
      Field("status", Required, PLAIN)
    ]
  }

  function TieringPartitionByte1(): seq<Field> {
    [
      Field("decision", Required, PLAIN),
      Field("reason", Required, PLAIN),
      Field("rows", Required, PLAIN),
      Field("bytesOnDisk", Required, PLAIN),
      Field("activeParts", Required, PLAIN),
      Field("disks", Required, Slice(TieringDiskPart())),
      Field("targetDisk", Required, PLAIN),
      Field("hotVolume", Optional, PLAIN)
    ]
  }

  function TieringPartitionByte2(date: Parser): seq<Field> {
    [
      Field("policy", Required, TieringPolicy()),
      Field("conditions", Required, Slice(TieringCondition(date))),
      Field("hold", Optional, TieringHoldDetail(date)),
      Field("stateToken", Required, PLAIN),
      Field("reconciledAt", Required, Text(date)),
      Field("effectiveMode", Required, PLAIN)
    ]
  }

  function TieringPartition(date: Parser): Shape {
    Record(TieringPartitionByte0() + TieringPartitionByte1() + TieringPartitionByte2(date),
           [Flags(0xFF), Flags(0x7F), Flags(0x3B)], false)
  }

  function TieringPartitionSlot(key: string): int {
    match key
    case "nodeId" => 0
    case "shard" => 1
    case "replica" => 2
    case "database" => 3
    case "table" => 4
    case "partition" => 5
    case "partitionId" => 6
    case "status" => 7
    case "decision" => 8
    case "reason" => 9
    case "rows" => 10
    case "bytesOnDisk" => 11
    case "activeParts" => 12
    case "disks" => 13
    case "targetDisk" => 14
    case "hotVolume" => 15
    case "policy" => 16
    case "conditions" => 17
    case "hold" => 18
    case "stateToken" => 19
    case "reconciledAt" => 20
    case "effectiveMode" => 21
    case _ => -1
  }

  lemma TieringPartitionByte0Ok()
    ensures ByteOk(TieringPartitionSlot, TieringPartitionByte0(), Flags(0xFF), 0)
  {
    assert TieringPartitionSlot("nodeId") == 0;
    assert TieringPartitionSlot("shard") == 1;
    assert TieringPartitionSlot("replica") == 2;
    assert TieringPartitionSlot("database") == 3;
    assert TieringPartitionSlot("table") == 4;
    assert TieringPartitionSlot("partition") == 5;
    assert TieringPartitionSlot("partitionId") == 6;
    assert TieringPartitionSlot("status") == 7;
  }

  lemma TieringPartitionByte1Ok()
    ensures ByteOk(TieringPartitionSlot, TieringPartitionByte1(), Flags(0x7F), 8)
  {
    TieringDiskPartWf();
    assert Wf(Slice(TieringDiskPart()));
    assert TieringPartitionSlot("decision") == 8;
    assert TieringPartitionSlot("reason") == 9;
    assert TieringPartitionSlot("rows") == 10;
    assert TieringPartitionSlot("bytesOnDisk") == 11;
    assert TieringPartitionSlot("activeParts") == 12;
    assert TieringPartitionSlot("disks") == 13;
    assert TieringPartitionSlot("targetDisk") == 14;
    assert TieringPartitionSlot("hotVolume") == 15;
  }

  lemma TieringPartitionByte2Ok(date: Parser)
    ensures ByteOk(TieringPartitionSlot, TieringPartitionByte2(date), Flags(0x3B), 16)
  {
    TieringConditionWf(date);
    TieringHoldDetailWf(date);
    TieringPolicyWf();
    assert Wf(Slice(TieringCondition(date)));
    assert TieringPartitionSlot("policy") == 16;
    assert TieringPartitionSlot("conditions") == 17;
    assert TieringPartitionSlot("hold") == 18;
    assert TieringPartitionSlot("stateToken") == 19;
    assert TieringPartitionSlot("reconciledAt") == 20;
    assert TieringPartitionSlot("effectiveMode") == 21;
  }

  lemma TieringPartitionLands(date: Parser, key: string)
    ensures Lands(TieringPartitionSlot, TieringPartition(date), key)
  {
    var slot := TieringPartitionSlot(key);
    if slot >= 0 {
      assert TieringPartition(date).fields[slot].name == key;
    }
  }

  lemma TieringPartitionWf(date: Parser)
    ensures Wf(TieringPartition(date)) && Switches(TieringPartitionSlot, TieringPartition(date))
  {
    TieringPartitionByte0Ok();
    TieringPartitionByte1Ok();
    TieringPartitionByte2Ok(date);
    var fields, masks := TieringPartitionByte0(), [Flags(0xFF)];
    First(TieringPartitionSlot, fields, masks[0]);
    Extend(TieringPartitionSlot, fields, masks, TieringPartitionByte1(), Flags(0x7F));
    fields, masks := fields + TieringPartitionByte1(), masks + [Flags(0x7F)];
    Extend(TieringPartitionSlot, fields, masks, TieringPartitionByte2(date), Flags(0x3B));
    fields, masks := fields + TieringPartitionByte2(date), masks + [Flags(0x3B)];
    TableWf(TieringPartitionSlot, fields, masks, false);
    assert masks == TieringPartition(date).masks;
    forall key: string ensures Lands(TieringPartitionSlot, TieringPartition(date), key) {
      TieringPartitionLands(date, key);
    }
  }

  function TieringPlanResponseFields(date: Parser): seq<Field> {
    [
      Field("tables", Required, Slice(TieringTablePlan(date))),
      Field("items", Required, Slice(TieringPartition(date)))
    ]
  }

  function TieringPlanResponse(date: Parser): Shape {
    Record(TieringPlanResponseFields(date), [Flags(0x03)], false)
  }

  function TieringPlanResponseSlot(key: string): int {
    match key
    case "tables" => 0
    case "items" => 1
    case _ => -1
  }

  lemma TieringPlanResponseLands(date: Parser, key: string)
    ensures Lands(TieringPlanResponseSlot, TieringPlanResponse(date), key)
  {
    var slot := TieringPlanResponseSlot(key);
    if slot >= 0 {
      assert TieringPlanResponse(date).fields[slot].name == key;
    }
  }

  lemma TieringPlanResponseWf(date: Parser)
    ensures Wf(TieringPlanResponse(date)) && Switches(TieringPlanResponseSlot, TieringPlanResponse(date))
  {
    TieringPartitionWf(date);
    TieringTablePlanWf(date);
    First(TieringPlanResponseSlot, TieringPlanResponseFields(date), Flags(0x03));
    TableWf(TieringPlanResponseSlot, TieringPlanResponseFields(date), [Flags(0x03)], false);
    forall key: string ensures Lands(TieringPlanResponseSlot, TieringPlanResponse(date), key) {
      TieringPlanResponseLands(date, key);
    }
  }

  function ProblemErrorFields(): seq<Field> {
    [
      Field("parameter", Optional, PLAIN),
      Field("detail", Required, PLAIN)
    ]
  }

  function ProblemError(): Shape {
    Record(ProblemErrorFields(), [Flags(0x02)], false)
  }

  function ProblemErrorSlot(key: string): int {
    match key
    case "parameter" => 0
    case "detail" => 1
    case _ => -1
  }

  lemma ProblemErrorLands(key: string)
    ensures Lands(ProblemErrorSlot, ProblemError(), key)
  {
    var slot := ProblemErrorSlot(key);
    if slot >= 0 {
      assert ProblemError().fields[slot].name == key;
    }
  }

  lemma ProblemErrorWf()
    ensures Wf(ProblemError()) && Switches(ProblemErrorSlot, ProblemError())
  {
    First(ProblemErrorSlot, ProblemErrorFields(), Flags(0x02));
    TableWf(ProblemErrorSlot, ProblemErrorFields(), [Flags(0x02)], false);
    forall key: string ensures Lands(ProblemErrorSlot, ProblemError(), key) {
      ProblemErrorLands(key);
    }
  }

  function ProblemDetailsFields(uri: Parser): seq<Field> {
    [
      Field("type", Required, Text(uri)),
      Field("title", Required, PLAIN),
      Field("status", Required, INT32),
      Field("detail", Required, PLAIN),
      Field("instance", Optional, PLAIN),
      Field("errors", Optional, Slice(ProblemError()))
    ]
  }

  function ProblemDetails(uri: Parser): Shape {
    Record(ProblemDetailsFields(uri), [Flags(0x0F)], true)
  }

  function ProblemDetailsSlot(key: string): int {
    match key
    case "type" => 0
    case "title" => 1
    case "status" => 2
    case "detail" => 3
    case "instance" => 4
    case "errors" => 5
    case _ => -1
  }

  lemma ProblemDetailsLands(uri: Parser, key: string)
    ensures Lands(ProblemDetailsSlot, ProblemDetails(uri), key)
  {
    var slot := ProblemDetailsSlot(key);
    if slot >= 0 {
      assert ProblemDetails(uri).fields[slot].name == key;
    }
  }

  lemma ProblemDetailsWf(uri: Parser)
    ensures Wf(ProblemDetails(uri)) && Switches(ProblemDetailsSlot, ProblemDetails(uri))
  {
    ProblemErrorWf();
    First(ProblemDetailsSlot, ProblemDetailsFields(uri), Flags(0x0F));
    TableWf(ProblemDetailsSlot, ProblemDetailsFields(uri), [Flags(0x0F)], true);
    forall key: string ensures Lands(ProblemDetailsSlot, ProblemDetails(uri), key) {
      ProblemDetailsLands(uri, key);
    }
  }

  function EmbeddedConditionFields(): seq<Field> {
    [
      Field("code", Required, PLAIN),
      Field("severity", Required, PLAIN),
      Field("message", Optional, PLAIN),
      Field("count", Optional, INT64),
      Field("evidence", Optional, Dict(RawJson))
    ]
  }

  function EmbeddedCondition(): Shape {
    Record(EmbeddedConditionFields(), [Flags(0x03)], false)
  }

  function EmbeddedConditionSlot(key: string): int {
    match key
    case "code" => 0
    case "severity" => 1
    case "message" => 2
    case "count" => 3
    case "evidence" => 4
    case _ => -1
  }

  lemma EmbeddedConditionLands(key: string)
    ensures Lands(EmbeddedConditionSlot, EmbeddedCondition(), key)
  {
    var slot := EmbeddedConditionSlot(key);
    if slot >= 0 {
      assert EmbeddedCondition().fields[slot].name == key;
    }
  }

  lemma EmbeddedConditionWf()
    ensures Wf(EmbeddedCondition()) && Switches(EmbeddedConditionSlot, EmbeddedCondition())
  {
    First(EmbeddedConditionSlot, EmbeddedConditionFields(), Flags(0x03));
    TableWf(EmbeddedConditionSlot, EmbeddedConditionFields(), [Flags(0x03)], false);
    forall key: string ensures Lands(EmbeddedConditionSlot, EmbeddedCondition(), key) {
      EmbeddedConditionLands(key);
    }
  }

  function TablePartByte0(): seq<Field> {
    [
      Field("nodeId", Required, PLAIN),
      Field("shard", Required, PLAIN),
      Field("replica", Required, PLAIN),
      Field("database", Required, PLAIN),
      Field("table", Required, PLAIN),
      Field("partition", Required, PLAIN),
      Field("partitionId", Required, PLAIN),
      Field("partName", Required, PLAIN)
    ]
  }

  function TablePartByte1(): seq<Field> {
    [
      Field("uuid", Optional, PLAIN),
      Field("active", Required, Boolean),
      Field("disk", Required, PLAIN),
      Field("path", Required, PLAIN),
      Field("partType", Required, PLAIN),
      Field("rows", Required, PLAIN),
      Field("marks", Optional, PLAIN),
      Field("bytesOnDisk", Required, PLAIN)
    ]
  }

  function TablePartByte2(): seq<Field> {
    [
      Field("dataCompressedBytes", Optional, PLAIN),
      Field("dataUncompressedBytes", Optional, PLAIN),
      Field("marksBytes", Optional, PLAIN),
      Field("primaryKeyBytesInMemory", Optional, PLAIN),
      Field("primaryKeyBytesInMemoryAllocated", Optional, PLAIN),
      Field("secondaryIndicesCompressedBytes", Optional, PLAIN),
      Field("secondaryIndicesUncompressedBytes", Optional, PLAIN),
      Field("secondaryIndicesMarksBytes", Optional, PLAIN)
    ]
  }

  function TablePartByte3(date: Parser): seq<Field> {
    [
      Field("modificationTime", Required, Text(date)),
      Field("removeTime", Optional, Nullable(date)),
      Field("refcount", Optional, PLAIN),
      Field("minBlockNumber", Optional, PLAIN),
      Field("maxBlockNumber", Optional, PLAIN),
      Field("level", Optional, PLAIN),
      Field("dataVersion", Optional, PLAIN),
      Field("deleteTtlInfoMin", Optional, Nullable(date))
    ]
  }

  function TablePartByte4(date: Parser): seq<Field> {
    [
      Field("deleteTtlInfoMax", Optional, Nullable(date)),
      Field("moveTtlInfo", Optional, Slice(Dict(RawJson))),
      Field("recompressionTtlInfo", Optional, Slice(Dict(RawJson))),
      Field("defaultCompressionCodec", Optional, PLAIN),
      Field("conditions", Required, Slice(EmbeddedCondition()))
    ]
  }

  function TablePart(date: Parser): Shape {
    Record(TablePartByte0() + TablePartByte1() + TablePartByte2() + TablePartByte3(date) + TablePartByte4(date),
           [Flags(0xFF), Flags(0xBE), Flags(0x00), Flags(0x01), Flags(0x10)], false)
  }

  function TablePartSlot(key: string): int {
    match key
    case "nodeId" => 0
    case "shard" => 1
    case "replica" => 2
    case "database" => 3
    case "table" => 4
    case "partition" => 5
    case "partitionId" => 6
    case "partName" => 7
    case "uuid" => 8
    case "active" => 9
    case "disk" => 10
    case "path" => 11
    case "partType" => 12
    case "rows" => 13
    case "marks" => 14
    case "bytesOnDisk" => 15
    case "dataCompressedBytes" => 16
    case "dataUncompressedBytes" => 17
    case "marksBytes" => 18
    case "primaryKeyBytesInMemory" => 19
    case "primaryKeyBytesInMemoryAllocated" => 20
    case "secondaryIndicesCompressedBytes" => 21
    case "secondaryIndicesUncompressedBytes" => 22
    case "secondaryIndicesMarksBytes" => 23
    case "modificationTime" => 24
    case "removeTime" => 25
    case "refcount" => 26
    case "minBlockNumber" => 27
    case "maxBlockNumber" => 28
    case "level" => 29
    case "dataVersion" => 30
    case "deleteTtlInfoMin" => 31
    case "deleteTtlInfoMax" => 32
    case "moveTtlInfo" => 33
    case "recompressionTtlInfo" => 34
    case "defaultCompressionCodec" => 35
    case "conditions" => 36
    case _ => -1
  }

  lemma TablePartByte0Ok()
    ensures ByteOk(TablePartSlot, TablePartByte0(), Flags(0xFF), 0)
  {
    assert TablePartSlot("nodeId") == 0;
    assert TablePartSlot("shard") == 1;
    assert TablePartSlot("replica") == 2;
    assert TablePartSlot("database") == 3;
    assert TablePartSlot("table") == 4;
    assert TablePartSlot("partition") == 5;
    assert TablePartSlot("partitionId") == 6;
    assert TablePartSlot("partName") == 7;
  }

  lemma TablePartByte1Ok()
    ensures ByteOk(TablePartSlot, TablePartByte1(), Flags(0xBE), 8)
  {
    assert TablePartSlot("uuid") == 8;
    assert TablePartSlot("active") == 9;
    assert TablePartSlot("disk") == 10;
    assert TablePartSlot("path") == 11;
    assert TablePartSlot("partType") == 12;
    assert TablePartSlot("rows") == 13;
    assert TablePartSlot("marks") == 14;
    assert TablePartSlot("bytesOnDisk") == 15;
  }

  lemma TablePartByte2Slots()
    ensures TablePartSlot("dataCompressedBytes") == 16
    ensures TablePartSlot("dataUncompressedBytes") == 17
    ensures TablePartSlot("marksBytes") == 18
    ensures TablePartSlot("primaryKeyBytesInMemory") == 19
    ensures TablePartSlot("primaryKeyBytesInMemoryAllocated") == 20
    ensures TablePartSlot("secondaryIndicesCompressedBytes") == 21
    ensures TablePartSlot("secondaryIndicesUncompressedBytes") == 22
    ensures TablePartSlot("secondaryIndicesMarksBytes") == 23
  {
  }

  lemma TablePartByte2Ok()
    ensures ByteOk(TablePartSlot, TablePartByte2(), Flags(0x00), 16)
  {
    TablePartByte2Slots();
  }

  lemma TablePartByte3Slots()
    ensures TablePartSlot("modificationTime") == 24
    ensures TablePartSlot("removeTime") == 25
    ensures TablePartSlot("refcount") == 26
    ensures TablePartSlot("minBlockNumber") == 27
    ensures TablePartSlot("maxBlockNumber") == 28
    ensures TablePartSlot("level") == 29
    ensures TablePartSlot("dataVersion") == 30
    ensures TablePartSlot("deleteTtlInfoMin") == 31
  {
  }

  lemma TablePartByte3Ok(date: Parser)
    ensures ByteOk(TablePartSlot, TablePartByte3(date), Flags(0x01), 24)
  {
    TablePartByte3Slots();
  }

  lemma TablePartByte4Slots()
    ensures TablePartSlot("deleteTtlInfoMax") == 32
    ensures TablePartSlot("moveTtlInfo") == 33
    ensures TablePartSlot("recompressionTtlInfo") == 34
    ensures TablePartSlot("defaultCompressionCodec") == 35
    ensures TablePartSlot("conditions") == 36
  {
  }

  lemma TablePartByte4Ok(date: Parser)
    ensures ByteOk(TablePartSlot, TablePartByte4(date), Flags(0x10), 32)
  {
    EmbeddedConditionWf();
    assert Wf(Slice(Dict(RawJson)));
    assert Wf(Slice(EmbeddedCondition()));
    TablePartByte4Slots();
  }

  lemma TablePartByte0Key(key: string)
    requires 0 <= TablePartSlot(key) < 8
    ensures TablePartByte0()[TablePartSlot(key)].name == key
  {
  }

  lemma TablePartByte1Key(key: string)
    requires 8 <= TablePartSlot(key) < 16
    ensures TablePartByte1()[TablePartSlot(key) - 8].name == key
  {
  }

  lemma TablePartByte2Key(key: string)
    requires 16 <= TablePartSlot(key) < 24
    ensures TablePartByte2()[TablePartSlot(key) - 16].name == key
  {
  }

  lemma TablePartByte3Key(date: Parser, key: string)
    requires 24 <= TablePartSlot(key) < 32
    ensures TablePartByte3(date)[TablePartSlot(key) - 24].name == key
  {
    var slot, fields := TablePartSlot(key), TablePartByte3(date);
    if slot == 24 {
      assert fields[0].name == "modificationTime";
    } else if slot == 25 {
      assert fields[1].name == "removeTime";
    } else if slot == 26 {
      assert fields[2].name == "refcount";
    } else if slot == 27 {
      assert fields[3].name == "minBlockNumber";
    } else if slot == 28 {
      assert fields[4].name == "maxBlockNumber";
    } else if slot == 29 {
      assert fields[5].name == "level";
    } else if slot == 30 {
      assert fields[6].name == "dataVersion";
    } else {
      assert fields[7].name == "deleteTtlInfoMin";
    }
  }

  lemma TablePartByte4Key(date: Parser, key: string)
    requires 32 <= TablePartSlot(key) < 37
    ensures TablePartByte4(date)[TablePartSlot(key) - 32].name == key
  {
    var slot, fields := TablePartSlot(key), TablePartByte4(date);
    if slot == 32 {
      assert fields[0].name == "deleteTtlInfoMax";
    } else if slot == 33 {
      assert fields[1].name == "moveTtlInfo";
    } else if slot == 34 {
      assert fields[2].name == "recompressionTtlInfo";
    } else if slot == 35 {
      assert fields[3].name == "defaultCompressionCodec";
    } else {
      assert fields[4].name == "conditions";
    }
  }

  lemma TablePartAt(date: Parser, slot: nat)
    requires slot < 37
    ensures |TablePart(date).fields| == 37
    ensures TablePart(date).fields[slot] ==
            if slot < 8 then TablePartByte0()[slot]
            else if slot < 16 then TablePartByte1()[slot - 8]
            else if slot < 24 then TablePartByte2()[slot - 16]
            else if slot < 32 then TablePartByte3(date)[slot - 24]
            else TablePartByte4(date)[slot - 32]
  {
  }

  lemma TablePartLands(date: Parser, key: string)
    ensures Lands(TablePartSlot, TablePart(date), key)
  {
    var slot := TablePartSlot(key);
    if slot >= 0 {
      TablePartAt(date, slot);
      if slot < 8 {
        TablePartByte0Key(key);
      } else if slot < 16 {
        TablePartByte1Key(key);
      } else if slot < 24 {
        TablePartByte2Key(key);
      } else if slot < 32 {
        TablePartByte3Key(date, key);
      } else {
        TablePartByte4Key(date, key);
      }
    }
  }

  lemma TablePartWf(date: Parser)
    ensures Wf(TablePart(date)) && Switches(TablePartSlot, TablePart(date))
  {
    TablePartByte0Ok();
    TablePartByte1Ok();
    TablePartByte2Ok();
    TablePartByte3Ok(date);
    TablePartByte4Ok(date);
    var fields, masks := TablePartByte0(), [Flags(0xFF)];
    First(TablePartSlot, fields, masks[0]);
    Extend(TablePartSlot, fields, masks, TablePartByte1(), Flags(0xBE));
    fields, masks := fields + TablePartByte1(), masks + [Flags(0xBE)];
    Extend(TablePartSlot, fields, masks, TablePartByte2(), Flags(0x00));
    fields, masks := fields + TablePartByte2(), masks + [Flags(0x00)];
    Extend(TablePartSlot, fields, masks, TablePartByte3(date), Flags(0x01));
    fields, masks := fields + TablePartByte3(date), masks + [Flags(0x01)];
    Extend(TablePartSlot, fields, masks, TablePartByte4(date), Flags(0x10));
    fields, masks := fields + TablePartByte4(date), masks + [Flags(0x10)];
    TableWf(TablePartSlot, fields, masks, false);
    assert masks == TablePart(date).masks;
    forall key: string ensures Lands(TablePartSlot, TablePart(date), key) {
      TablePartLands(date, key);
    }
  }

  function PartEventByte0(): seq<Field> {
    [
      Field("nodeId", Required, PLAIN),
      Field("shard", Required, PLAIN),
      Field("replica", Required, PLAIN),
      Field("eventId", Required, PLAIN),
      Field("database", Required, PLAIN),
      Field("table", Required, PLAIN),
      Field("partitionId", Required, PLAIN),
      Field("partName", Required, PLAIN)
    ]
  }

  function PartEventByte1(date: Parser): seq<Field> {
    [
      Field("eventType", Required, PLAIN),
      Field("eventTime", Required, Text(date)),
      Field("durationMs", Required, PLAIN),
      Field("rows", Required, PLAIN),
      Field("bytesCompressed", Required, PLAIN),
      Field("bytesUncompressed", Required, PLAIN),
      Field("readRows", Optional, PLAIN),
      Field("readBytes", Optional, PLAIN)
    ]
  }

  function PartEventByte2(): seq<Field> {
    [
      Field("mergedFrom", Optional, Slice(PLAIN)),
      Field("sourceDisk", Optional, NIL_PLAIN),
      Field("targetDisk", Optional, NIL_PLAIN),
      Field("error", Required, PLAIN),
      Field("exception", Optional, NIL_PLAIN)
    ]
  }

  function PartEvent(date: Parser): Shape {
    Record(PartEventByte0() + PartEventByte1(date) + PartEventByte2(), [Flags(0xFF), Flags(0x3F), Flags(0x08)], false)
  }

  function PartEventSlot(key: string): int {
    match key
    case "nodeId" => 0
    case "shard" => 1
    case "replica" => 2
    case "eventId" => 3
    case "database" => 4
    case "table" => 5
    case "partitionId" => 6
    case "partName" => 7
    case "eventType" => 8
    case "eventTime" => 9
    case "durationMs" => 10
    case "rows" => 11
    case "bytesCompressed" => 12
    case "bytesUncompressed" => 13
    case "readRows" => 14
    case "readBytes" => 15
    case "mergedFrom" => 16
    case "sourceDisk" => 17
    case "targetDisk" => 18
    case "error" => 19
    case "exception" => 20
    case _ => -1
  }

  lemma PartEventByte0Ok()
    ensures ByteOk(PartEventSlot, PartEventByte0(), Flags(0xFF), 0)
  {
    assert PartEventSlot("nodeId") == 0;
    assert PartEventSlot("shard") == 1;
    assert PartEventSlot("replica") == 2;
    assert PartEventSlot("eventId") == 3;
    assert PartEventSlot("database") == 4;
    assert PartEventSlot("table") == 5;
    assert PartEventSlot("partitionId") == 6;
    assert PartEventSlot("partName") == 7;
  }

  lemma PartEventByte1Ok(date: Parser)
    ensures ByteOk(PartEventSlot, PartEventByte1(date), Flags(0x3F), 8)
  {
    assert PartEventSlot("eventType") == 8;
    assert PartEventSlot("eventTime") == 9;
    assert PartEventSlot("durationMs") == 10;
    assert PartEventSlot("rows") == 11;
    assert PartEventSlot("bytesCompressed") == 12;
    assert PartEventSlot("bytesUncompressed") == 13;
    assert PartEventSlot("readRows") == 14;
    assert PartEventSlot("readBytes") == 15;
  }

  lemma PartEventByte2Ok()
    ensures ByteOk(PartEventSlot, PartEventByte2(), Flags(0x08), 16)
  {
    assert Wf(Slice(PLAIN));
    assert PartEventSlot("mergedFrom") == 16;
    assert PartEventSlot("sourceDisk") == 17;
    assert PartEventSlot("targetDisk") == 18;
    assert PartEventSlot("error") == 19;
    assert PartEventSlot("exception") == 20;
  }

  lemma PartEventLands(date: Parser, key: string)
    ensures Lands(PartEventSlot, PartEvent(date), key)
  {
    var slot := PartEventSlot(key);
    if slot >= 0 {
      assert PartEvent(date).fields[slot].name == key;
    }
  }

  lemma PartEventWf(date: Parser)
    ensures Wf(PartEvent(date)) && Switches(PartEventSlot, PartEvent(date))
  {
    PartEventByte0Ok();
    PartEventByte1Ok(date);
    PartEventByte2Ok();
    var fields, masks := PartEventByte0(), [Flags(0xFF)];
    First(PartEventSlot, fields, masks[0]);
    Extend(PartEventSlot, fields, masks, PartEventByte1(date), Flags(0x3F));
    fields, masks := fields + PartEventByte1(date), masks + [Flags(0x3F)];
    Extend(PartEventSlot, fields, masks, PartEventByte2(), Flags(0x08));
    fields, masks := fields + PartEventByte2(), masks + [Flags(0x08)];
    TableWf(PartEventSlot, fields, masks, false);
    assert masks == PartEvent(date).masks;
    forall key: string ensures Lands(PartEventSlot, PartEvent(date), key) {
      PartEventLands(date, key);
    }
  }

  function MutationBlockNumberFields(): seq<Field> {
    [
      Field("partitionId", Required, PLAIN),
      Field("number", Required, PLAIN)
    ]
  }

  function MutationBlockNumber(): Shape {
    Record(MutationBlockNumberFields(), [Flags(0x03)], false)
  }

  function MutationBlockNumberSlot(key: string): int {
    match key
    case "partitionId" => 0
    case "number" => 1
    case _ => -1
  }

  lemma MutationBlockNumberLands(key: string)
    ensures Lands(MutationBlockNumberSlot, MutationBlockNumber(), key)
  {
    var slot := MutationBlockNumberSlot(key);
    if slot >= 0 {
      assert MutationBlockNumber().fields[slot].name == key;
    }
  }

  lemma MutationBlockNumberWf()
    ensures Wf(MutationBlockNumber()) && Switches(MutationBlockNumberSlot, MutationBlockNumber())
  {
    First(MutationBlockNumberSlot, MutationBlockNumberFields(), Flags(0x03));
    TableWf(MutationBlockNumberSlot, MutationBlockNumberFields(), [Flags(0x03)], false);
    forall key: string ensures Lands(MutationBlockNumberSlot, MutationBlockNumber(), key) {
      MutationBlockNumberLands(key);
    }
  }

  function MutationOperationByte0(): seq<Field> {
    [
      Field("nodeId", Required, PLAIN),
      Field("shard", Required, PLAIN),
      Field("replica", Required, PLAIN),
      Field("operationId", Required, PLAIN),
      Field("kind", Fixed("mutation"), PLAIN),
      Field("database", Required, PLAIN),
      Field("table", Required, PLAIN),
      Field("mutationId", Required, PLAIN)
    ]
  }

  function MutationOperationByte1(date: Parser): seq<Field> {
    [
      Field("attemptId", Required, PLAIN),
      Field("command", Required, PLAIN),
      Field("createTime", Required, Text(date)),
      Field("isDone", Required, Boolean),
      Field("isKilled", Required, Boolean),
      Field("partsToDo", Required, PLAIN),
      Field("partsToDoNames", Required, Slice(PLAIN)),
      Field("blockNumbers", Required, Slice(MutationBlockNumber()))
    ]
  }

  function MutationOperationByte2(date: Parser): seq<Field> {
    [
      Field("latestFailedPart", Optional, NIL_PLAIN),
      Field("latestFailTime", Optional, Nullable(date)),
      Field("latestFailReason", Optional, NIL_PLAIN),
      Field("conditions", Required, Slice(EmbeddedCondition()))
    ]
  }

  function MutationOperation(date: Parser): Shape {
    Record(MutationOperationByte0() + MutationOperationByte1(date) + MutationOperationByte2(date),
           [Flags(0xFF), Flags(0xFF), Flags(0x08)], false)
  }

  function MutationOperationSlot(key: string): int {
    match key
    case "nodeId" => 0
    case "shard" => 1
    case "replica" => 2
    case "operationId" => 3
    case "kind" => 4
    case "database" => 5
    case "table" => 6
    case "mutationId" => 7
    case "attemptId" => 8
    case "command" => 9
    case "createTime" => 10
    case "isDone" => 11
    case "isKilled" => 12
    case "partsToDo" => 13
    case "partsToDoNames" => 14
    case "blockNumbers" => 15
    case "latestFailedPart" => 16
    case "latestFailTime" => 17
    case "latestFailReason" => 18
    case "conditions" => 19
    case _ => -1
  }

  lemma MutationOperationByte0Ok()
    ensures ByteOk(MutationOperationSlot, MutationOperationByte0(), Flags(0xFF), 0)
  {
    assert MutationOperationSlot("nodeId") == 0;
    assert MutationOperationSlot("shard") == 1;
    assert MutationOperationSlot("replica") == 2;
    assert MutationOperationSlot("operationId") == 3;
    assert MutationOperationSlot("kind") == 4;
    assert MutationOperationSlot("database") == 5;
    assert MutationOperationSlot("table") == 6;
    assert MutationOperationSlot("mutationId") == 7;
  }

  lemma MutationOperationByte1Ok(date: Parser)
    ensures ByteOk(MutationOperationSlot, MutationOperationByte1(date), Flags(0xFF), 8)
  {
    MutationBlockNumberWf();
    assert Wf(Slice(MutationBlockNumber()));
    assert Wf(Slice(PLAIN));
    assert MutationOperationSlot("attemptId") == 8;
    assert MutationOperationSlot("command") == 9;
    assert MutationOperationSlot("createTime") == 10;
    assert MutationOperationSlot("isDone") == 11;
    assert MutationOperationSlot("isKilled") == 12;
    assert MutationOperationSlot("partsToDo") == 13;
    assert MutationOperationSlot("partsToDoNames") == 14;
    assert MutationOperationSlot("blockNumbers") == 15;
  }

  lemma MutationOperationByte2Ok(date: Parser)
    ensures ByteOk(MutationOperationSlot, MutationOperationByte2(date), Flags(0x08), 16)
  {
    EmbeddedConditionWf();
    assert Wf(Slice(EmbeddedCondition()));
    assert MutationOperationSlot("latestFailedPart") == 16;
    assert MutationOperationSlot("latestFailTime") == 17;
    assert MutationOperationSlot("latestFailReason") == 18;
    assert MutationOperationSlot("conditions") == 19;
  }

  lemma MutationOperationLands(date: Parser, key: string)
    ensures Lands(MutationOperationSlot, MutationOperation(date), key)
  {
    var slot := MutationOperationSlot(key);
    if slot >= 0 {
      assert MutationOperation(date).fields[slot].name == key;
    }
  }

  lemma MutationOperationWf(date: Parser)
    ensures Wf(MutationOperation(date)) && Switches(MutationOperationSlot, MutationOperation(date))
  {
    MutationOperationByte0Ok();
    MutationOperationByte1Ok(date);
    MutationOperationByte2Ok(date);
    var fields, masks := MutationOperationByte0(), [Flags(0xFF)];
    First(MutationOperationSlot, fields, masks[0]);
    Extend(MutationOperationSlot, fields, masks, MutationOperationByte1(date), Flags(0xFF));
    fields, masks := fields + MutationOperationByte1(date), masks + [Flags(0xFF)];
    Extend(MutationOperationSlot, fields, masks, MutationOperationByte2(date), Flags(0x08));
    fields, masks := fields + MutationOperationByte2(date), masks + [Flags(0x08)];
    TableWf(MutationOperationSlot, fields, masks, false);
    assert masks == MutationOperation(date).masks;
    forall key: string ensures Lands(MutationOperationSlot, MutationOperation(date), key) {
      MutationOperationLands(date, key);
    }
  }

  function ReplicationQueueOperationByte0(): seq<Field> {
    [
      Field("nodeId", Required, PLAIN),
      Field("shard", Required, PLAIN),
      Field("replica", Required, PLAIN),
      Field("operationId", Required, PLAIN),
      Field("kind", Fixed("replication_queue"), PLAIN),
      Field("database", Required, PLAIN),
      Field("table", Required, PLAIN),
      Field("replicaName", Required, PLAIN)
    ]
  }

  function ReplicationQueueOperationByte1(date: Parser): seq<Field> {
    [
      Field("position", Required, PLAIN),
      Field("nodeName", Required, PLAIN),
      Field("attemptId", Required, PLAIN),
      Field("type", Required, PLAIN),
      Field("createTime", Required, Text(date)),
      Field("requiredQuorum", Optional, PLAIN),
      Field("sourceReplica", Optional, NIL_PLAIN),
      Field("newPartName", Optional, NIL_PLAIN)
    ]
  }

  function ReplicationQueueOperationByte2(date: Parser): seq<Field> {
    [
      Field("partsToMerge", Optional, Slice(PLAIN)),
      Field("isDetach", Optional, Boolean),
      Field("isCurrentlyExecuting", Required, Boolean),
      Field("numTries", Required, PLAIN),
      Field("lastAttemptTime", Optional, Nullable(date)),
      Field("lastPostponeTime", Optional, Nullable(date)),
      Field("numPostponed", Optional, PLAIN),
      Field("postponeReason", Optional, NIL_PLAIN)
    ]
  }

  function ReplicationQueueOperationByte3(): seq<Field> {
    [
      Field("lastException", Optional, NIL_PLAIN),
      Field("conditions", Required, Slice(EmbeddedCondition()))
    ]
  }

  function ReplicationQueueOperation(date: Parser): Shape {
    Record(ReplicationQueueOperationByte0() + ReplicationQueueOperationByte1(date) +
           ReplicationQueueOperationByte2(date) + ReplicationQueueOperationByte3(),
           [Flags(0xFF), Flags(0x1F), Flags(0x0C), Flags(0x02)], false)
  }

  function ReplicationQueueOperationSlot(key: string): int {
    match key
    case "nodeId" => 0
    case "shard" => 1
    case "replica" => 2
    case "operationId" => 3
    case "kind" => 4
    case "database" => 5
    case "table" => 6
    case "replicaName" => 7
    case "position" => 8
    case "nodeName" => 9
    case "attemptId" => 10
    case "type" => 11
    case "createTime" => 12
    case "requiredQuorum" => 13
    case "sourceReplica" => 14
    case "newPartName" => 15
    case "partsToMerge" => 16
    case "isDetach" => 17
    case "isCurrentlyExecuting" => 18
    case "numTries" => 19
    case "lastAttemptTime" => 20
    case "lastPostponeTime" => 21
    case "numPostponed" => 22
    case "postponeReason" => 23
    case "lastException" => 24
    case "conditions" => 25
    case _ => -1
  }

  lemma ReplicationQueueOperationByte0Ok()
    ensures ByteOk(ReplicationQueueOperationSlot, ReplicationQueueOperationByte0(), Flags(0xFF), 0)
  {
    assert ReplicationQueueOperationSlot("nodeId") == 0;
    assert ReplicationQueueOperationSlot("shard") == 1;
    assert ReplicationQueueOperationSlot("replica") == 2;
    assert ReplicationQueueOperationSlot("operationId") == 3;
    assert ReplicationQueueOperationSlot("kind") == 4;
    assert ReplicationQueueOperationSlot("database") == 5;
    assert ReplicationQueueOperationSlot("table") == 6;
    assert ReplicationQueueOperationSlot("replicaName") == 7;
  }

  lemma ReplicationQueueOperationByte1Ok(date: Parser)
    ensures ByteOk(ReplicationQueueOperationSlot, ReplicationQueueOperationByte1(date), Flags(0x1F), 8)
  {
    assert ReplicationQueueOperationSlot("position") == 8;
    assert ReplicationQueueOperationSlot("nodeName") == 9;
    assert ReplicationQueueOperationSlot("attemptId") == 10;
    assert ReplicationQueueOperationSlot("type") == 11;
    assert ReplicationQueueOperationSlot("createTime") == 12;
    assert ReplicationQueueOperationSlot("requiredQuorum") == 13;
    assert ReplicationQueueOperationSlot("sourceReplica") == 14;
    assert ReplicationQueueOperationSlot("newPartName") == 15;
  }

  lemma ReplicationQueueOperationByte2Ok(date: Parser)
    ensures ByteOk(ReplicationQueueOperationSlot, ReplicationQueueOperationByte2(date), Flags(0x0C), 16)
  {
    assert Wf(Slice(PLAIN));
    assert ReplicationQueueOperationSlot("partsToMerge") == 16;
    assert ReplicationQueueOperationSlot("isDetach") == 17;
    assert ReplicationQueueOperationSlot("isCurrentlyExecuting") == 18;
    assert ReplicationQueueOperationSlot("numTries") == 19;
    assert ReplicationQueueOperationSlot("lastAttemptTime") == 20;
    assert ReplicationQueueOperationSlot("lastPostponeTime") == 21;
    assert ReplicationQueueOperationSlot("numPostponed") == 22;
    assert ReplicationQueueOperationSlot("postponeReason") == 23;
  }

  lemma ReplicationQueueOperationByte3Ok()
    ensures ByteOk(ReplicationQueueOperationSlot, ReplicationQueueOperationByte3(), Flags(0x02), 24)
  {
    EmbeddedConditionWf();
    assert Wf(Slice(EmbeddedCondition()));
    assert ReplicationQueueOperationSlot("lastException") == 24;
    assert ReplicationQueueOperationSlot("conditions") == 25;
  }

  lemma ReplicationQueueOperationLands(date: Parser, key: string)
    ensures Lands(ReplicationQueueOperationSlot, ReplicationQueueOperation(date), key)
  {
    var slot := ReplicationQueueOperationSlot(key);
    if slot >= 0 {
      assert ReplicationQueueOperation(date).fields[slot].name == key;
    }
  }

  lemma ReplicationQueueOperationWf(date: Parser)
    ensures Wf(ReplicationQueueOperation(date))
            && Switches(ReplicationQueueOperationSlot, ReplicationQueueOperation(date))
  {
    ReplicationQueueOperationByte0Ok();
    ReplicationQueueOperationByte1Ok(date);
    ReplicationQueueOperationByte2Ok(date);
    ReplicationQueueOperationByte3Ok();
    var fields, masks := ReplicationQueueOperationByte0(), [Flags(0xFF)];
    First(ReplicationQueueOperationSlot, fields, masks[0]);
    Extend(ReplicationQueueOperationSlot, fields, masks, ReplicationQueueOperationByte1(date), Flags(0x1F));
    fields, masks := fields + ReplicationQueueOperationByte1(date), masks + [Flags(0x1F)];
    Extend(ReplicationQueueOperationSlot, fields, masks, ReplicationQueueOperationByte2(date), Flags(0x0C));
    fields, masks := fields + ReplicationQueueOperationByte2(date), masks + [Flags(0x0C)];
    Extend(ReplicationQueueOperationSlot, fields, masks, ReplicationQueueOperationByte3(), Flags(0x02));
    fields, masks := fields + ReplicationQueueOperationByte3(), masks + [Flags(0x02)];
    TableWf(ReplicationQueueOperationSlot, fields, masks, false);
    assert masks == ReplicationQueueOperation(date).masks;
    forall key: string ensures Lands(ReplicationQueueOperationSlot, ReplicationQueueOperation(date), key) {
      ReplicationQueueOperationLands(date, key);
    }
  }
}
