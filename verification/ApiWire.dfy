/**
 The API records on the wire, key by key and in the order of the generated encoders: what is
 written for any values, what a fresh record reads from it in front of any tokens, and what
 else is read or refused under each key. Nothing here is said in terms of the field tables.
 */
module ApiWire {
  import opened Wrappers
  import opened JsonTokens
  import opened RecordCodec
  import opened TableChecks
  import opened RecordRoundTrip
  import opened RecordWire
  import opened ApiTables

  lemma CollectionWarningWire(lines: seq<Line>, kind: string, code: string, message: string, nodeId: string,
            rest: seq<Token>)
    requires lines == [Txt("kind", kind), Txt("code", code), Txt("message", message), Txt("nodeId", nodeId)]
    ensures OnTheWire(CollectionWarning(), lines, rest)
  {
    assert FitAll(CollectionWarning().fields, lines);
    CollectionWarningWf();
    FitOnTheWire(CollectionWarning(), lines, rest);
  }

  lemma CollectionMetaWire(lines: seq<Line>, date: Parser, collectedAt: string, partial: bool,
            collectionDurationMs: int, nodesExpected: int, nodesResponded: int, nodesFailed: int,
            warnings: seq<Piece>, rest: seq<Token>)
    requires lines == [Parsed("collectedAt", date, collectedAt), Flag("partial", partial),
               Int64("collectionDurationMs", collectionDurationMs), Int64("nodesExpected", nodesExpected),
               Int64("nodesResponded", nodesResponded), Int64("nodesFailed", nodesFailed),
               List("warnings", CollectionWarning(), warnings)]
    requires date(collectedAt) == Some(collectedAt) && MIN_INT64 <= collectionDurationMs <= MAX_INT64
    requires MIN_INT64 <= nodesExpected <= MAX_INT64 && MIN_INT64 <= nodesResponded <= MAX_INT64
    requires MIN_INT64 <= nodesFailed <= MAX_INT64 && AllWritten(CollectionWarning(), warnings)
    ensures OnTheWire(CollectionMeta(date), lines, rest)
  {
    assert FitAll(CollectionMeta(date).fields, lines);
    CollectionMetaWf(date);
    FitOnTheWire(CollectionMeta(date), lines, rest);
  }

  lemma ConditionWire(l0: seq<Line>, l1: seq<Line>, date: Parser, conditionId: string, severity: string, code: string,
            message: string, database: Option<string>, table: Option<string>, partition: Option<string>,
            partitionId: Option<string>, nodeId: Option<string>, observedAt: string, evidence: seq<Named>,
            links: seq<Named>, rest: seq<Token>)
    requires l0 == [Txt("conditionId", conditionId), Txt("severity", severity), Txt("code", code),
               Txt("message", message), TxtOrNull("database", database), TxtOrNull("table", table),
               TxtOrNull("partition", partition), TxtOrNull("partitionId", partitionId)]
    requires l1 == [TxtOrNull("nodeId", nodeId), Parsed("observedAt", date, observedAt),
               Table("evidence", RawJson, evidence), Table("links", PLAIN, links)]
    requires date(observedAt) == Some(observedAt) && EntriesWritten(RawJson, evidence) && EntriesWritten(PLAIN, links)
    ensures OnTheWire(Condition(date), l0 + l1, rest)
  {
    assert FitAll(ConditionByte0(), l0);
    assert FitAll(ConditionByte1(date), l1);
    ConditionWf(date);
    FitMore(ConditionByte0(), l0, ConditionByte1(date), l1);
    FitOnTheWire(Condition(date), l0 + l1, rest);
  }

  lemma TieringConditionWire(l0: seq<Line>, l1: seq<Line>, date: Parser, severity: string, code: string,
            message: string, observedAt: string, nodeId: string, database: string, table: string, partition: string,
            partitionId: string, rest: seq<Token>)
    requires l0 == [Txt("severity", severity), Txt("code", code), Txt("message", message),
               Parsed("observedAt", date, observedAt), Txt("nodeId", nodeId), Txt("database", database),
               Txt("table", table), Txt("partition", partition)]
    requires l1 == [Txt("partitionId", partitionId)]
    requires date(observedAt) == Some(observedAt)
    ensures OnTheWire(TieringCondition(date), l0 + l1, rest)
  {
    assert FitAll(TieringConditionByte0(date), l0);
    assert FitAll(TieringConditionByte1(), l1);
    TieringConditionWf(date);
    FitMore(TieringConditionByte0(date), l0, TieringConditionByte1(), l1);
    FitOnTheWire(TieringCondition(date), l0 + l1, rest);
  }

  lemma TieringTablePlanWire(l0: seq<Line>, l1: seq<Line>, date: Parser, nodeId: string, database: string,
            table: string, reconciledAt: string, tickDurationMs: int, generation: string, lastError: Option<string>,
            partitions: int, actionable: int, conditions: seq<Piece>, rest: seq<Token>)
    requires l0 == [Txt("nodeId", nodeId), Txt("database", database), Txt("table", table),
               Parsed("reconciledAt", date, reconciledAt), Int64("tickDurationMs", tickDurationMs),
               Txt("generation", generation), TxtOrNull("lastError", lastError), Int64("partitions", partitions)]
    requires l1 == [Int64("actionable", actionable), List("conditions", TieringCondition(date), conditions)]
    requires date(reconciledAt) == Some(reconciledAt) && MIN_INT64 <= tickDurationMs <= MAX_INT64
    requires MIN_INT64 <= partitions <= MAX_INT64 && MIN_INT64 <= actionable <= MAX_INT64
    requires AllWritten(TieringCondition(date), conditions)
    ensures OnTheWire(TieringTablePlan(date), l0 + l1, rest)
  {
    assert FitAll(TieringTablePlanByte0(date), l0);
    assert FitAll(TieringTablePlanByte1(date), l1);
    TieringTablePlanWf(date);
    FitMore(TieringTablePlanByte0(date), l0, TieringTablePlanByte1(date), l1);
    FitOnTheWire(TieringTablePlan(date), l0 + l1, rest);
  }

  lemma TieringDiskPartWire(lines: seq<Line>, disk: string, parts: string, rest: seq<Token>)
    requires lines == [Txt("disk", disk), Txt("parts", parts)]
    ensures OnTheWire(TieringDiskPart(), lines, rest)
  {
    assert FitAll(TieringDiskPart().fields, lines);
    TieringDiskPartWf();
    FitOnTheWire(TieringDiskPart(), lines, rest);
  }

  lemma TieringPolicyWire(l0: seq<Line>, l1: seq<Line>, mode: string, ageBasis: string, olderThan: string,
            field: string, keepLast: string, quietFor: string, tierFrozenAfter: string, targetDisk: string,
            hotVolume: string, optimizeToParts: string, skipOptimize: bool, optimizeOn: string,
            optimizeSkipAboveBytes: string, resplitStrategy: string, resplitQuietFor: string,
            fragmentAbovePartCount: string, rest: seq<Token>)
    requires l0 == [Txt("mode", mode), Txt("ageBasis", ageBasis), Txt("olderThan", olderThan), Txt("field", field),
               Txt("keepLast", keepLast), Txt("quietFor", quietFor), Txt("tierFrozenAfter", tierFrozenAfter),
               Txt("targetDisk", targetDisk)]
    requires l1 == [Txt("hotVolume", hotVolume), Txt("optimizeToParts", optimizeToParts),
               Flag("skipOptimize", skipOptimize), Txt("optimizeOn", optimizeOn),
               Txt("optimizeSkipAboveBytes", optimizeSkipAboveBytes), Txt("resplitStrategy", resplitStrategy),
               Txt("resplitQuietFor", resplitQuietFor), Txt("fragmentAbovePartCount", fragmentAbovePartCount)]
    ensures OnTheWire(TieringPolicy(), l0 + l1, rest)
  {
    assert FitAll(TieringPolicyByte0(), l0);
    assert FitAll(TieringPolicyByte1(), l1);
    TieringPolicyWf();
    FitMore(TieringPolicyByte0(), l0, TieringPolicyByte1(), l1);
    FitOnTheWire(TieringPolicy(), l0 + l1, rest);
  }

  lemma TieringHoldDetailWire(lines: seq<Line>, date: Parser, gate: string, window: string, lastInsertAt: string,
            lastChangeAt: string, releasesAt: string, retryAt: string, failures: int, rest: seq<Token>)
    requires lines == [Txt("gate", gate), Txt("window", window), Parsed("lastInsertAt", date, lastInsertAt),
               Parsed("lastChangeAt", date, lastChangeAt), Parsed("releasesAt", date, releasesAt),
               Parsed("retryAt", date, retryAt), Int64("failures", failures)]
    requires date(lastInsertAt) == Some(lastInsertAt) && date(lastChangeAt) == Some(lastChangeAt)
    requires date(releasesAt) == Some(releasesAt) && date(retryAt) == Some(retryAt)
    requires MIN_INT64 <= failures <= MAX_INT64
    ensures OnTheWire(TieringHoldDetail(date), lines, rest)
  {
    assert FitAll(TieringHoldDetail(date).fields, lines);
    TieringHoldDetailWf(date);
    FitOnTheWire(TieringHoldDetail(date), lines, rest);
  }

  lemma TieringPartitionByte0Fits(nodeId: string, shard: string, replica: string, database: string, table: string,
            partition: string, partitionId: string, status: string)
    ensures FitAll(TieringPartitionByte0(), [Txt("nodeId", nodeId), Txt("shard", shard), Txt("replica", replica),
              Txt("database", database), Txt("table", table), Txt("partition", partition),
              Txt("partitionId", partitionId), Txt("status", status)])
  {
  }

  lemma TieringPartitionByte1Fits(decision: string, reason: string, rows: string, bytesOnDisk: string,
            activeParts: string, disks: seq<Piece>, targetDisk: string, hotVolume: string)
    requires AllWritten(TieringDiskPart(), disks)
    ensures FitAll(TieringPartitionByte1(), [Txt("decision", decision), Txt("reason", reason), Txt("rows", rows),
              Txt("bytesOnDisk", bytesOnDisk), Txt("activeParts", activeParts),
              List("disks", TieringDiskPart(), disks), Txt("targetDisk", targetDisk), Txt("hotVolume", hotVolume)])
  {
  }

  lemma TieringPartitionByte2Fits(date: Parser, policy: Piece, conditions: seq<Piece>, hold: Piece,
            stateToken: string, reconciledAt: string, effectiveMode: string)
    requires Written(TieringPolicy(), policy) && AllWritten(TieringCondition(date), conditions)
    requires Written(TieringHoldDetail(date), hold) && date(reconciledAt) == Some(reconciledAt)
    ensures FitAll(TieringPartitionByte2(date), [Nested("policy", TieringPolicy(), policy),
              List("conditions", TieringCondition(date), conditions), Nested("hold", TieringHoldDetail(date), hold),
              Txt("stateToken", stateToken), Parsed("reconciledAt", date, reconciledAt),
              Txt("effectiveMode", effectiveMode)])
  {
    FitSix(TieringPartitionByte2(date), Nested("policy", TieringPolicy(), policy),
           List("conditions", TieringCondition(date), conditions), Nested("hold", TieringHoldDetail(date), hold),
           Txt("stateToken", stateToken), Parsed("reconciledAt", date, reconciledAt),
           Txt("effectiveMode", effectiveMode));
  }

  lemma TieringPartitionJoins(date: Parser, l0: seq<Line>, l1: seq<Line>, l2: seq<Line>, rest: seq<Token>)
    requires FitAll(TieringPartitionByte0(), l0) && FitAll(TieringPartitionByte1(), l1)
    requires FitAll(TieringPartitionByte2(date), l2)
    ensures OnTheWire(TieringPartition(date), l0 + l1 + l2, rest)
  {
    TieringPartitionWf(date);
    var fields, lines := TieringPartitionByte0(), l0;
    FitMore(fields, lines, TieringPartitionByte1(), l1);
    fields, lines := fields + TieringPartitionByte1(), lines + l1;
    FitMore(fields, lines, TieringPartitionByte2(date), l2);
    fields, lines := fields + TieringPartitionByte2(date), lines + l2;
    FitOnTheWire(TieringPartition(date), lines, rest);
  }

  lemma TieringPartitionWire(l0: seq<Line>, l1: seq<Line>, l2: seq<Line>, date: Parser, nodeId: string, shard: string,
            replica: string, database: string, table: string, partition: string, partitionId: string, status: string,
            decision: string, reason: string, rows: string, bytesOnDisk: string, activeParts: string,
            disks: seq<Piece>, targetDisk: string, hotVolume: string, policy: Piece, conditions: seq<Piece>,
            hold: Piece, stateToken: string, reconciledAt: string, effectiveMode: string, rest: seq<Token>)
    requires l0 == [Txt("nodeId", nodeId), Txt("shard", shard), Txt("replica", replica), Txt("database", database),
               Txt("table", table), Txt("partition", partition), Txt("partitionId", partitionId),
               Txt("status", status)]
    requires l1 == [Txt("decision", decision), Txt("reason", reason), Txt("rows", rows),
               Txt("bytesOnDisk", bytesOnDisk), Txt("activeParts", activeParts),
               List("disks", TieringDiskPart(), disks), Txt("targetDisk", targetDisk), Txt("hotVolume", hotVolume)]
    requires l2 == [Nested("policy", TieringPolicy(), policy), List("conditions", TieringCondition(date), conditions),
               Nested("hold", TieringHoldDetail(date), hold), Txt("stateToken", stateToken),
               Parsed("reconciledAt", date, reconciledAt), Txt("effectiveMode", effectiveMode)]
    requires AllWritten(TieringDiskPart(), disks) && Written(TieringPolicy(), policy)
    requires AllWritten(TieringCondition(date), conditions) && Written(TieringHoldDetail(date), hold)
    requires date(reconciledAt) == Some(reconciledAt)
    ensures OnTheWire(TieringPartition(date), l0 + l1 + l2, rest)
  {
    TieringPartitionByte0Fits(nodeId, shard, replica, database, table, partition, partitionId, status);
    TieringPartitionByte1Fits(decision, reason, rows, bytesOnDisk, activeParts, disks, targetDisk, hotVolume);
    TieringPartitionByte2Fits(date, policy, conditions, hold, stateToken, reconciledAt, effectiveMode);
    TieringPartitionJoins(date, l0, l1, l2, rest);
  }

  lemma TieringPlanResponseWire(lines: seq<Line>, date: Parser, tables: seq<Piece>, items: seq<Piece>,
            rest: seq<Token>)
    requires lines == [List("tables", TieringTablePlan(date), tables), List("items", TieringPartition(date), items)]
    requires AllWritten(TieringTablePlan(date), tables) && AllWritten(TieringPartition(date), items)
    ensures OnTheWire(TieringPlanResponse(date), lines, rest)
  {
    assert FitAll(TieringPlanResponse(date).fields, lines);
    TieringPlanResponseWf(date);
    FitOnTheWire(TieringPlanResponse(date), lines, rest);
  }

  lemma ProblemErrorWire(lines: seq<Line>, parameter: string, detail: string, rest: seq<Token>)
    requires lines == [Txt("parameter", parameter), Txt("detail", detail)]
    ensures OnTheWire(ProblemError(), lines, rest)
  {
    assert FitAll(ProblemError().fields, lines);
    ProblemErrorWf();
    FitOnTheWire(ProblemError(), lines, rest);
  }

  lemma ProblemDetailsWire(lines: seq<Line>, uri: Parser, typeName: string, title: string, status: int,
            detail: string, instance: string, errors: seq<Piece>, ext: seq<Named>, rest: seq<Token>)
    requires lines == [Parsed("type", uri, typeName), Txt("title", title), Int32("status", status),
               Txt("detail", detail), Txt("instance", instance), List("errors", ProblemError(), errors)]
    requires uri(typeName) == Some(typeName) && MIN_INT32 <= status <= MAX_INT32 && AllWritten(ProblemError(), errors)
    requires Extends(lines, ext)
    ensures Encodes(ProblemDetails(uri), lines, ext) && Decodes(ProblemDetails(uri), lines, ext, rest)
    ensures EachReads(ProblemDetails(uri), lines)
  {
    assert FitAll(ProblemDetails(uri).fields, lines);
    ProblemDetailsWf(uri);
    FitDecodes(ProblemDetails(uri), lines, ext, rest);
    FitEachReads(ProblemDetails(uri), lines);
  }

  lemma EmbeddedConditionWire(lines: seq<Line>, code: string, severity: string, message: string, count: int,
            evidence: seq<Named>, rest: seq<Token>)
    requires lines == [Txt("code", code), Txt("severity", severity), Txt("message", message), Int64("count", count),
               Table("evidence", RawJson, evidence)]
    requires MIN_INT64 <= count <= MAX_INT64 && EntriesWritten(RawJson, evidence)
    ensures OnTheWire(EmbeddedCondition(), lines, rest)
  {
    assert FitAll(EmbeddedCondition().fields, lines);
    EmbeddedConditionWf();
    FitOnTheWire(EmbeddedCondition(), lines, rest);
  }

  lemma TablePartByte0Fits(nodeId: string, shard: string, replica: string, database: string, table: string,
            partition: string, partitionId: string, partName: string)
    ensures FitAll(TablePartByte0(), [Txt("nodeId", nodeId), Txt("shard", shard), Txt("replica", replica),
              Txt("database", database), Txt("table", table), Txt("partition", partition),
              Txt("partitionId", partitionId), Txt("partName", partName)])
  {
  }

  lemma TablePartByte1Fits(uuid: string, active: bool, disk: string, path: string, partType: string, rows: string,
            marks: string, bytesOnDisk: string)
    ensures FitAll(TablePartByte1(), [Txt("uuid", uuid), Flag("active", active), Txt("disk", disk), Txt("path", path),
              Txt("partType", partType), Txt("rows", rows), Txt("marks", marks), Txt("bytesOnDisk", bytesOnDisk)])
  {
  }

  lemma TablePartByte2Fits(dataCompressedBytes: string, dataUncompressedBytes: string, marksBytes: string,
            primaryKeyBytesInMemory: string, primaryKeyBytesInMemoryAllocated: string,
            secondaryIndicesCompressedBytes: string, secondaryIndicesUncompressedBytes: string,
            secondaryIndicesMarksBytes: string)
    ensures FitAll(TablePartByte2(), [Txt("dataCompressedBytes", dataCompressedBytes),
              Txt("dataUncompressedBytes", dataUncompressedBytes), Txt("marksBytes", marksBytes),
              Txt("primaryKeyBytesInMemory", primaryKeyBytesInMemory),
              Txt("primaryKeyBytesInMemoryAllocated", primaryKeyBytesInMemoryAllocated),
              Txt("secondaryIndicesCompressedBytes", secondaryIndicesCompressedBytes),
              Txt("secondaryIndicesUncompressedBytes", secondaryIndicesUncompressedBytes),
              Txt("secondaryIndicesMarksBytes", secondaryIndicesMarksBytes)])
  {
  }

  lemma TablePartByte3Fits(date: Parser, modificationTime: string, removeTime: Option<string>, refcount: string,
            minBlockNumber: string, maxBlockNumber: string, level: string, dataVersion: string,
            deleteTtlInfoMin: Option<string>)
    requires date(modificationTime) == Some(modificationTime)
    requires (removeTime.Some? ==> date(removeTime.value) == removeTime)
    requires (deleteTtlInfoMin.Some? ==> date(deleteTtlInfoMin.value) == deleteTtlInfoMin)
    ensures FitAll(TablePartByte3(date), [Parsed("modificationTime", date, modificationTime),
              ParsedOrNull("removeTime", date, removeTime), Txt("refcount", refcount),
              Txt("minBlockNumber", minBlockNumber), Txt("maxBlockNumber", maxBlockNumber), Txt("level", level),
              Txt("dataVersion", dataVersion), ParsedOrNull("deleteTtlInfoMin", date, deleteTtlInfoMin)])
  {
  }

  lemma TablePartByte4Fits(date: Parser, deleteTtlInfoMax: Option<string>, moveTtlInfo: seq<Piece>,
            recompressionTtlInfo: seq<Piece>, defaultCompressionCodec: string, conditions: seq<Piece>)
    requires (deleteTtlInfoMax.Some? ==> date(deleteTtlInfoMax.value) == deleteTtlInfoMax)
    requires AllWritten(Dict(RawJson), moveTtlInfo) && AllWritten(Dict(RawJson), recompressionTtlInfo)
    requires AllWritten(EmbeddedCondition(), conditions)
    ensures FitAll(TablePartByte4(date), [ParsedOrNull("deleteTtlInfoMax", date, deleteTtlInfoMax),
              List("moveTtlInfo", Dict(RawJson), moveTtlInfo),
              List("recompressionTtlInfo", Dict(RawJson), recompressionTtlInfo),
              Txt("defaultCompressionCodec", defaultCompressionCodec),
              List("conditions", EmbeddedCondition(), conditions)])
  {
  }

  lemma TablePartJoins(date: Parser, l0: seq<Line>, l1: seq<Line>, l2: seq<Line>, l3: seq<Line>, l4: seq<Line>,
            rest: seq<Token>)
    requires FitAll(TablePartByte0(), l0) && FitAll(TablePartByte1(), l1) && FitAll(TablePartByte2(), l2)
    requires FitAll(TablePartByte3(date), l3) && FitAll(TablePartByte4(date), l4)
    ensures OnTheWire(TablePart(date), l0 + l1 + l2 + l3 + l4, rest)
  {
    TablePartWf(date);
    var fields, lines := TablePartByte0(), l0;
    FitMore(fields, lines, TablePartByte1(), l1);
    fields, lines := fields + TablePartByte1(), lines + l1;
    FitMore(fields, lines, TablePartByte2(), l2);
    fields, lines := fields + TablePartByte2(), lines + l2;
    FitMore(fields, lines, TablePartByte3(date), l3);
    fields, lines := fields + TablePartByte3(date), lines + l3;
    FitMore(fields, lines, TablePartByte4(date), l4);
    fields, lines := fields + TablePartByte4(date), lines + l4;
    FitOnTheWire(TablePart(date), lines, rest);
  }

  lemma TablePartWire(l0: seq<Line>, l1: seq<Line>, l2: seq<Line>, l3: seq<Line>, l4: seq<Line>, date: Parser,
            nodeId: string, shard: string, replica: string, database: string, table: string, partition: string,
            partitionId: string, partName: string, uuid: string, active: bool, disk: string, path: string,
            partType: string, rows: string, marks: string, bytesOnDisk: string, dataCompressedBytes: string,
            dataUncompressedBytes: string, marksBytes: string, primaryKeyBytesInMemory: string,
            primaryKeyBytesInMemoryAllocated: string, secondaryIndicesCompressedBytes: string,
            secondaryIndicesUncompressedBytes: string, secondaryIndicesMarksBytes: string, modificationTime: string,
            removeTime: Option<string>, refcount: string, minBlockNumber: string, maxBlockNumber: string,
            level: string, dataVersion: string, deleteTtlInfoMin: Option<string>, deleteTtlInfoMax: Option<string>,
            moveTtlInfo: seq<Piece>, recompressionTtlInfo: seq<Piece>, defaultCompressionCodec: string,
            conditions: seq<Piece>, rest: seq<Token>)
    requires l0 == [Txt("nodeId", nodeId), Txt("shard", shard), Txt("replica", replica), Txt("database", database),
               Txt("table", table), Txt("partition", partition), Txt("partitionId", partitionId),
               Txt("partName", partName)]
    requires l1 == [Txt("uuid", uuid), Flag("active", active), Txt("disk", disk), Txt("path", path),
               Txt("partType", partType), Txt("rows", rows), Txt("marks", marks), Txt("bytesOnDisk", bytesOnDisk)]
    requires l2 == [Txt("dataCompressedBytes", dataCompressedBytes),
               Txt("dataUncompressedBytes", dataUncompressedBytes), Txt("marksBytes", marksBytes),
               Txt("primaryKeyBytesInMemory", primaryKeyBytesInMemory),
               Txt("primaryKeyBytesInMemoryAllocated", primaryKeyBytesInMemoryAllocated),
               Txt("secondaryIndicesCompressedBytes", secondaryIndicesCompressedBytes),
               Txt("secondaryIndicesUncompressedBytes", secondaryIndicesUncompressedBytes),
               Txt("secondaryIndicesMarksBytes", secondaryIndicesMarksBytes)]
    requires l3 == [Parsed("modificationTime", date, modificationTime), ParsedOrNull("removeTime", date, removeTime),
               Txt("refcount", refcount), Txt("minBlockNumber", minBlockNumber),
               Txt("maxBlockNumber", maxBlockNumber), Txt("level", level), Txt("dataVersion", dataVersion),
               ParsedOrNull("deleteTtlInfoMin", date, deleteTtlInfoMin)]
    requires l4 == [ParsedOrNull("deleteTtlInfoMax", date, deleteTtlInfoMax),
               List("moveTtlInfo", Dict(RawJson), moveTtlInfo),
               List("recompressionTtlInfo", Dict(RawJson), recompressionTtlInfo),
               Txt("defaultCompressionCodec", defaultCompressionCodec),
               List("conditions", EmbeddedCondition(), conditions)]
    requires date(modificationTime) == Some(modificationTime)
    requires (removeTime.Some? ==> date(removeTime.value) == removeTime)
    requires (deleteTtlInfoMin.Some? ==> date(deleteTtlInfoMin.value) == deleteTtlInfoMin)
    requires (deleteTtlInfoMax.Some? ==> date(deleteTtlInfoMax.value) == deleteTtlInfoMax)
    requires AllWritten(Dict(RawJson), moveTtlInfo) && AllWritten(Dict(RawJson), recompressionTtlInfo)
    requires AllWritten(EmbeddedCondition(), conditions)
    ensures OnTheWire(TablePart(date), l0 + l1 + l2 + l3 + l4, rest)
  {
    TablePartByte0Fits(nodeId, shard, replica, database, table, partition, partitionId, partName);
    TablePartByte1Fits(uuid, active, disk, path, partType, rows, marks, bytesOnDisk);
    TablePartByte2Fits(dataCompressedBytes, dataUncompressedBytes, marksBytes, primaryKeyBytesInMemory,
        primaryKeyBytesInMemoryAllocated, secondaryIndicesCompressedBytes, secondaryIndicesUncompressedBytes,
        secondaryIndicesMarksBytes);
    TablePartByte3Fits(date, modificationTime, removeTime, refcount, minBlockNumber, maxBlockNumber, level,
        dataVersion, deleteTtlInfoMin);
    TablePartByte4Fits(date, deleteTtlInfoMax, moveTtlInfo, recompressionTtlInfo, defaultCompressionCodec, conditions);
    TablePartJoins(date, l0, l1, l2, l3, l4, rest);
  }

  lemma PartEventByte0Fits(nodeId: string, shard: string, replica: string, eventId: string, database: string,
            table: string, partitionId: string, partName: string)
    ensures FitAll(PartEventByte0(), [Txt("nodeId", nodeId), Txt("shard", shard), Txt("replica", replica),
              Txt("eventId", eventId), Txt("database", database), Txt("table", table),
              Txt("partitionId", partitionId), Txt("partName", partName)])
  {
  }

  lemma PartEventByte1Fits(date: Parser, eventType: string, eventTime: string, durationMs: string, rows: string,
            bytesCompressed: string, bytesUncompressed: string, readRows: string, readBytes: string)
    requires date(eventTime) == Some(eventTime)
    ensures FitAll(PartEventByte1(date), [Txt("eventType", eventType), Parsed("eventTime", date, eventTime),
              Txt("durationMs", durationMs), Txt("rows", rows), Txt("bytesCompressed", bytesCompressed),
              Txt("bytesUncompressed", bytesUncompressed), Txt("readRows", readRows), Txt("readBytes", readBytes)])
  {
  }

  lemma PartEventByte2Fits(mergedFrom: seq<Piece>, sourceDisk: Option<string>, targetDisk: Option<string>,
            error: string, exception: Option<string>)
    requires AllWritten(PLAIN, mergedFrom)
    ensures FitAll(PartEventByte2(), [List("mergedFrom", PLAIN, mergedFrom), TxtOrNull("sourceDisk", sourceDisk),
              TxtOrNull("targetDisk", targetDisk), Txt("error", error), TxtOrNull("exception", exception)])
  {
  }

  lemma PartEventJoins(date: Parser, l0: seq<Line>, l1: seq<Line>, l2: seq<Line>, rest: seq<Token>)
    requires FitAll(PartEventByte0(), l0) && FitAll(PartEventByte1(date), l1) && FitAll(PartEventByte2(), l2)
    ensures OnTheWire(PartEvent(date), l0 + l1 + l2, rest)
  {
    PartEventWf(date);
    var fields, lines := PartEventByte0(), l0;
    FitMore(fields, lines, PartEventByte1(date), l1);
    fields, lines := fields + PartEventByte1(date), lines + l1;
    FitMore(fields, lines, PartEventByte2(), l2);
    fields, lines := fields + PartEventByte2(), lines + l2;
    FitOnTheWire(PartEvent(date), lines, rest);
  }

  lemma PartEventWire(l0: seq<Line>, l1: seq<Line>, l2: seq<Line>, date: Parser, nodeId: string, shard: string,
            replica: string, eventId: string, database: string, table: string, partitionId: string, partName: string,
            eventType: string, eventTime: string, durationMs: string, rows: string, bytesCompressed: string,
            bytesUncompressed: string, readRows: string, readBytes: string, mergedFrom: seq<Piece>,
            sourceDisk: Option<string>, targetDisk: Option<string>, error: string, exception: Option<string>,
            rest: seq<Token>)
    requires l0 == [Txt("nodeId", nodeId), Txt("shard", shard), Txt("replica", replica), Txt("eventId", eventId),
               Txt("database", database), Txt("table", table), Txt("partitionId", partitionId),
               Txt("partName", partName)]
    requires l1 == [Txt("eventType", eventType), Parsed("eventTime", date, eventTime), Txt("durationMs", durationMs),
               Txt("rows", rows), Txt("bytesCompressed", bytesCompressed),
               Txt("bytesUncompressed", bytesUncompressed), Txt("readRows", readRows), Txt("readBytes", readBytes)]
    requires l2 == [List("mergedFrom", PLAIN, mergedFrom), TxtOrNull("sourceDisk", sourceDisk),
               TxtOrNull("targetDisk", targetDisk), Txt("error", error), TxtOrNull("exception", exception)]
    requires date(eventTime) == Some(eventTime) && AllWritten(PLAIN, mergedFrom)
    ensures OnTheWire(PartEvent(date), l0 + l1 + l2, rest)
  {
    PartEventByte0Fits(nodeId, shard, replica, eventId, database, table, partitionId, partName);
    PartEventByte1Fits(date, eventType, eventTime, durationMs, rows, bytesCompressed, bytesUncompressed, readRows,
        readBytes);
    PartEventByte2Fits(mergedFrom, sourceDisk, targetDisk, error, exception);
    PartEventJoins(date, l0, l1, l2, rest);
  }

  lemma MutationBlockNumberWire(lines: seq<Line>, partitionId: string, number: string, rest: seq<Token>)
    requires lines == [Txt("partitionId", partitionId), Txt("number", number)]
    ensures OnTheWire(MutationBlockNumber(), lines, rest)
  {
    assert FitAll(MutationBlockNumber().fields, lines);
    MutationBlockNumberWf();
    FitOnTheWire(MutationBlockNumber(), lines, rest);
  }

  lemma MutationOperationByte0Fits(nodeId: string, shard: string, replica: string, operationId: string, kind: string,
            database: string, table: string, mutationId: string)
    ensures FitAll(MutationOperationByte0(), [Txt("nodeId", nodeId), Txt("shard", shard), Txt("replica", replica),
              Txt("operationId", operationId), Constant("kind", "mutation", kind), Txt("database", database),
              Txt("table", table), Txt("mutationId", mutationId)])
  {
  }

  lemma MutationOperationByte1Fits(date: Parser, attemptId: string, command: string, createTime: string, isDone: bool,
            isKilled: bool, partsToDo: string, partsToDoNames: seq<Piece>, blockNumbers: seq<Piece>)
    requires date(createTime) == Some(createTime) && AllWritten(PLAIN, partsToDoNames)
    requires AllWritten(MutationBlockNumber(), blockNumbers)
    ensures FitAll(MutationOperationByte1(date), [Txt("attemptId", attemptId), Txt("command", command),
              Parsed("createTime", date, createTime), Flag("isDone", isDone), Flag("isKilled", isKilled),
              Txt("partsToDo", partsToDo), List("partsToDoNames", PLAIN, partsToDoNames),
              List("blockNumbers", MutationBlockNumber(), blockNumbers)])
  {
  }

  lemma MutationOperationByte2Fits(date: Parser, latestFailedPart: Option<string>, latestFailTime: Option<string>,
            latestFailReason: Option<string>, conditions: seq<Piece>)
    requires (latestFailTime.Some? ==> date(latestFailTime.value) == latestFailTime)
    requires AllWritten(EmbeddedCondition(), conditions)
    ensures FitAll(MutationOperationByte2(date), [TxtOrNull("latestFailedPart", latestFailedPart),
              ParsedOrNull("latestFailTime", date, latestFailTime), TxtOrNull("latestFailReason", latestFailReason),
              List("conditions", EmbeddedCondition(), conditions)])
  {
  }

  lemma MutationOperationJoins(date: Parser, l0: seq<Line>, l1: seq<Line>, l2: seq<Line>, rest: seq<Token>)
    requires FitAll(MutationOperationByte0(), l0) && FitAll(MutationOperationByte1(date), l1)
    requires FitAll(MutationOperationByte2(date), l2)
    ensures OnTheWire(MutationOperation(date), l0 + l1 + l2, rest)
  {
    MutationOperationWf(date);
    var fields, lines := MutationOperationByte0(), l0;
    FitMore(fields, lines, MutationOperationByte1(date), l1);
    fields, lines := fields + MutationOperationByte1(date), lines + l1;
    FitMore(fields, lines, MutationOperationByte2(date), l2);
    fields, lines := fields + MutationOperationByte2(date), lines + l2;
    FitOnTheWire(MutationOperation(date), lines, rest);
  }

  lemma MutationOperationWire(l0: seq<Line>, l1: seq<Line>, l2: seq<Line>, date: Parser, nodeId: string,
            shard: string, replica: string, operationId: string, kind: string, database: string, table: string,
            mutationId: string, attemptId: string, command: string, createTime: string, isDone: bool, isKilled: bool,
            partsToDo: string, partsToDoNames: seq<Piece>, blockNumbers: seq<Piece>, latestFailedPart: Option<string>,
            latestFailTime: Option<string>, latestFailReason: Option<string>, conditions: seq<Piece>, rest: seq<Token>)
    requires l0 == [Txt("nodeId", nodeId), Txt("shard", shard), Txt("replica", replica),
               Txt("operationId", operationId), Constant("kind", "mutation", kind), Txt("database", database),
               Txt("table", table), Txt("mutationId", mutationId)]
    requires l1 == [Txt("attemptId", attemptId), Txt("command", command), Parsed("createTime", date, createTime),
               Flag("isDone", isDone), Flag("isKilled", isKilled), Txt("partsToDo", partsToDo),
               List("partsToDoNames", PLAIN, partsToDoNames),
               List("blockNumbers", MutationBlockNumber(), blockNumbers)]
    requires l2 == [TxtOrNull("latestFailedPart", latestFailedPart),
               ParsedOrNull("latestFailTime", date, latestFailTime), TxtOrNull("latestFailReason", latestFailReason),
               List("conditions", EmbeddedCondition(), conditions)]
    requires date(createTime) == Some(createTime) && AllWritten(PLAIN, partsToDoNames)
    requires AllWritten(MutationBlockNumber(), blockNumbers)
    requires (latestFailTime.Some? ==> date(latestFailTime.value) == latestFailTime)
    requires AllWritten(EmbeddedCondition(), conditions)
    ensures OnTheWire(MutationOperation(date), l0 + l1 + l2, rest)
  {
    MutationOperationByte0Fits(nodeId, shard, replica, operationId, kind, database, table, mutationId);
    MutationOperationByte1Fits(date, attemptId, command, createTime, isDone, isKilled, partsToDo, partsToDoNames,
        blockNumbers);
    MutationOperationByte2Fits(date, latestFailedPart, latestFailTime, latestFailReason, conditions);
    MutationOperationJoins(date, l0, l1, l2, rest);
  }

  lemma ReplicationQueueOperationByte0Fits(nodeId: string, shard: string, replica: string, operationId: string,
            kind: string, database: string, table: string, replicaName: string)
    ensures FitAll(ReplicationQueueOperationByte0(), [Txt("nodeId", nodeId), Txt("shard", shard),
              Txt("replica", replica), Txt("operationId", operationId), Constant("kind", "replication_queue", kind),
              Txt("database", database), Txt("table", table), Txt("replicaName", replicaName)])
  {
  }

  lemma ReplicationQueueOperationByte1Fits(date: Parser, position: string, nodeName: string, attemptId: string,
            typeName: string, createTime: string, requiredQuorum: string, sourceReplica: Option<string>,
            newPartName: Option<string>)
    requires date(createTime) == Some(createTime)
    ensures FitAll(ReplicationQueueOperationByte1(date), [Txt("position", position), Txt("nodeName", nodeName),
              Txt("attemptId", attemptId), Txt("type", typeName), Parsed("createTime", date, createTime),
              Txt("requiredQuorum", requiredQuorum), TxtOrNull("sourceReplica", sourceReplica),
              TxtOrNull("newPartName", newPartName)])
  {
  }

  lemma ReplicationQueueOperationByte2Fits(date: Parser, partsToMerge: seq<Piece>, isDetach: bool,
            isCurrentlyExecuting: bool, numTries: string, lastAttemptTime: Option<string>,
            lastPostponeTime: Option<string>, numPostponed: string, postponeReason: Option<string>)
    requires AllWritten(PLAIN, partsToMerge)
    requires (lastAttemptTime.Some? ==> date(lastAttemptTime.value) == lastAttemptTime)
    requires (lastPostponeTime.Some? ==> date(lastPostponeTime.value) == lastPostponeTime)
    ensures FitAll(ReplicationQueueOperationByte2(date), [List("partsToMerge", PLAIN, partsToMerge),
              Flag("isDetach", isDetach), Flag("isCurrentlyExecuting", isCurrentlyExecuting),
              Txt("numTries", numTries), ParsedOrNull("lastAttemptTime", date, lastAttemptTime),
              ParsedOrNull("lastPostponeTime", date, lastPostponeTime), Txt("numPostponed", numPostponed),
              TxtOrNull("postponeReason", postponeReason)])
  {
  }

  lemma ReplicationQueueOperationByte3Fits(lastException: Option<string>, conditions: seq<Piece>)
    requires AllWritten(EmbeddedCondition(), conditions)
    ensures FitAll(ReplicationQueueOperationByte3(), [TxtOrNull("lastException", lastException),
              List("conditions", EmbeddedCondition(), conditions)])
  {
  }

  lemma ReplicationQueueOperationJoins(date: Parser, l0: seq<Line>, l1: seq<Line>, l2: seq<Line>, l3: seq<Line>,
            rest: seq<Token>)
    requires FitAll(ReplicationQueueOperationByte0(), l0) && FitAll(ReplicationQueueOperationByte1(date), l1)
    requires FitAll(ReplicationQueueOperationByte2(date), l2) && FitAll(ReplicationQueueOperationByte3(), l3)
    ensures OnTheWire(ReplicationQueueOperation(date), l0 + l1 + l2 + l3, rest)
  {
    ReplicationQueueOperationWf(date);
    var fields, lines := ReplicationQueueOperationByte0(), l0;
    FitMore(fields, lines, ReplicationQueueOperationByte1(date), l1);
    fields, lines := fields + ReplicationQueueOperationByte1(date), lines + l1;
    FitMore(fields, lines, ReplicationQueueOperationByte2(date), l2);
    fields, lines := fields + ReplicationQueueOperationByte2(date), lines + l2;
    FitMore(fields, lines, ReplicationQueueOperationByte3(), l3);
    fields, lines := fields + ReplicationQueueOperationByte3(), lines + l3;
    FitOnTheWire(ReplicationQueueOperation(date), lines, rest);
  }

  lemma ReplicationQueueOperationWire(l0: seq<Line>, l1: seq<Line>, l2: seq<Line>, l3: seq<Line>, date: Parser,
            nodeId: string, shard: string, replica: string, operationId: string, kind: string, database: string,
            table: string, replicaName: string, position: string, nodeName: string, attemptId: string,
            typeName: string, createTime: string, requiredQuorum: string, sourceReplica: Option<string>,
            newPartName: Option<string>, partsToMerge: seq<Piece>, isDetach: bool, isCurrentlyExecuting: bool,
            numTries: string, lastAttemptTime: Option<string>, lastPostponeTime: Option<string>, numPostponed: string,
            postponeReason: Option<string>, lastException: Option<string>, conditions: seq<Piece>, rest: seq<Token>)
    requires l0 == [Txt("nodeId", nodeId), Txt("shard", shard), Txt("replica", replica),
               Txt("operationId", operationId), Constant("kind", "replication_queue", kind),
               Txt("database", database), Txt("table", table), Txt("replicaName", replicaName)]
    requires l1 == [Txt("position", position), Txt("nodeName", nodeName), Txt("attemptId", attemptId),
               Txt("type", typeName), Parsed("createTime", date, createTime), Txt("requiredQuorum", requiredQuorum),
               TxtOrNull("sourceReplica", sourceReplica), TxtOrNull("newPartName", newPartName)]
    requires l2 == [List("partsToMerge", PLAIN, partsToMerge), Flag("isDetach", isDetach),
               Flag("isCurrentlyExecuting", isCurrentlyExecuting), Txt("numTries", numTries),
               ParsedOrNull("lastAttemptTime", date, lastAttemptTime),
               ParsedOrNull("lastPostponeTime", date, lastPostponeTime), Txt("numPostponed", numPostponed),
               TxtOrNull("postponeReason", postponeReason)]
    requires l3 == [TxtOrNull("lastException", lastException), List("conditions", EmbeddedCondition(), conditions)]
    requires date(createTime) == Some(createTime) && AllWritten(PLAIN, partsToMerge)
    requires (lastAttemptTime.Some? ==> date(lastAttemptTime.value) == lastAttemptTime)
    requires (lastPostponeTime.Some? ==> date(lastPostponeTime.value) == lastPostponeTime)
    requires AllWritten(EmbeddedCondition(), conditions)
    ensures OnTheWire(ReplicationQueueOperation(date), l0 + l1 + l2 + l3, rest)
  {
    ReplicationQueueOperationByte0Fits(nodeId, shard, replica, operationId, kind, database, table, replicaName);
    ReplicationQueueOperationByte1Fits(date, position, nodeName, attemptId, typeName, createTime, requiredQuorum,
        sourceReplica, newPartName);
    ReplicationQueueOperationByte2Fits(date, partsToMerge, isDetach, isCurrentlyExecuting, numTries, lastAttemptTime,
        lastPostponeTime, numPostponed, postponeReason);
    ReplicationQueueOperationByte3Fits(lastException, conditions);
    ReplicationQueueOperationJoins(date, l0, l1, l2, l3, rest);
  }
}
