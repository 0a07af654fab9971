/** The streaming reader of a partition and the two passes of an import. */
module LogicalImport {
  import opened Wrappers
  import opened PortabilityModel
  import opened PartitionText
  import CanonicalJson
  import TextOrder

  datatype ImportError = Integrity | Cancelled | TargetFailed | Changed | BadBatchSize

  datatype TargetCall = Preflight | Transfer(reference: CanonicalJson.Json) | Write(batch: seq<LogicalRecord>)
                      | Finalize

  /** The adapter's target and transfer hook: what was asked of them, and which calls raise or answer badly. */
  class ImportTarget {
    const fails: nat -> bool
    var calls: seq<TargetCall>

    constructor (fails: nat -> bool)
      ensures calls == [] && this.fails == fails
    {
      this.fails := fails;
      calls := [];
    }

    method Call(call: TargetCall) returns (ok: bool)
      modifies this
      ensures calls == old(calls) + [call] && (ok <==> !fails(|old(calls)|))
    {
      ok := !fails(|calls|);
      calls := calls + [call];
    }

    /** No call since the first `from` has failed. */
    ghost predicate Served(from: nat)
      reads this
    {
      forall k: nat :: from <= k < |calls| ==> !fails(k)
    }
  }

  // ------------------------------------------------------- what was asked

  function Batches(calls: seq<TargetCall>): seq<seq<LogicalRecord>>
  {
    if calls == [] then []
    else
      var last := calls[|calls| - 1];
      Batches(calls[..|calls| - 1]) + if last.Write? then [last.batch] else []
  }

  function Transfers(calls: seq<TargetCall>): seq<CanonicalJson.Json>
  {
    if calls == [] then []
    else
      var last := calls[|calls| - 1];
      Transfers(calls[..|calls| - 1]) + if last.Transfer? then [last.reference] else []
  }

  predicate OnlyRecords(calls: seq<TargetCall>)
  {
    forall c :: c in calls ==> c.Transfer? || c.Write?
  }

  function Concat(batches: seq<seq<LogicalRecord>>): seq<LogicalRecord>
  {
    if batches == [] then [] else Concat(batches[..|batches| - 1]) + batches[|batches| - 1]
  }

  function Elements(items: CanonicalJson.Items): seq<CanonicalJson.Json>
  {
    match items
    case NoItems => []
    case Item(head, tail) => [head] + Elements(tail)
  }

  function References(records: seq<LogicalRecord>): seq<CanonicalJson.Json>
  {
    if records == [] then []
    else References(records[..|records| - 1]) + Elements(records[|records| - 1].objectReferences)
  }

  /** How a pass delivers: to nobody, or in batches, with or without transferring referenced objects. */
  datatype Mode = Mode(write: bool, transfer: bool, batchSize: nat)

  /** By the time a batch is written, exactly what its records and the ones before refer to has been transferred. */
  ghost predicate Timely(mode: Mode, calls: seq<TargetCall>)
  {
    forall k :: 0 <= k < |calls| && calls[k].Write? ==> TimelyAt(mode, calls, k)
  }

  ghost predicate TimelyAt(mode: Mode, calls: seq<TargetCall>, k: nat)
    requires k < |calls|
  {
    Transfers(calls[..k]) == if mode.transfer then References(Concat(Batches(calls[..k + 1]))) else []
  }

  /** The calls so far hand over all accepted records but those still waiting in `batch`, in full batches. */
  ghost predicate Delivered(mode: Mode, calls: seq<TargetCall>, accepted: seq<LogicalRecord>, batch: seq<LogicalRecord>)
  {
    && OnlyRecords(calls) && Timely(mode, calls) && |batch| < mode.batchSize
    && (forall b :: b in Batches(calls) ==> |b| == mode.batchSize)
    && Concat(Batches(calls)) + batch == accepted
    && Transfers(calls) == if mode.transfer then References(accepted) else []
  }

  /** Batches of the given size, of which only the last may be short, and none is empty. */
  ghost predicate Batched(size: nat, batches: seq<seq<LogicalRecord>>, records: seq<LogicalRecord>)
  {
    && Concat(batches) == records
    && forall i :: 0 <= i < |batches| ==> 1 <= |batches[i]| <= size && (i < |batches| - 1 ==> |batches[i]| == size)
  }

  /** A finished pass over one partition: nothing, or every record and every reference of it, in order. */
  ghost predicate Handed(mode: Mode, calls: seq<TargetCall>, records: seq<LogicalRecord>)
  {
    if !mode.write then calls == []
    else
      && OnlyRecords(calls) && Timely(mode, calls) && Batched(mode.batchSize, Batches(calls), records)
      && Transfers(calls) == if mode.transfer then References(records) else []
  }

  lemma OneMore(calls: seq<TargetCall>, call: TargetCall)
    ensures Batches(calls + [call]) == Batches(calls) + if call.Write? then [call.batch] else []
    ensures Transfers(calls + [call]) == Transfers(calls) + if call.Transfer? then [call.reference] else []
  {
    assert (calls + [call])[..|calls|] == calls;
  }

  lemma ConcatMore(batches: seq<seq<LogicalRecord>>, batch: seq<LogicalRecord>)
    ensures Concat(batches + [batch]) == Concat(batches) + batch
  {
    assert (batches + [batch])[..|batches|] == batches;
  }

  lemma ReferencesMore(records: seq<LogicalRecord>, r: LogicalRecord)
    ensures References(records + [r]) == References(records) + Elements(r.objectReferences)
  {
    assert (records + [r])[..|records|] == records;
  }

  lemma {:induction false} ManyTransfers(calls: seq<TargetCall>, references: seq<CanonicalJson.Json>)
    ensures var more := calls + seq(|references|, i requires 0 <= i < |references| => Transfer(references[i]));
      && Batches(more) == Batches(calls) && Transfers(more) == Transfers(calls) + references
      && (OnlyRecords(calls) ==> OnlyRecords(more))
    decreases |references|
  {
    var added := seq(|references|, i requires 0 <= i < |references| => Transfer(references[i]));
    if references == [] {
      assert calls + added == calls;
    } else {
      var init, last := references[..|references| - 1], references[|references| - 1];
      var before := calls + seq(|init|, i requires 0 <= i < |init| => Transfer(init[i]));
      ManyTransfers(calls, init);
      assert calls + added == before + [Transfer(last)];
      OneMore(before, Transfer(last));
    }
  }

  function TransferCalls(references: seq<CanonicalJson.Json>): seq<TargetCall>
  {
    seq(|references|, i requires 0 <= i < |references| => Transfer(references[i]))
  }

  function Referenced(mode: Mode, r: LogicalRecord): seq<CanonicalJson.Json>
  {
    if mode.transfer then Elements(r.objectReferences) else []
  }

  lemma TransfersAreTimely(mode: Mode, calls: seq<TargetCall>, references: seq<CanonicalJson.Json>)
    requires Timely(mode, calls)
    ensures Timely(mode, calls + TransferCalls(references))
  {
    var more := calls + TransferCalls(references);
    forall k | 0 <= k < |more| && more[k].Write? ensures TimelyAt(mode, more, k) {
      assert k < |calls|;
      assert more[..k] == calls[..k] && more[..k + 1] == calls[..k + 1];
      assert TimelyAt(mode, calls, k);
    }
  }

  lemma WriteIsTimely(mode: Mode, calls: seq<TargetCall>, batch: seq<LogicalRecord>)
    requires Timely(mode, calls)
    requires Transfers(calls) == if mode.transfer then References(Concat(Batches(calls)) + batch) else []
    ensures Timely(mode, calls + [Write(batch)])
  {
    hide Batches, Transfers, Concat, References;
    var more := calls + [Write(batch)];
    OneMore(calls, Write(batch));
    ConcatMore(Batches(calls), batch);
    forall k | 0 <= k < |more| && more[k].Write? ensures TimelyAt(mode, more, k) {
      if k < |calls| {
        assert more[..k] == calls[..k] && more[..k + 1] == calls[..k + 1];
        assert TimelyAt(mode, calls, k);
      } else {
        assert more[..k] == calls && more[..k + 1] == more;
      }
    }
  }

  /** A record joins the waiting batch once its references are transferred. */
  lemma Joins(mode: Mode, calls: seq<TargetCall>, accepted: seq<LogicalRecord>, batch: seq<LogicalRecord>,
              r: LogicalRecord)
    requires Delivered(mode, calls, accepted, batch) && |batch| + 1 < mode.batchSize
    ensures Delivered(mode, calls + TransferCalls(Referenced(mode, r)), accepted + [r], batch + [r])
  {
    hide Batches, Transfers, OnlyRecords, Concat, References, Elements, Timely;
    ManyTransfers(calls, Referenced(mode, r));
    TransfersAreTimely(mode, calls, Referenced(mode, r));
    ReferencesMore(accepted, r);
    assert Concat(Batches(calls)) + (batch + [r]) == accepted + [r];
  }

  /** The record that fills the batch: the batch is handed over. */
  lemma Fills(mode: Mode, calls: seq<TargetCall>, accepted: seq<LogicalRecord>, batch: seq<LogicalRecord>,
              r: LogicalRecord)
    requires Delivered(mode, calls, accepted, batch) && |batch| + 1 == mode.batchSize
    ensures Delivered(mode, calls + TransferCalls(Referenced(mode, r)) + [Write(batch + [r])], accepted + [r], [])
  {
    hide Batches, Transfers, OnlyRecords, Concat, References, Elements, Timely;
    var more := calls + TransferCalls(Referenced(mode, r));
    TransfersAreTimely(mode, calls, Referenced(mode, r));
    ManyTransfers(calls, Referenced(mode, r));
    ReferencesMore(accepted, r);
    OneMore(more, Write(batch + [r]));
    OnlyMore(more, batch + [r]);
    ConcatMore(Batches(calls), batch + [r]);
    assert Concat(Batches(calls)) + (batch + [r]) == accepted + [r];
    WriteIsTimely(mode, more, batch + [r]);
  }

  lemma OnlyMore(calls: seq<TargetCall>, batch: seq<LogicalRecord>)
    requires OnlyRecords(calls)
    ensures OnlyRecords(calls + [Write(batch)])
  {
  }

  lemma FullBatches(size: nat, batches: seq<seq<LogicalRecord>>, batch: seq<LogicalRecord>)
    requires size >= 1 && |batch| < size && forall b :: b in batches ==> |b| == size
    ensures Batched(size, if batch == [] then batches else batches + [batch], Concat(batches) + batch)
  {
    ConcatMore(batches, batch);
    forall i | 0 <= i < |batches| ensures |batches[i]| == size {
      assert batches[i] in batches;
    }
  }

  /** The last, possibly short, batch. */
  lemma Finishes(mode: Mode, calls: seq<TargetCall>, accepted: seq<LogicalRecord>, batch: seq<LogicalRecord>)
    requires mode.write && Delivered(mode, calls, accepted, batch)
    ensures Handed(mode, if batch == [] then calls else calls + [Write(batch)], accepted)
  {
    hide Batches, Transfers, OnlyRecords, Concat, References, Batched, Timely;
    WriteIsTimely(mode, calls, batch);
    FullBatches(mode.batchSize, Batches(calls), batch);
    OneMore(calls, Write(batch));
    OnlyMore(calls, batch);
  }

  /** One call of `_records`: the buffer, the counters and the batch it keeps while chunks arrive. */
  class PartitionReader {
    const limits: Limits
    const mode: Mode
    const target: ImportTarget
    var hashed: string
    var count: nat
    var minimum: Option<string>
    var maximum: Option<string>
    var previous: Option<string>
    var buffer: string
    var batch: seq<LogicalRecord>
    ghost var lines: seq<string>
    ghost var accepted: seq<LogicalRecord>
    ghost var base: seq<TargetCall>

    constructor (limits: Limits, mode: Mode, target: ImportTarget)
      requires mode.batchSize >= 1
      ensures Valid() && lines == [] && hashed == "" && buffer == "" && base == target.calls
      ensures this.limits == limits && this.mode == mode && this.target == target
    {
      this.limits, this.mode, this.target := limits, mode, target;
      hashed, count, minimum, maximum, previous, buffer, batch := "", 0, None, None, None, "", [];
      lines, accepted, base := [], [], target.calls;
    }

    /** The counters follow the records read so far, and the target has been asked for exactly what it should. */
    ghost predicate Valid()
      reads this`count, this`minimum, this`maximum, this`previous, this`batch, this`lines, this`accepted, this`base
      reads target
    {
      && Read(limits, lines) == Some(accepted)
      && count == |accepted| && minimum == FirstId(accepted) && maximum == LastId(accepted)
      && previous == LastId(accepted)
      && (accepted != [] ==> accepted[0].logicalId != "")
      && base <= target.calls
      && if mode.write then Delivered(mode, target.calls[|base|..], accepted, batch)
         else target.calls == base && batch == []
    }

    /** Transfer the objects a record refers to. */
    method TransferAll(references: CanonicalJson.Items) returns (ok: bool)
      modifies target
      ensures ok ==> target.calls == old(target.calls) + TransferCalls(Elements(references))
      ensures ok <==> target.Served(|old(target.calls)|)
      ensures old(target.calls) <= target.calls
    {
      var rest := references;
      ghost var done: seq<CanonicalJson.Json> := [];
      while rest.Item?
        invariant done + Elements(rest) == Elements(references)
        invariant target.calls == old(target.calls) + TransferCalls(done)
        invariant target.Served(|old(target.calls)|)
        decreases rest
      {
        ok := target.Call(Transfer(rest.head));
        if !ok { return false; }
        assert TransferCalls(done + [rest.head]) == TransferCalls(done) + [Transfer(rest.head)];
        done := done + [rest.head];
        rest := rest.tail;
      }
      ok := true;
      assert done == Elements(references);
    }

    /** Hand one accepted record to the target: its references first, then the record, once its batch is full. */
    method Deliver(r: LogicalRecord) returns (ok: bool)
      requires mode.write && base <= target.calls && Delivered(mode, target.calls[|base|..], accepted, batch)
      modifies this`batch, target
      ensures base <= target.calls && old(target.calls) <= target.calls
      ensures ok ==> Delivered(mode, target.calls[|base|..], accepted + [r], batch)
      ensures ok <==> target.Served(|old(target.calls)|)
    {
      hide Delivered, Elements;
      ghost var before := target.calls[|base|..];
      ok := true;
      if mode.transfer { ok := TransferAll(r.objectReferences); }
      if !ok { return; }
      assert ok && target.calls[|base|..] == before + TransferCalls(Referenced(mode, r));
      WaitingIsShort(mode, before, accepted, batch);
      if |batch| + 1 == mode.batchSize {
        Fills(mode, before, accepted, batch, r);
      } else {
        Joins(mode, before, accepted, batch, r);
      }
      batch := batch + [r];
      if |batch| == mode.batchSize {
        ghost var calls := target.calls;
        ok := target.Call(Write(batch));
        assert target.calls[|base|..] == calls[|base|..] + [Write(batch)];
        batch := [];
      }
    }

    /** One non-empty line. */
    method Consume(line: string) returns (error: Option<ImportError>)
      requires Valid() && line != ""
      modifies this, target
      ensures hashed == old(hashed) && buffer == old(buffer) && base == old(base)
      ensures error.None? ==> Valid() && lines == old(lines) + [line]
      ensures error.Some? ==> error == Some(Integrity) || (error == Some(TargetFailed) && mode.write)
      ensures error == Some(TargetFailed) <==> !target.Served(|old(target.calls)|)
      ensures old(target.calls) <= target.calls
      ensures error == Some(Integrity) ==> Read(limits, old(lines) + [line]).None?
      ensures !mode.write ==> target.calls == old(target.calls)
      ensures old(base) <= target.calls
    {
      hide Read, ReadLine, Delivered, LogicalRecord.Valid, TextOrder.Less, TextOrder.Precedes;
      ReadMore(limits, lines, line);
      var r := ReadLine(limits.catalogs, limits.maximum, line);
      if r.None? { return Some(Integrity); }
      var record := r.value;
      if previous.Some? { TextOrder.LessExactly(previous.value, record.logicalId); }
      if previous.Some? && !TextOrder.Less(previous.value, record.logicalId) { return Some(Integrity); }
      ReadHasId(limits, line);
      previous := Some(record.logicalId);
      minimum := if minimum.Some? && minimum.value != "" then minimum else Some(record.logicalId);
      maximum := Some(record.logicalId);
      count := count + 1;
      if mode.write {
        var ok := Deliver(record);
        if !ok { return Some(TargetFailed); }
      }
      accepted, lines := accepted + [record], lines + [line];
      error := None;
    }

    ghost predicate AtBoundary()
      reads this, target
    {
      Valid() && lines == Lines(hashed) && buffer == Tail(hashed)
    }

    /** An empty line is passed over. */
    ghost method NoteBlank()
      requires Valid()
      modifies this`lines
      ensures Valid() && lines == old(lines) + [""]
    {
      hide Read, Delivered;
      ReadMore(limits, lines, "");
      lines := lines + [""];
    }

    lemma ValidBase()
      requires Valid()
      ensures base <= target.calls && Read(limits, lines).Some?
    {
    }

    /** One chunk: every line it completes, and the early check on the line it leaves unfinished. */
    method Feed(chunk: string) returns (error: Option<ImportError>)
      requires AtBoundary()
      modifies this, target
      ensures hashed == old(hashed) + chunk && base == old(base)
      ensures error.None? ==> AtBoundary()
      ensures error.Some? ==> error == Some(Integrity) || (error == Some(TargetFailed) && mode.write)
      ensures error == Some(TargetFailed) <==> !target.Served(|old(target.calls)|)
      ensures old(target.calls) <= target.calls
      ensures error == Some(Integrity) ==> Hopeless(limits, hashed)
      ensures !mode.write ==> target.calls == old(target.calls)
      ensures old(base) <= target.calls
    {
      hide Read, Delivered, Lines, Tail, Hopeless, Valid;
      ValidBase();
      SplitAnywhere(hashed, chunk);
      hashed := hashed + chunk;
      buffer := buffer + chunk;
      while HasNewline(buffer)
        invariant Valid() && hashed == old(hashed) + chunk && base == old(base)
        invariant Lines(hashed) == lines + Lines(buffer) && Tail(hashed) == Tail(buffer)
        invariant !mode.write ==> target.calls == old(target.calls)
        invariant old(target.calls) <= target.calls && target.Served(|old(target.calls)|)
        decreases |buffer|
      {
        var i := FirstNewline(buffer);
        var line, remainder := buffer[..i], buffer[i + 1..];
        assert buffer == line + "\n" + remainder;
        FirstLine(line, remainder);
        BadLineIsHopeless(limits, hashed, lines, line, Lines(remainder));
        buffer := remainder;
        if line != "" {
          error := Consume(line);
          if error.Some? { return; }
        } else {
          NoteBlank();
        }
      }
      ValidBase();
      NoNewline(buffer);
      if |buffer| > limits.maximum {
        TooLongIsHopeless(limits, hashed);
        return Some(Integrity);
      }
      error := None;
    }
  }

  /** Whatever follows, the text will not be accepted. */
  ghost predicate Hopeless(limits: Limits, text: string)
  {
    forall more :: Tail(text + more) != "" || Read(limits, Lines(text + more)).None?
  }

  lemma BadLineIsHopeless(limits: Limits, text: string, before: seq<string>, line: string, after: seq<string>)
    requires Lines(text) == before + ([line] + after)
    ensures Read(limits, before + [line]).None? ==> Hopeless(limits, text)
  {
    hide Read, Lines, Tail;
    forall more | Read(limits, before + [line]).None?
      ensures Read(limits, Lines(text + more)).None?
    {
      SplitAnywhere(text, more);
      var lines, k := Lines(text + more), |before| + 1;
      assert lines[..k] == before + [line];
      if Read(limits, lines).Some? { ReadPrefix(limits, lines, k); }
    }
  }

  lemma TooLongIsHopeless(limits: Limits, text: string)
    requires |Tail(text)| > limits.maximum
    ensures Hopeless(limits, text)
  {
    hide Read, Lines, Tail;
    forall more
      ensures Tail(text + more) != "" || Read(limits, Lines(text + more)).None?
    {
      OversizedIsHopeless(limits, text, more);
    }
  }

  lemma WaitingIsShort(mode: Mode, calls: seq<TargetCall>, accepted: seq<LogicalRecord>, batch: seq<LogicalRecord>)
    requires Delivered(mode, calls, accepted, batch)
    ensures |batch| < mode.batchSize
  {
  }

  lemma ReadHasId(limits: Limits, line: string)
    requires ReadLine(limits.catalogs, limits.maximum, line).Some?
    ensures ReadLine(limits.catalogs, limits.maximum, line).value.logicalId != ""
  {
    hide ReadLine;
    LinesExactly(limits.catalogs, limits.maximum, line);
  }

  // ------------------------------------------------------------ one pass

  datatype PartitionImportResult = PartitionImportResult(partitionId: string, count: nat, bytes: nat, sha256: Digest)

  function ResultOf(manifest: PartitionManifest): PartitionImportResult
  {
    PartitionImportResult(manifest.partitionId, manifest.count, manifest.bytes, manifest.sha256)
  }

  function Flatten(chunks: seq<string>): string
  {
    if chunks == [] then "" else Flatten(chunks[..|chunks| - 1]) + chunks[|chunks| - 1]
  }

  lemma {:induction false} FlattenSplit(chunks: seq<string>, k: nat) returns (more: string)
    requires k <= |chunks|
    ensures Flatten(chunks) == Flatten(chunks[..k]) + more
    decreases |chunks|
  {
    if k == |chunks| {
      more := "";
      assert chunks[..k] == chunks && Flatten(chunks) + "" == Flatten(chunks);
    } else {
      var rest := FlattenSplit(chunks[..|chunks| - 1], k);
      more := rest + chunks[|chunks| - 1];
      assert chunks[..|chunks| - 1][..k] == chunks[..k];
    }
  }

  lemma HopelessNeverHolds(limits: Limits, manifest: PartitionManifest, chunks: seq<string>, k: nat)
    requires k <= |chunks| && Hopeless(limits, Flatten(chunks[..k]))
    ensures !Holds(limits, manifest, Flatten(chunks))
  {
    hide Read, Lines, Tail;
    var more := FlattenSplit(chunks, k);
  }

  /**
   * One pass over one partition, for any way of cutting its bytes into chunks: it succeeds exactly when the whole text
   * meets the simple specification, unless it is cancelled or the target fails.
   */
  method ReadPartition(limits: Limits, mode: Mode, target: ImportTarget, manifest: PartitionManifest,
                       chunks: seq<string>,
                       cancelled: nat -> bool)
    returns (result: Result<PartitionImportResult, ImportError>)
    requires mode.batchSize >= 1
    modifies target
    ensures !mode.write ==> target.calls == old(target.calls)
    ensures old(target.calls) <= target.calls
    ensures result.Ok? ==> Holds(limits, manifest, Flatten(chunks)) && result.value == ResultOf(manifest)
    ensures result.Ok? ==>
      Handed(mode, target.calls[|old(target.calls)|..], Read(limits, Lines(Flatten(chunks))).value)
    ensures result.Err? ==> result.error in {Integrity, Cancelled, TargetFailed}
    ensures result == Err(Integrity) ==> !Holds(limits, manifest, Flatten(chunks))
    ensures result == Err(Cancelled) ==> exists n: nat :: n <= |chunks| && cancelled(n)
    ensures result.Ok? ==> forall n: nat :: n <= |chunks| ==> !cancelled(n)
    ensures result == Err(TargetFailed) ==> mode.write
    ensures result == Err(TargetFailed) <==> !target.Served(|old(target.calls)|)
  {
    hide Read, Lines, Tail, Hopeless, Delivered, Handed, PartitionReader.Valid;
    if cancelled(0) { return Err(Cancelled); }
    var reader := new PartitionReader(limits, mode, target);
    SplitNothing(limits);
    for k := 0 to |chunks|
      invariant reader.AtBoundary() && reader.hashed == Flatten(chunks[..k]) && reader.base == old(target.calls)
      invariant !mode.write ==> target.calls == old(target.calls)
      invariant forall n: nat :: n <= k ==> !cancelled(n)
      invariant old(target.calls) <= target.calls && target.Served(|old(target.calls)|)
    {
      if cancelled(k + 1) {
        reader.ValidBase();
        return Err(Cancelled);
      }
      assert chunks[..k + 1][..k] == chunks[..k];
      var error := reader.Feed(chunks[k]);
      if error.Some? {
        if error == Some(Integrity) { HopelessNeverHolds(limits, manifest, chunks, k + 1); }
        return Err(error.value);
      }
    }
    assert chunks[..|chunks|] == chunks;
    result := Conclude(reader, manifest);
  }

  lemma SplitNothing(limits: Limits)
    ensures Lines("") == [] && Tail("") == ""
  {
  }

  /** After the last chunk: nothing unfinished, the last batch, and the manifest's own figures. */
  method Conclude(reader: PartitionReader, manifest: PartitionManifest)
    returns (result: Result<PartitionImportResult, ImportError>)
    requires reader.AtBoundary() && reader.mode.batchSize >= 1
    modifies reader.target
    ensures !reader.mode.write ==> reader.target.calls == old(reader.target.calls)
    ensures reader.base <= reader.target.calls
    ensures result.Ok? ==> Holds(reader.limits, manifest, reader.hashed) && result.value == ResultOf(manifest)
    ensures result.Ok? ==>
      Handed(reader.mode, reader.target.calls[|reader.base|..], Read(reader.limits, Lines(reader.hashed)).value)
    ensures result.Err? ==> result.error in {Integrity, TargetFailed}
    ensures result == Err(Integrity) ==> !Holds(reader.limits, manifest, reader.hashed)
    ensures result == Err(TargetFailed) ==> reader.mode.write
    ensures result == Err(TargetFailed) <==> !reader.target.Served(|old(reader.target.calls)|)
    ensures old(reader.target.calls) <= reader.target.calls
  {
    hide Read, Lines, Tail, Delivered, Handed;
    if reader.buffer != "" { return Err(Integrity); }
    ghost var calls := reader.target.calls[|reader.base|..];
    if reader.mode.write {
      Finishes(reader.mode, calls, reader.accepted, reader.batch);
    } else {
      assert calls == [];
      NothingHanded(reader.mode, reader.accepted);
    }
    if reader.mode.write && reader.batch != [] {
      var ok := reader.target.Call(Write(reader.batch));
      assert reader.target.calls[|reader.base|..] == calls + [Write(reader.batch)];
      if !ok { return Err(TargetFailed); }
    }
    var observed := Sha256(reader.hashed);
    if reader.count != manifest.count || |reader.hashed| != manifest.bytes
      || reader.minimum != manifest.minimumLogicalId || reader.maximum != manifest.maximumLogicalId
      || observed != manifest.sha256 {
      return Err(Integrity);
    }
    result := Ok(PartitionImportResult(manifest.partitionId, reader.count, |reader.hashed|, observed));
  }

  lemma NothingHanded(mode: Mode, records: seq<LogicalRecord>)
    requires !mode.write
    ensures Handed(mode, [], records)
  {
  }

  // ---------------------------------------------------------- two passes

  /** What an import runs against: the bytes each pass is given, cut up as they come, and when it is cancelled. */
  datatype Supply = Supply(chunks: (nat, nat) -> seq<string>, cancelledAtStart: bool,
                           cancelled: (nat, nat, nat) -> bool)
  {
    /** It is cancelled at a moment when this pass over the first `k` partitions looks. */
    ghost predicate CancelsPass(pass: nat, k: nat)
    {
      exists i: nat, n: nat :: i < k && n <= |chunks(pass, i)| && cancelled(pass, i, n)
    }

    /** It is cancelled at a moment when an import of `k` partitions looks. */
    ghost predicate Cancels(k: nat)
    {
      cancelledAtStart || CancelsPass(0, k) || CancelsPass(1, k)
    }

    function Content(pass: nat, i: nat): string { Flatten(chunks(pass, i)) }

    /** Both passes are given the same bytes, however cut. */
    ghost predicate Repeatable() { forall i: nat :: Content(0, i) == Content(1, i) }
  }

  /** Every partition meets its manifest on this pass. */
  ghost predicate AllHold(limits: Limits, manifests: seq<PartitionManifest>, supply: Supply, pass: nat)
  {
    forall i :: 0 <= i < |manifests| ==> Holds(limits, manifests[i], supply.Content(pass, i))
  }

  function ResultsOf(manifests: seq<PartitionManifest>): seq<PartitionImportResult>
  {
    seq(|manifests|, i requires 0 <= i < |manifests| => ResultOf(manifests[i]))
  }

  /** The records of the first `k` partitions as the second pass read them, in partition order. */
  ghost function AllRecords(limits: Limits, supply: Supply, k: nat): seq<LogicalRecord>
  {
    if k == 0 then [] else AllRecords(limits, supply, k - 1) + RecordsIn(limits, supply, k - 1)
  }

  ghost function RecordsIn(limits: Limits, supply: Supply, i: nat): seq<LogicalRecord>
  {
    var read := Read(limits, Lines(supply.Content(1, i)));
    if read.Some? then read.value else []
  }

  /** What one pass asked of the target, partition by partition. */
  ghost predicate Passed(limits: Limits, mode: Mode, supply: Supply, parts: seq<seq<TargetCall>>)
  {
    forall i :: 0 <= i < |parts| ==> Handed(mode, parts[i], RecordsIn(limits, supply, i))
  }

  function Joined(parts: seq<seq<TargetCall>>): seq<TargetCall>
  {
    if parts == [] then [] else Joined(parts[..|parts| - 1]) + parts[|parts| - 1]
  }

  class LogicalImportCoordinator {
    const limits: Limits
    const target: ImportTarget
    const transfersObjects: bool

    constructor (limits: Limits, target: ImportTarget, transfersObjects: bool)
      ensures this.limits == limits && this.target == target && this.transfersObjects == transfersObjects
    {
      this.limits, this.target, this.transfersObjects := limits, target, transfersObjects;
    }

    /** One pass over all partitions, stopping at the first that fails. */
    method Pass(manifests: seq<PartitionManifest>, mode: Mode, supply: Supply, pass: nat)
      returns (result: Result<seq<PartitionImportResult>, ImportError>, ghost parts: seq<seq<TargetCall>>)
      requires mode.batchSize >= 1 && (mode.write <==> pass == 1)
      modifies target
      ensures !mode.write ==> target.calls == old(target.calls)
      ensures result.Ok? ==> AllHold(limits, manifests, supply, pass) && result.value == ResultsOf(manifests)
      ensures result.Ok? ==> target.calls == old(target.calls) + Joined(parts) && |parts| == |manifests|
      ensures result.Ok? && mode.write ==> Passed(limits, mode, supply, parts)
      ensures result.Err? ==> result.error in {Integrity, Cancelled, TargetFailed}
      ensures result == Err(Integrity) ==> !AllHold(limits, manifests, supply, pass)
      ensures result == Err(Cancelled) ==> supply.CancelsPass(pass, |manifests|)
      ensures result.Ok? ==> !supply.CancelsPass(pass, |manifests|)
      ensures result == Err(TargetFailed) ==> mode.write
      ensures result == Err(TargetFailed) <==> !target.Served(|old(target.calls)|)
      ensures old(target.calls) <= target.calls
    {
      hide Read, Lines, Tail, Handed, Holds, Flatten, PassedTo, Joined;
      var results: seq<PartitionImportResult> := [];
      parts := [];
      PassedNothing(limits, mode, manifests, supply, pass);
      for i := 0 to |manifests|
        invariant PassedTo(limits, mode, manifests, supply, pass, results, parts) && |parts| == i
        invariant target.calls == old(target.calls) + Joined(parts)
        invariant !mode.write ==> target.calls == old(target.calls)
        invariant target.Served(|old(target.calls)|) && !supply.CancelsPass(pass, i)
      {
        ghost var before := target.calls;
        var cancelled := (n: nat) => supply.cancelled(pass, i, n);
        var one := ReadPartition(limits, mode, target, manifests[i], supply.chunks(pass, i), cancelled);
        assert forall n: nat :: cancelled(n) == supply.cancelled(pass, i, n);
        if one.Err? { return Err(one.error), parts; }
        ghost var part := target.calls[|before|..];
        assert target.calls == before + part;
        JoinedMore(parts, part);
        PassedOne(limits, mode, manifests, supply, pass, results, parts, part);
        parts := parts + [part];
        results := results + [one.value];
      }
      PassedAll(limits, mode, manifests, supply, pass, results, parts);
      result := Ok(results);
    }

    /**
     * Verify everything, then write. The target is touched only after every partition passed verification; a report
     * means every record was handed over, in order and in batches; nothing else makes an undisturbed import fail.
     */
    method Import(manifests: seq<PartitionManifest>, batchSize: int, supply: Supply)
      returns (result: Result<seq<PartitionImportResult>, ImportError>, ghost parts: seq<seq<TargetCall>>)
      modifies target
      ensures result == Err(BadBatchSize) <==> !(1 <= batchSize <= 10000)
      ensures !AllHold(limits, manifests, supply, 0) ==> result.Err? && target.calls == old(target.calls)
      ensures result.Ok? ==> result.value == ResultsOf(manifests)
      ensures result.Ok? ==> AllHold(limits, manifests, supply, 0) && AllHold(limits, manifests, supply, 1)
      ensures result.Ok? ==>
        target.calls == old(target.calls) + [Preflight] + Joined(parts) + [Finalize] && |parts| == |manifests|
      ensures result.Ok? ==> Passed(limits, Mode(true, transfersObjects, batchSize), supply, parts)
      ensures result != Err(Changed)
      ensures result == Err(Integrity) && AllHold(limits, manifests, supply, 0) ==>
        !AllHold(limits, manifests, supply, 1)
      ensures result == Err(Integrity) && supply.Repeatable() ==> target.calls == old(target.calls)
      ensures result == Err(Cancelled) ==> supply.Cancels(|manifests|)
      ensures result.Ok? ==> !supply.Cancels(|manifests|)
      ensures result == Err(TargetFailed) <==> !target.Served(|old(target.calls)|)
      ensures 1 <= batchSize <= 10000 && !supply.Cancels(|manifests|) && target.Served(|old(target.calls)|) ==>
        (result.Ok? <==> AllHold(limits, manifests, supply, 0) && AllHold(limits, manifests, supply, 1))
    {
      hide AllHold, Passed, Joined, ResultsOf, Supply.Repeatable, Supply.CancelsPass;
      parts := [];
      if batchSize < 1 || batchSize > 10000 { return Err(BadBatchSize), parts; }
      if supply.cancelledAtStart { return Err(Cancelled), parts; }
      SameBytes(limits, manifests, supply);
      var verified; ghost var none;
      verified, none := Pass(manifests, Mode(false, transfersObjects, batchSize), supply, 0);
      if verified.Err? { return Err(verified.error), parts; }
      var ok := target.Call(Preflight);
      if !ok { return Err(TargetFailed), parts; }
      var results;
      results, parts := Pass(manifests, Mode(true, transfersObjects, batchSize), supply, 1);
      if results.Err? { return Err(results.error), parts; }
      if results.value != verified.value { return Err(Changed), parts; }
      ok := target.Call(Finalize);
      if !ok { return Err(TargetFailed), parts; }
      result := Ok(results.value);
    }
  }

  /** The first `|parts|` partitions are through. */
  ghost predicate PassedTo(limits: Limits, mode: Mode, manifests: seq<PartitionManifest>, supply: Supply, pass: nat,
                           results: seq<PartitionImportResult>, parts: seq<seq<TargetCall>>)
  {
    && |parts| <= |manifests| && AllHold(limits, manifests[..|parts|], supply, pass)
    && results == ResultsOf(manifests[..|parts|])
    && (mode.write ==> Passed(limits, mode, supply, parts))
  }

  lemma PassedNothing(limits: Limits, mode: Mode, manifests: seq<PartitionManifest>, supply: Supply, pass: nat)
    ensures PassedTo(limits, mode, manifests, supply, pass, [], []) && Joined([]) == []
  {
  }

  lemma PassedOne(limits: Limits, mode: Mode, manifests: seq<PartitionManifest>, supply: Supply, pass: nat,
                  results: seq<PartitionImportResult>, parts: seq<seq<TargetCall>>, part: seq<TargetCall>)
    requires PassedTo(limits, mode, manifests, supply, pass, results, parts) && |parts| < |manifests|
    requires (mode.write <==> pass == 1)
    requires Holds(limits, manifests[|parts|], supply.Content(pass, |parts|))
    requires Handed(mode, part, Read(limits, Lines(supply.Content(pass, |parts|))).value)
    ensures PassedTo(limits, mode, manifests, supply, pass, results + [ResultOf(manifests[|parts|])], parts + [part])
  {
    hide Holds, Read, Lines, Handed, Flatten;
    RecordsRead(limits, manifests[|parts|], supply, pass, |parts|);
    assert manifests[..|parts| + 1] == manifests[..|parts|] + [manifests[|parts|]];
  }

  lemma PassedAll(limits: Limits, mode: Mode, manifests: seq<PartitionManifest>, supply: Supply, pass: nat,
                  results: seq<PartitionImportResult>, parts: seq<seq<TargetCall>>)
    requires PassedTo(limits, mode, manifests, supply, pass, results, parts) && |parts| == |manifests|
    ensures AllHold(limits, manifests, supply, pass) && results == ResultsOf(manifests)
    ensures mode.write ==> Passed(limits, mode, supply, parts)
  {
    assert manifests[..|manifests|] == manifests;
  }

  lemma JoinedMore(parts: seq<seq<TargetCall>>, part: seq<TargetCall>)
    ensures Joined(parts + [part]) == Joined(parts) + part
  {
    assert (parts + [part])[..|parts|] == parts;
  }

  lemma RecordsRead(limits: Limits, manifest: PartitionManifest, supply: Supply, pass: nat, i: nat)
    requires Holds(limits, manifest, supply.Content(pass, i))
    ensures Read(limits, Lines(supply.Content(pass, i))).Some?
    ensures pass == 1 ==> RecordsIn(limits, supply, i) == Read(limits, Lines(supply.Content(pass, i))).value
  {
  }

  lemma SameBytes(limits: Limits, manifests: seq<PartitionManifest>, supply: Supply)
    ensures supply.Repeatable() ==> (AllHold(limits, manifests, supply, 0) <==> AllHold(limits, manifests, supply, 1))
  {
    hide Holds, Supply.Content;
  }

  // --------------------------------------------- what the target received

  lemma {:induction false} BatchesJoin(a: seq<TargetCall>, b: seq<TargetCall>)
    ensures Batches(a + b) == Batches(a) + Batches(b)
    decreases |b|
  {
    if b == [] {
      assert a + b == a;
    } else {
      assert (a + b)[..|a + b| - 1] == a + b[..|b| - 1];
      BatchesJoin(a, b[..|b| - 1]);
    }
  }

  lemma {:induction false} ConcatJoin(a: seq<seq<LogicalRecord>>, b: seq<seq<LogicalRecord>>)
    ensures Concat(a + b) == Concat(a) + Concat(b)
    decreases |b|
  {
    if b == [] {
      assert a + b == a;
    } else {
      assert (a + b)[..|a + b| - 1] == a + b[..|b| - 1];
      ConcatJoin(a, b[..|b| - 1]);
    }
  }

  /** All batches of an import, put together, are all records in partition order. */
  lemma {:induction false} EverythingArrives(limits: Limits, mode: Mode, supply: Supply, parts: seq<seq<TargetCall>>)
    requires mode.write && Passed(limits, mode, supply, parts)
    ensures Concat(Batches(Joined(parts))) == AllRecords(limits, supply, |parts|)
    decreases |parts|
  {
    hide RecordsIn, Batches, Concat;
    if parts == [] {
      NothingBatched();
    } else {
      var init, last := parts[..|parts| - 1], parts[|parts| - 1];
      EverythingArrives(limits, mode, supply, init);
      BatchesJoin(Joined(init), last);
      ConcatJoin(Batches(Joined(init)), Batches(last));
      assert Handed(mode, last, RecordsIn(limits, supply, |init|));
    }
  }

  lemma NothingBatched()
    ensures Concat(Batches([])) == []
  {
  }

  lemma Framed(parts: seq<seq<TargetCall>>)
    ensures Batches([Preflight] + Joined(parts) + [Finalize]) == Batches(Joined(parts))
  {
    hide Joined;
    OneMore([Preflight] + Joined(parts), Finalize);
    BatchesJoin([Preflight], Joined(parts));
    OneMore([], Preflight);
    assert [] + [Preflight] == [Preflight];
  }

  /** After a successful import the batches received are, put together, all records in partition order. */
  lemma Received(limits: Limits, mode: Mode, supply: Supply, before: seq<TargetCall>, after: seq<TargetCall>,
                 parts: seq<seq<TargetCall>>)
    requires mode.write && Passed(limits, mode, supply, parts)
    requires after == before + [Preflight] + Joined(parts) + [Finalize]
    ensures |before| <= |after| && Concat(Batches(after[|before|..])) == AllRecords(limits, supply, |parts|)
  {
    hide Joined, Batches, Concat, Passed;
    assert after[|before|..] == [Preflight] + Joined(parts) + [Finalize];
    Framed(parts);
    EverythingArrives(limits, mode, supply, parts);
  }
}
