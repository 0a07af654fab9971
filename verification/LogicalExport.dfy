/** Exporting ordered records into canonical partitions, and importing them back from their own artifacts. */
module LogicalExport {
  import opened Wrappers
  import opened Identifiers
  import opened PortabilityModel
  import opened PartitionText
  import LogicalImport
  import TextOrder

  datatype ExportError = Invalid | Cancelled

  /** Pending and finished artifacts in memory; a finished artifact is addressed by its content. */
  class InMemoryLogicalArtifacts {
    var pending: map<nat, string>
    var artifacts: map<ArtifactRef, string>
    var nextHandle: nat

    constructor ()
      ensures pending == map[] && artifacts == map[] && nextHandle == 0
    {
      pending, artifacts, nextHandle := map[], map[], 0;
    }

    method BeginPartition() returns (handle: nat)
      modifies this
      ensures nextHandle == old(nextHandle) + 1 == handle
      ensures pending == old(pending)[handle := ""] && artifacts == old(artifacts)
    {
      nextHandle := nextHandle + 1;
      handle := nextHandle;
      pending := pending[handle := ""];
    }

    method Write(handle: nat, chunk: string)
      requires handle in pending
      modifies this`pending
      ensures pending == old(pending)[handle := old(pending)[handle] + chunk]
    {
      pending := pending[handle := pending[handle] + chunk];
    }

    method FinishPartition(handle: nat, partitionId: string) returns (reference: ArtifactRef)
      requires handle in pending
      modifies this`pending, this`artifacts
      ensures reference == ArtifactRef(partitionId, Sha256(old(pending)[handle]))
      ensures artifacts == old(artifacts)[reference := old(pending)[handle]] && pending == old(pending) - {handle}
    {
      var content := pending[handle];
      pending := pending - {handle};
      reference := ArtifactRef(partitionId, Sha256(content));
      artifacts := artifacts[reference := content];
    }

    method Chunks(reference: ArtifactRef) returns (chunks: seq<string>)
      requires reference in artifacts
      ensures chunks == ChunksOf(artifacts, reference)
    {
      var content := artifacts[reference];
      if content != "" { return [content]; }
      chunks := [];
    }
  }

  function ChunksOf(artifacts: map<ArtifactRef, string>, reference: ArtifactRef): seq<string>
  {
    if reference !in artifacts || artifacts[reference] == "" then [] else [artifacts[reference]]
  }

  datatype Boundary = Boundary(boundaryId: string, startWatermark: string, endWatermark: string)

  /** What the export reads: partitions, their batches of records, and the boundary before and after. */
  datatype Source = Source(
    partitionIds: seq<string>, batches: nat -> seq<seq<LogicalRecord>>, opening: Boundary, closing: Boundary,
    cancelled: (nat, nat) -> bool)
  {
    function Records(i: nat): seq<LogicalRecord> { LogicalImport.Concat(batches(i)) }

    /** It is cancelled at a moment when an export of the first `k` partitions looks. */
    ghost predicate Cancels(k: nat)
    {
      exists i: nat, n: nat :: i < k && n <= |batches(i)| && cancelled(i, n)
    }

    /** Records come out of their constructor. */
    ghost predicate Valid(catalogs: set<string>)
    {
      forall i: nat, r :: i < |partitionIds| && r in Records(i) ==> r.Valid(catalogs)
    }
  }

  predicate SmallBatches(batches: seq<seq<LogicalRecord>>, size: nat)
  {
    forall b :: b in batches ==> |b| <= size
  }

  /** What a source must be for its export to succeed. */
  ghost predicate Acceptable(source: Source, size: nat, exportId: string)
  {
    && Distinct(source.partitionIds) && exportId != ""
    && (forall i :: 0 <= i < |source.partitionIds| ==>
          AcceptablePartition(source.partitionIds[i], source.batches(i), size))
    && source.closing.boundaryId == source.opening.boundaryId
    && source.closing.startWatermark == source.opening.startWatermark
  }

  ghost predicate AcceptablePartition(id: string, batches: seq<seq<LogicalRecord>>, size: nat)
  {
    id != "" && SmallBatches(batches, size) && Increasing(LogicalImport.Concat(batches))
  }

  ghost function Manifests(source: Source, k: nat): (m: seq<PartitionManifest>)
    requires k <= |source.partitionIds|
    ensures |m| == k
  {
    seq(k, i requires 0 <= i < k => ManifestOf(source.partitionIds[i], source.Records(i)))
  }

  /** The text of each of the first `k` partitions is stored under the reference its manifest gives. */
  ghost predicate Stored(artifacts: map<ArtifactRef, string>, source: Source, k: nat)
    requires k <= |source.partitionIds|
  {
    forall i: nat :: i < k ==>
      var reference := ManifestOf(source.partitionIds[i], source.Records(i)).artifactRef;
      reference in artifacts && artifacts[reference] == Text(source.Records(i))
  }

  lemma RecordsHaveIds(source: Source, catalogs: set<string>, i: nat)
    requires source.Valid(catalogs) && i < |source.partitionIds|
    ensures forall r :: r in LogicalImport.Concat(source.batches(i)) ==> r.logicalId != ""
  {
    forall r | r in LogicalImport.Concat(source.batches(i)) ensures r.logicalId != "" {
      assert r in source.Records(i);
      assert r.Valid(catalogs);
    }
  }

  lemma TextMore(records: seq<LogicalRecord>, r: LogicalRecord)
    ensures Text(records + [r]) == Text(records) + (r.Line() + "\n")
  {
    assert (records + [r])[..|records|] == records;
  }

  lemma IncreasingMore(records: seq<LogicalRecord>, r: LogicalRecord)
    requires Increasing(records)
    ensures Increasing(records + [r]) <==> Continues(records, r)
  {
    var more := records + [r];
    assert records != [] ==> more[|records| - 1] == records[|records| - 1];
    assert more[|records|] == r;
  }

  lemma IncreasingPrefix(records: seq<LogicalRecord>, more: seq<LogicalRecord>)
    ensures Increasing(records + more) ==> Increasing(records)
  {
    forall i | 0 < i < |records| && Increasing(records + more)
      ensures TextOrder.Precedes(records[i - 1].logicalId, records[i].logicalId)
    {
      assert (records + more)[i] == records[i] && (records + more)[i - 1] == records[i - 1];
    }
  }

  /** The figures an export keeps while it writes one partition. */
  class PartitionWriter {
    const artifacts: InMemoryLogicalArtifacts
    const handle: nat
    var hashed: string
    var count: nat
    var minimum: Option<string>
    var maximum: Option<string>
    var previous: Option<string>
    ghost var written: seq<LogicalRecord>

    constructor (artifacts: InMemoryLogicalArtifacts, handle: nat)
      requires handle in artifacts.pending && artifacts.pending[handle] == ""
      ensures Valid() && written == [] && this.artifacts == artifacts && this.handle == handle
    {
      this.artifacts, this.handle := artifacts, handle;
      hashed, count, minimum, maximum, previous, written := "", 0, None, None, None, [];
    }

    ghost predicate Valid()
      reads this, artifacts
    {
      && handle in artifacts.pending && artifacts.pending[handle] == hashed == Text(written)
      && count == |written| && minimum == FirstId(written) && maximum == LastId(written) && previous == LastId(written)
      && Increasing(written) && (written != [] ==> written[0].logicalId != "")
    }

    /** One record: its id must exceed the previous one. */
    method WriteRecord(record: LogicalRecord) returns (ok: bool)
      requires Valid() && record.logicalId != ""
      modifies this, artifacts`pending
      ensures ok <==> Continues(old(written), record)
      ensures ok ==> Valid() && written == old(written) + [record]
      ensures artifacts.pending.Keys == old(artifacts.pending.Keys)
    {
      hide LogicalRecord.Line, Text, TextOrder.Less, TextOrder.Precedes;
      if previous.Some? { TextOrder.LessExactly(previous.value, record.logicalId); }
      if previous.Some? && !TextOrder.Less(previous.value, record.logicalId) { return false; }
      TextMore(written, record);
      IncreasingMore(written, record);
      previous := Some(record.logicalId);
      minimum := if minimum.Some? && minimum.value != "" then minimum else Some(record.logicalId);
      maximum := Some(record.logicalId);
      var chunk := record.Line() + "\n";
      artifacts.Write(handle, chunk);
      hashed := hashed + chunk;
      count := count + 1;
      written := written + [record];
      ok := true;
    }

    method WriteBatch(batch: seq<LogicalRecord>) returns (ok: bool)
      requires Valid() && forall r :: r in batch ==> r.logicalId != ""
      modifies this, artifacts`pending
      ensures ok <==> Increasing(old(written) + batch)
      ensures ok ==> Valid() && written == old(written) + batch
      ensures artifacts.pending.Keys == old(artifacts.pending.Keys)
    {
      hide Increasing, Continues, Text;
      ValidOrder();
      for i := 0 to |batch|
        invariant Valid() && written == old(written) + batch[..i]
        invariant artifacts.pending.Keys == old(artifacts.pending.Keys)
      {
        assert old(written) + batch[..i] + [batch[i]] == old(written) + batch[..i + 1];
        assert old(written) + batch == old(written) + batch[..i + 1] + batch[i + 1..];
        ValidOrder();
        IncreasingMore(written, batch[i]);
        IncreasingPrefix(old(written) + batch[..i + 1], batch[i + 1..]);
        ok := WriteRecord(batch[i]);
        if !ok { return false; }
      }
      assert batch[..|batch|] == batch;
      ValidOrder();
      ok := true;
    }

    lemma ValidOrder()
      requires Valid()
      ensures Increasing(written)
    {
    }
  }

  lemma ConcatStep(batches: seq<seq<LogicalRecord>>, k: nat) returns (rest: seq<LogicalRecord>)
    requires k < |batches|
    ensures LogicalImport.Concat(batches[..k + 1]) == LogicalImport.Concat(batches[..k]) + batches[k]
    ensures LogicalImport.Concat(batches) == LogicalImport.Concat(batches[..k + 1]) + rest
  {
    assert batches[..k + 1] == batches[..k] + [batches[k]];
    LogicalImport.ConcatMore(batches[..k], batches[k]);
    assert batches == batches[..k + 1] + batches[k + 1..];
    LogicalImport.ConcatJoin(batches[..k + 1], batches[k + 1..]);
    rest := LogicalImport.Concat(batches[k + 1..]);
  }

  lemma {:induction false} InConcat(batches: seq<seq<LogicalRecord>>, k: nat, r: LogicalRecord)
    requires k < |batches| && r in batches[k]
    ensures r in LogicalImport.Concat(batches)
  {
    var rest := ConcatStep(batches, k);
  }

  class LogicalExportCoordinator {
    const artifacts: InMemoryLogicalArtifacts
    const batchSize: nat

    constructor (artifacts: InMemoryLogicalArtifacts, batchSize: nat)
      ensures this.artifacts == artifacts && this.batchSize == batchSize
    {
      this.artifacts, this.batchSize := artifacts, batchSize;
    }

    /** One partition: every record of every batch becomes one canonical line. */
    method ExportPartition(partitionId: string, batches: seq<seq<LogicalRecord>>, cancelled: nat -> bool)
      returns (result: Result<PartitionManifest, ExportError>)
      requires forall r :: r in LogicalImport.Concat(batches) ==> r.logicalId != ""
      modifies artifacts
      ensures result.Ok? ==> result.value == ManifestOf(partitionId, LogicalImport.Concat(batches))
      ensures result.Ok? ==>
        artifacts.artifacts == old(artifacts.artifacts)[result.value.artifactRef := Text(LogicalImport.Concat(batches))]
      ensures result.Ok? ==> AcceptablePartition(partitionId, batches, batchSize)
      ensures result == Err(Invalid) ==> !AcceptablePartition(partitionId, batches, batchSize)
      ensures result == Err(Cancelled) ==> exists n: nat :: n <= |batches| && cancelled(n)
      ensures result.Ok? ==> forall n: nat :: n <= |batches| ==> !cancelled(n)
    {
      hide LogicalImport.Concat, Increasing, Text, PartitionWriter.Valid;
      if cancelled(0) { return Err(Cancelled); }
      var handle := artifacts.BeginPartition();
      var writer := new PartitionWriter(artifacts, handle);
      LogicalImport.NothingBatched();
      NothingConcatenated();
      for k := 0 to |batches|
        invariant writer.Valid() && writer.written == LogicalImport.Concat(batches[..k])
        invariant SmallBatches(batches[..k], batchSize) && artifacts.artifacts == old(artifacts.artifacts)
        invariant forall n: nat :: n <= k ==> !cancelled(n)
      {
        assert batches[k] in batches;
        if |batches[k]| > batchSize { return Err(Invalid); }
        if cancelled(k + 1) { return Err(Cancelled); }
        forall r | r in batches[k] ensures r.logicalId != "" {
          InConcat(batches, k, r);
        }
        ghost var rest := ConcatStep(batches, k);
        IncreasingPrefix(LogicalImport.Concat(batches[..k + 1]), rest);
        var ok := writer.WriteBatch(batches[k]);
        if !ok { return Err(Invalid); }
        assert batches[..k + 1] == batches[..k] + [batches[k]];
      }
      assert batches[..|batches|] == batches;
      result := Describe(writer, partitionId);
    }

    /** Close the artifact and describe it. */
    method Describe(writer: PartitionWriter, partitionId: string)
      returns (result: Result<PartitionManifest, ExportError>)
      requires writer.Valid() && writer.artifacts == artifacts
      modifies artifacts
      ensures Increasing(writer.written)
      ensures result.Ok? <==> partitionId != ""
      ensures result.Ok? ==> result.value == ManifestOf(partitionId, writer.written)
      ensures result.Ok? ==>
        artifacts.artifacts == old(artifacts.artifacts)[result.value.artifactRef := Text(writer.written)]
      ensures result.Err? ==> result.error == Invalid
    {
      hide Text;
      var reference := artifacts.FinishPartition(writer.handle, partitionId);
      if partitionId == "" { return Err(Invalid); }
      result := Ok(PartitionManifest(partitionId, reference, writer.count, |writer.hashed|, writer.minimum,
                                     writer.maximum,
                                     Sha256(writer.hashed)));
    }

    /**
     * Export every partition; the manifest describes exactly what the source held, and the artifacts hold exactly that.
     */
    method Export(source: Source, exportId: string, ghost catalogs: set<string>)
      returns (result: Result<seq<PartitionManifest>, ExportError>)
      requires source.Valid(catalogs)
      modifies artifacts
      ensures result.Ok? ==>
        Acceptable(source, batchSize, exportId) && result.value == Manifests(source, |source.partitionIds|)
      ensures result.Ok? ==> Stored(artifacts.artifacts, source, |source.partitionIds|)
      ensures result == Err(Cancelled) ==> source.Cancels(|source.partitionIds|)
      ensures result == Err(Invalid) ==> !Acceptable(source, batchSize, exportId)
      ensures result.Ok? ==> !source.Cancels(|source.partitionIds|)
    {
      hide LogicalImport.Concat, Increasing, Text, SmallBatches;
      if !Distinct(source.partitionIds) { return Err(Invalid); }
      var manifests: seq<PartitionManifest> := [];
      for i := 0 to |source.partitionIds|
        invariant manifests == Manifests(source, i) && Stored(artifacts.artifacts, source, i) && !source.Cancels(i)
        invariant forall j :: 0 <= j < i ==> AcceptablePartition(source.partitionIds[j], source.batches(j), batchSize)
      {
        RecordsHaveIds(source, catalogs, i);
        var cancelled := (n: nat) => source.cancelled(i, n);
        var one := ExportPartition(source.partitionIds[i], source.batches(i), cancelled);
        assert forall n: nat :: cancelled(n) == source.cancelled(i, n);
        if one.Err? { return Err(one.error); }
        manifests := manifests + [one.value];
      }
      if source.closing.boundaryId != source.opening.boundaryId { return Err(Invalid); }
      if source.closing.startWatermark != source.opening.startWatermark || exportId == "" { return Err(Invalid); }
      result := Ok(manifests);
    }
  }

  lemma NothingConcatenated()
    ensures LogicalImport.Concat([]) == []
  {
  }

  // ---------------------------------------------------------- round trip

  /** The chunks of every partition an export describes. */
  function Chunked(artifacts: map<ArtifactRef, string>, manifests: seq<PartitionManifest>): seq<seq<string>>
  {
    seq(|manifests|, (i: nat) => if i < |manifests| then ChunksOf(artifacts, manifests[i].artifactRef) else [])
  }

  /** An import supplied with these chunks of each partition, the same on both passes. */
  function SupplyFrom(parts: seq<seq<string>>): LogicalImport.Supply
  {
    LogicalImport.Supply((pass: nat, i: nat) => if i < |parts| then parts[i] else [], false, (pass, i, n) => false)
  }

  /** Fetch the artifact of every manifest. */
  method Fetch(artifacts: InMemoryLogicalArtifacts, manifests: seq<PartitionManifest>) returns (parts: seq<seq<string>>)
    requires Present(artifacts.artifacts, manifests)
    ensures parts == Chunked(artifacts.artifacts, manifests)
  {
    parts := [];
    for i := 0 to |manifests|
      invariant parts == Chunked(artifacts.artifacts, manifests)[..i]
    {
      var chunks := artifacts.Chunks(manifests[i].artifactRef);
      parts := parts + [chunks];
    }
  }

  ghost predicate Present(artifacts: map<ArtifactRef, string>, manifests: seq<PartitionManifest>)
  {
    forall i :: 0 <= i < |manifests| ==> manifests[i].artifactRef in artifacts
  }

  /** All records of the first `k` partitions, in partition order, each with its dictionaries in key order. */
  ghost function ExportedRecords(source: Source, k: nat): seq<LogicalRecord>
  {
    if k == 0 then [] else ExportedRecords(source, k - 1) + Normals(source.Records(k - 1))
  }

  ghost predicate ShortEnough(limits: Limits, source: Source)
  {
    forall i: nat, r :: i < |source.partitionIds| && r in source.Records(i) ==> |r.Line()| <= limits.maximum
  }

  lemma OneChunk(artifacts: map<ArtifactRef, string>, reference: ArtifactRef)
    requires reference in artifacts
    ensures LogicalImport.Flatten(ChunksOf(artifacts, reference)) == artifacts[reference]
  {
    assert [artifacts[reference]][..0] == [];
  }

  lemma StoredArePresent(artifacts: map<ArtifactRef, string>, source: Source)
    requires Stored(artifacts, source, |source.partitionIds|)
    ensures Present(artifacts, Manifests(source, |source.partitionIds|))
  {
    hide Text;
  }

  /** Each partition an export stored is one an import accepts, and reads as the source's own records. */
  lemma StoredHolds(limits: Limits, source: Source, size: nat, exportId: string, artifacts: map<ArtifactRef, string>,
                    i: nat)
    requires source.Valid(limits.catalogs) && ShortEnough(limits, source) && Acceptable(source, size, exportId)
    requires Stored(artifacts, source, |source.partitionIds|) && i < |source.partitionIds|
    ensures var supply := SupplyFrom(Chunked(artifacts, Manifests(source, |source.partitionIds|)));
      && (forall pass: nat :: supply.Content(pass, i) == Text(source.Records(i)))
      && Holds(limits, ManifestOf(source.partitionIds[i], source.Records(i)), Text(source.Records(i)))
      && LogicalImport.RecordsIn(limits, supply, i) == Normals(source.Records(i))
  {
    hide Text, ChunksOf, Holds, Lines, Tail, Read, Increasing, LogicalImport.Concat, LogicalImport.Flatten,
      LogicalRecord.Valid;
    var records := source.Records(i);
    OneChunk(artifacts, ManifestOf(source.partitionIds[i], records).artifactRef);
    forall n | 0 <= n < |records| ensures records[n].Valid(limits.catalogs) && |records[n].Line()| <= limits.maximum {
      assert records[n] in source.Records(i);
    }
    assert AcceptablePartition(source.partitionIds[i], source.batches(i), size);
    ExportHolds(limits, source.partitionIds[i], records);
    TextReadsBack(limits, records);
  }

  lemma {:induction false} AllExported(limits: Limits, source: Source, size: nat, exportId: string,
                                       artifacts: map<ArtifactRef, string>, k: nat)
    requires source.Valid(limits.catalogs) && ShortEnough(limits, source) && Acceptable(source, size, exportId)
    requires Stored(artifacts, source, |source.partitionIds|) && k <= |source.partitionIds|
    ensures var supply := SupplyFrom(Chunked(artifacts, Manifests(source, |source.partitionIds|)));
      LogicalImport.AllRecords(limits, supply, k) == ExportedRecords(source, k)
  {
    hide LogicalImport.RecordsIn, Stored, Acceptable, ShortEnough, SupplyFrom, Manifests, Source.Valid, Chunked,
      Normals, Text, Holds, ManifestOf;
    if k > 0 {
      AllExported(limits, source, size, exportId, artifacts, k - 1);
      StoredHolds(limits, source, size, exportId, artifacts, k - 1);
    }
  }

  lemma ExportIsImportable(limits: Limits, source: Source, size: nat, exportId: string, artifacts: map<ArtifactRef,
                           string>)
    requires source.Valid(limits.catalogs) && ShortEnough(limits, source) && Acceptable(source, size, exportId)
    requires Stored(artifacts, source, |source.partitionIds|)
    ensures var manifests := Manifests(source, |source.partitionIds|);
      var supply := SupplyFrom(Chunked(artifacts, manifests));
      && Present(artifacts, manifests) && !supply.Cancels(|manifests|)
      && LogicalImport.AllHold(limits, manifests, supply, 0) && LogicalImport.AllHold(limits, manifests, supply, 1)
      && LogicalImport.AllRecords(limits, supply, |manifests|) == ExportedRecords(source, |manifests|)
  {
    hide Stored, Acceptable, ShortEnough, Source.Valid, Holds, ManifestOf;
    StoredArePresent(artifacts, source);
    var manifests := Manifests(source, |source.partitionIds|);
    var supply := SupplyFrom(Chunked(artifacts, manifests));
    AllExported(limits, source, size, exportId, artifacts, |source.partitionIds|);
    forall i | 0 <= i < |manifests|
      ensures Holds(limits, manifests[i], supply.Content(0, i)) && Holds(limits, manifests[i], supply.Content(1, i))
    {
      StoredHolds(limits, source, size, exportId, artifacts, i);
    }
  }

  /**
   * Partition by partition the target received the exported records, in batches of which only the last may be short,
   * and the objects they refer to.
   */
  ghost predicate Arrived(mode: LogicalImport.Mode, source: Source, parts: seq<seq<LogicalImport.TargetCall>>)
  {
    && |parts| == |source.partitionIds|
    && forall i :: 0 <= i < |parts| ==> LogicalImport.Handed(mode, parts[i], Normals(source.Records(i)))
  }

  lemma PassedMeansArrived(limits: Limits, source: Source, size: nat, exportId: string,
                           artifacts: map<ArtifactRef, string>, mode: LogicalImport.Mode,
                           parts: seq<seq<LogicalImport.TargetCall>>)
    requires source.Valid(limits.catalogs) && ShortEnough(limits, source) && Acceptable(source, size, exportId)
    requires Stored(artifacts, source, |source.partitionIds|) && |parts| == |source.partitionIds|
    requires LogicalImport.Passed(
               limits, mode, SupplyFrom(Chunked(artifacts, Manifests(source, |source.partitionIds|))), parts)
    ensures Arrived(mode, source, parts)
  {
    hide Stored, Acceptable, ShortEnough, Source.Valid, Manifests, SupplyFrom, Chunked, LogicalImport.Handed;
    forall i | 0 <= i < |parts| ensures LogicalImport.Handed(mode, parts[i], Normals(source.Records(i))) {
      StoredHolds(limits, source, size, exportId, artifacts, i);
    }
  }

  /**
   * Export, then import from the artifacts that were written: unless a call of the target fails, the import succeeds
   * and the target receives, batch by batch and in partition order, exactly the exported records.
   */
  method ExportAndImport(exporter: LogicalExportCoordinator, importer: LogicalImport.LogicalImportCoordinator,
                         source: Source, exportId: string, importBatch: int)
    returns (exported: Result<seq<PartitionManifest>, ExportError>,
             imported: Result<seq<LogicalImport.PartitionImportResult>, LogicalImport.ImportError>,
             ghost parts: seq<seq<LogicalImport.TargetCall>>)
    requires source.Valid(importer.limits.catalogs) && ShortEnough(importer.limits, source)
    requires 1 <= importBatch <= 10000
    modifies exporter.artifacts, importer.target
    ensures exported.Ok? ==> imported == if importer.target.Served(|old(importer.target.calls)|)
      then Ok(LogicalImport.ResultsOf(exported.value)) else Err(LogicalImport.TargetFailed)
    ensures exported.Ok? && imported.Ok? ==>
      importer.target.calls == old(importer.target.calls)
        + [LogicalImport.Preflight] + LogicalImport.Joined(parts) + [LogicalImport.Finalize]
    ensures exported.Ok? && imported.Ok? ==>
      Arrived(LogicalImport.Mode(true, importer.transfersObjects, importBatch), source, parts)
    ensures exported.Ok? && imported.Ok? ==>
      LogicalImport.Concat(LogicalImport.Batches(importer.target.calls[|old(importer.target.calls)|..]))
      == ExportedRecords(source, |source.partitionIds|)
    ensures exported.Err? ==> importer.target.calls == old(importer.target.calls)
  {
    hide Stored, Acceptable, ShortEnough, Source.Valid, Holds, Manifests, SupplyFrom, Chunked, Present, Arrived,
      LogicalImport.AllHold, LogicalImport.Passed, LogicalImport.Concat, LogicalImport.Batches, LogicalImport.Joined,
      LogicalImport.ResultsOf, LogicalImport.AllRecords, ExportedRecords, LogicalImport.Supply.Cancels,
      LogicalImport.Supply.Repeatable;
    imported, parts := Err(LogicalImport.Cancelled), [];
    exported := exporter.Export(source, exportId, importer.limits.catalogs);
    if exported.Err? { return; }
    ExportIsImportable(importer.limits, source, exporter.batchSize, exportId, exporter.artifacts.artifacts);
    var chunks := Fetch(exporter.artifacts, exported.value);
    var supply := SupplyFrom(chunks);
    imported, parts := importer.Import(exported.value, importBatch, supply);
    if imported.Err? { return; }
    ghost var mode := LogicalImport.Mode(true, importer.transfersObjects, importBatch);
    LogicalImport.Received(importer.limits, mode, supply, old(importer.target.calls), importer.target.calls, parts);
    PassedMeansArrived(importer.limits, source, exporter.batchSize, exportId, exporter.artifacts.artifacts, mode,
                       parts);
  }
}
