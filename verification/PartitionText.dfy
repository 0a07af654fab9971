/** The bytes of a partition: splitting into lines, what a whole partition must be, and why chunking does not matter. */
module PartitionText {
  import opened Wrappers
  import opened PortabilityModel
  import TextOrder
  import JsonText
  import CanonicalJson

  /** What the coordinators are set up with: the catalog names of Meridian Core and `maximum_record_bytes`. */
  datatype Limits = Limits(catalogs: set<string>, maximum: nat)

  // --------------------------------------------------------- the simple form

  /** The complete lines of a text: everything before each newline, empty lines included. */
  function Lines(text: string): seq<string>
  {
    if text == "" then []
    else if text[0] == '\n' then [""] + Lines(text[1..])
    else
      var rest := Lines(text[1..]);
      if rest == [] then [] else [[text[0]] + rest[0]] + rest[1..]
  }

  /** What comes after the last newline. */
  function Tail(text: string): string
  {
    if text == "" then ""
    else if text[0] == '\n' then Tail(text[1..])
    else if Lines(text[1..]) == [] then text else Tail(text[1..])
  }

  ghost predicate Continues(records: seq<LogicalRecord>, r: LogicalRecord)
  {
    records == [] || TextOrder.Precedes(records[|records| - 1].logicalId, r.logicalId)
  }

  /** Read every non-empty line as a record; the ids must increase strictly. */
  ghost function Read(limits: Limits, lines: seq<string>): Option<seq<LogicalRecord>>
  {
    if lines == [] then Some([])
    else
      var before, line := Read(limits, lines[..|lines| - 1]), lines[|lines| - 1];
      if before.None? || line == "" then before
      else
        var r := ReadLine(limits.catalogs, limits.maximum, line);
        if r.None? || !Continues(before.value, r.value) then None else Some(before.value + [r.value])
  }

  /** SHA-256, taken as injective. */
  datatype Digest = Sha256(content: string)

  datatype ArtifactRef = ArtifactRef(partitionId: string, digest: Digest)

  datatype PartitionManifest = PartitionManifest(
    partitionId: string, artifactRef: ArtifactRef, count: nat, bytes: nat,
    minimumLogicalId: Option<string>, maximumLogicalId: Option<string>, sha256: Digest)

  function FirstId(records: seq<LogicalRecord>): Option<string>
  {
    if records == [] then None else Some(records[0].logicalId)
  }

  function LastId(records: seq<LogicalRecord>): Option<string>
  {
    if records == [] then None else Some(records[|records| - 1].logicalId)
  }

  /** Everything a manifest says about its partition. */
  predicate Describes(manifest: PartitionManifest, content: string, records: seq<LogicalRecord>)
  {
    && manifest.count == |records| && manifest.bytes == |content|
    && manifest.minimumLogicalId == FirstId(records) && manifest.maximumLogicalId == LastId(records)
    && manifest.sha256 == Sha256(content)
  }

  /** The whole specification of a partition: complete lines, readable in order, described by the manifest. */
  ghost predicate Holds(limits: Limits, manifest: PartitionManifest, content: string)
  {
    && Tail(content) == "" && Read(limits, Lines(content)).Some?
    && Describes(manifest, content, Read(limits, Lines(content)).value)
  }

  // ------------------------------------------------------- line structure

  predicate HasNewline(text: string) { '\n' in text }

  lemma {:induction false} NoNewline(text: string)
    ensures !HasNewline(text) <==> Lines(text) == []
    ensures !HasNewline(text) ==> Tail(text) == text
  {
    if text != "" {
      NoNewline(text[1..]);
      assert text == [text[0]] + text[1..];
    }
  }

  /** `partition(b"\n")`: the first line and what is left. */
  lemma {:induction false} FirstLine(line: string, rest: string)
    requires !HasNewline(line)
    ensures Lines(line + "\n" + rest) == [line] + Lines(rest)
    ensures Tail(line + "\n" + rest) == Tail(rest)
  {
    var text := line + "\n" + rest;
    if line == "" {
      assert text[1..] == rest;
    } else {
      assert text[1..] == line[1..] + "\n" + rest;
      FirstLine(line[1..], rest);
      assert [line[0]] + line[1..] == line;
    }
  }

  lemma LinesStep(text: string)
    requires text != ""
    ensures text[0] == '\n' ==> Lines(text) == [""] + Lines(text[1..]) && Tail(text) == Tail(text[1..])
    ensures text[0] != '\n' && Lines(text[1..]) != [] ==>
      Lines(text) == [[text[0]] + Lines(text[1..])[0]] + Lines(text[1..])[1..] && Tail(text) == Tail(text[1..])
  {
  }

  /** Splitting goes on where it stopped: cut anywhere, the unfinished line is carried over. */
  lemma {:induction false} SplitAnywhere(a: string, b: string)
    ensures Lines(a + b) == Lines(a) + Lines(Tail(a) + b)
    ensures Tail(a + b) == Tail(Tail(a) + b)
  {
    hide Lines, Tail;
    NoNewline(a);
    if HasNewline(a) {
      assert (a + b)[1..] == a[1..] + b;
      LinesStep(a);
      LinesStep(a + b);
      SplitAnywhere(a[1..], b);
      NoNewline(a[1..]);
      assert a == [a[0]] + a[1..];
      if a[0] != '\n' {
        var head, more := Lines(a[1..]), Lines(Tail(a[1..]) + b);
        assert (head + more)[1..] == head[1..] + more;
      }
    }
  }

  lemma {:induction false} ReadPrefix(limits: Limits, lines: seq<string>, k: nat)
    requires k <= |lines| && Read(limits, lines).Some?
    ensures Read(limits, lines[..k]).Some?
    decreases |lines|
  {
    if k == |lines| {
      assert lines[..k] == lines;
    } else {
      assert lines[..|lines| - 1][..k] == lines[..k];
      ReadPrefix(limits, lines[..|lines| - 1], k);
    }
  }

  lemma ReadMore(limits: Limits, lines: seq<string>, line: string)
    ensures var before := Read(limits, lines);
      Read(limits, lines + [line]) ==
        if before.None? || line == "" then before
        else
          var r := ReadLine(limits.catalogs, limits.maximum, line);
          if r.None? || !Continues(before.value, r.value) then None else Some(before.value + [r.value])
  {
    hide ReadLine;
    assert (lines + [line])[..|lines|] == lines;
  }

  lemma ReadLineIsShort(limits: Limits, line: string)
    requires ReadLine(limits.catalogs, limits.maximum, line).Some?
    ensures |line| <= limits.maximum
  {
  }

  lemma ReadIsShort(limits: Limits, lines: seq<string>, k: nat)
    requires k < |lines| && Read(limits, lines).Some?
    ensures |lines[k]| <= limits.maximum
  {
    hide Read, ReadLine;
    ReadPrefix(limits, lines, k + 1);
    assert lines[..k + 1] == lines[..k] + [lines[k]];
    ReadMore(limits, lines[..k], lines[k]);
    if lines[k] != "" && Read(limits, lines[..k]).Some? { ReadLineIsShort(limits, lines[k]); }
  }

  /** The early check on an unfinished line never changes the verdict: such a text cannot become acceptable. */
  lemma OversizedIsHopeless(limits: Limits, text: string, more: string)
    requires |Tail(text)| > limits.maximum
    ensures Tail(text + more) != "" || Read(limits, Lines(text + more)).None?
  {
    hide Read, Lines, Tail;
    SplitAnywhere(text, more);
    TailHasNoNewline(text);
    var rest := Tail(text) + more;
    if HasNewline(more) {
      var i := FirstNewline(more);
      assert rest == (Tail(text) + more[..i]) + "\n" + more[i + 1..];
      FirstLine(Tail(text) + more[..i], more[i + 1..]);
      var lines := Lines(text + more);
      assert lines[|Lines(text)|] == Tail(text) + more[..i];
      if Read(limits, lines).Some? { ReadIsShort(limits, lines, |Lines(text)|); }
    } else {
      NoNewline(rest);
    }
  }

  function FirstNewline(text: string): (i: nat)
    requires HasNewline(text)
    ensures i < |text| && text[i] == '\n' && !HasNewline(text[..i])
  {
    if text[0] == '\n' then 0 else 1 + FirstNewline(text[1..])
  }

  lemma {:induction false} TailHasNoNewline(text: string)
    ensures !HasNewline(Tail(text))
  {
    NoNewline(text);
    if text != "" { TailHasNoNewline(text[1..]); }
  }

  // ----------------------------------------------- what an export writes

  function Text(records: seq<LogicalRecord>): string
  {
    if records == [] then "" else Text(records[..|records| - 1]) + (records[|records| - 1].Line() + "\n")
  }

  function ManifestOf(partitionId: string, records: seq<LogicalRecord>): PartitionManifest
  {
    var digest := Sha256(Text(records));
    PartitionManifest(partitionId, ArtifactRef(partitionId, digest), |records|, |Text(records)|, FirstId(records),
                      LastId(records), digest)
  }

  function Normals(records: seq<LogicalRecord>): seq<LogicalRecord>
  {
    seq(|records|, i requires 0 <= i < |records| => records[i].Normal())
  }

  ghost predicate Increasing(records: seq<LogicalRecord>)
  {
    forall i :: 0 < i < |records| ==> TextOrder.Precedes(records[i - 1].logicalId, records[i].logicalId)
  }

  ghost predicate Exportable(limits: Limits, records: seq<LogicalRecord>)
  {
    && Increasing(records)
    && forall i :: 0 <= i < |records| ==> records[i].Valid(limits.catalogs) && |records[i].Line()| <= limits.maximum
  }

  lemma LineIsOneLine(r: LogicalRecord)
    ensures !HasNewline(r.Line()) && r.Line() != ""
  {
    JsonText.CanonicalTextIsOneLine(CanonicalJson.Obj(r.ToMapping()));
  }

  lemma AppendLine(text: string, line: string)
    requires Tail(text) == "" && !HasNewline(line)
    ensures Lines(text + (line + "\n")) == Lines(text) + [line] && Tail(text + (line + "\n")) == ""
  {
    hide Lines, Tail;
    SplitAnywhere(text, line + "\n");
    assert "" + (line + "\n") == line + "\n" + "";
    FirstLine(line, "");
    NoNewline("");
  }

  /** What is written for strictly ordered records reads back as those records. */
  lemma {:induction false} TextReadsBack(limits: Limits, records: seq<LogicalRecord>)
    requires Exportable(limits, records)
    ensures Tail(Text(records)) == "" && Read(limits, Lines(Text(records))) == Some(Normals(records))
  {
    hide ReadLine, LogicalRecord.Line, LogicalRecord.Valid, Read, Lines, Tail;
    if records == [] {
      NoNewline("");
      ReadNothing(limits);
    } else {
      var init, r := records[..|records| - 1], records[|records| - 1];
      TextReadsBack(limits, init);
      LineIsOneLine(r);
      LineReadsBack(limits.catalogs, limits.maximum, r);
      AppendLine(Text(init), r.Line());
      ReadMore(limits, Lines(Text(init)), r.Line());
      assert Normals(records) == Normals(init) + [r.Normal()];
    }
  }

  lemma ReadNothing(limits: Limits)
    ensures Read(limits, []) == Some([])
  {
  }

  /** An exported partition meets the import's specification. */
  lemma ExportHolds(limits: Limits, partitionId: string, records: seq<LogicalRecord>)
    requires Exportable(limits, records)
    ensures Holds(limits, ManifestOf(partitionId, records), Text(records))
  {
    TextReadsBack(limits, records);
  }
}
