/** The version-addressed projection target: one row per source key and version, reduced before it is filtered. */
module VersionedTarget {
  import opened Wrappers
  import opened OutboxModel
  import Orders

  datatype SourceKey = SourceKey(projection: string, scope: string, source: Partition)

  datatype RowId = RowId(sourceKey: SourceKey, sourceVersion: int)

  datatype Row = Row(id: RowId, sourceKey: SourceKey, sourceVersion: int, deleted: bool, document: string)

  /** A projection, its pinned scope, and the host's loader of referenced payloads. */
  datatype Spec = Spec(
    projection: string, scope: string, sourceCatalog: string, source: string, sourceSchema: string,
    targetLabels: set<string>, load: (string, Version) -> Option<Document>)

  predicate Matches(spec: Spec, data: OutboxData)
  {
    && data.sourceCatalog == spec.sourceCatalog
    && data.sourceResource == spec.source
    && data.sourceSchema == spec.sourceSchema
    && (forall name :: name in spec.targetLabels ==> name in data.targetLabels)
  }

  function Resolve(spec: Spec, data: OutboxData): Option<Document>
  {
    match data.content
    case Payload(document) => Some(document)
    case Reference(reference) => spec.load(reference, data.sourceVersion)
  }

  function Key(spec: Spec, data: OutboxData): SourceKey
  {
    SourceKey(spec.projection, spec.scope, data.PartitionKey())
  }

  /** The row an event is projected to; `None` where the runner or the projector raises. */
  function Project(spec: Spec, data: OutboxData): Option<Row>
  {
    if !Matches(spec, data) || !data.sourceVersion.IntVersion? then None
    else
      match Resolve(spec, data)
      case None => None
      case Some(document) =>
        if document.deleted.NotBoolean? then None
        else
          var key, version := Key(spec, data), data.sourceVersion.number;
          Some(Row(RowId(key, version), key, version,
                   (document.deleted.Flag? && document.deleted.value) || data.mutationKind == "delete",
                   document.body))
  }

  /** The payload an event carries, or the one the host loads for its reference at its version. */
  ghost predicate Carries(spec: Spec, data: OutboxData, document: Document)
  {
    || data.content == Payload(document)
    || (data.content.Reference? && spec.load(data.content.reference, data.sourceVersion) == Some(document))
  }

  /** An event of the projection's source, schema and labels, with an integer version and a readable payload. */
  ghost predicate Projectable(spec: Spec, data: OutboxData, document: Document)
  {
    && data.sourceCatalog == spec.sourceCatalog && data.sourceResource == spec.source
    && data.sourceSchema == spec.sourceSchema && (set name | name in data.targetLabels) >= spec.targetLabels
    && data.sourceVersion.IntVersion? && Carries(spec, data, document) && !document.deleted.NotBoolean?
  }

  /** Which events become a row, and which row. */
  lemma ProjectExactly(spec: Spec, data: OutboxData)
    ensures Project(spec, data).Some? <==> exists document :: Projectable(spec, data, document)
    ensures forall document :: Projectable(spec, data, document) ==>
      var row := Project(spec, data).value;
      && row.document == document.body && row.sourceVersion == row.id.sourceVersion == data.sourceVersion.number
      && (row.deleted <==> document.deleted == Flag(true) || data.mutationKind == "delete")
  {
    if Project(spec, data).Some? { assert Projectable(spec, data, Resolve(spec, data).value); }
  }

  predicate SameVersion(d: OutboxData, e: OutboxData)
  {
    SameSource(d, e) && d.sourceVersion == e.sourceVersion
  }

  /** One payload per source identity and version: the purity the host must guarantee. */
  ghost predicate OnePayload(spec: Spec, history: seq<OutboxData>)
  {
    forall d, e :: d in history && e in history && SameVersion(d, e) ==>
      Resolve(spec, d) == Resolve(spec, e) && (d.mutationKind == "delete" <==> e.mutationKind == "delete")
  }

  /** A row is addressed by projection, scope, the three fields of the source, and the version. */
  lemma RowIdExactly(s: Spec, d: OutboxData, t: Spec, e: OutboxData)
    requires Project(s, d).Some? && Project(t, e).Some?
    ensures Project(s, d).value.id == Project(t, e).value.id
      <==> s.projection == t.projection && s.scope == t.scope && SameVersion(d, e)
    ensures Project(s, d).value.sourceKey == Project(t, e).value.sourceKey
      <==> s.projection == t.projection && s.scope == t.scope && SameSource(d, e)
  {
  }

  lemma SameIdSameRow(spec: Spec, history: seq<OutboxData>, d: OutboxData, e: OutboxData)
    requires OnePayload(spec, history) && d in history && e in history
    requires Project(spec, d).Some? && Project(spec, e).Some?
    requires Project(spec, d).value.id == Project(spec, e).value.id
    ensures Project(spec, d) == Project(spec, e)
  {
  }

  // ------------------------------------------------------- the reduction

  function Keep(latest: map<SourceKey, Row>, row: Row): map<SourceKey, Row>
  {
    if row.sourceKey !in latest || row.sourceVersion > latest[row.sourceKey].sourceVersion
    then latest[row.sourceKey := row] else latest
  }

  /** The highest version of every source key, in one pass over the rows. */
  function Latest(rows: seq<Row>): map<SourceKey, Row>
  {
    if rows == [] then map[] else Keep(Latest(rows[..|rows| - 1]), rows[|rows| - 1])
  }

  /** The reduction keeps, for every key of the rows, one row with the highest version. */
  lemma {:induction false} LatestIsNewest(rows: seq<Row>)
    ensures forall k :: k in Latest(rows) ==> Latest(rows)[k] in rows && Latest(rows)[k].sourceKey == k
    ensures forall r :: r in rows ==>
      r.sourceKey in Latest(rows) && r.sourceVersion <= Latest(rows)[r.sourceKey].sourceVersion
  {
    if rows != [] {
      var init, last := rows[..|rows| - 1], rows[|rows| - 1];
      LatestIsNewest(init);
      assert rows == init + [last];
    }
  }

  ghost predicate OneRowPerVersion(rows: seq<Row>)
  {
    forall p, q :: p in rows && q in rows && p.sourceKey == q.sourceKey && p.sourceVersion == q.sourceVersion ==> p == q
  }

  /** The reduction of a key depends only on the set of that key's rows: not on order, duplicates or other keys. */
  lemma LatestIgnoresOrder(rows: seq<Row>, others: seq<Row>, key: SourceKey)
    requires OneRowPerVersion(rows)
    requires forall r: Row :: r.sourceKey == key ==> (r in rows <==> r in others)
    ensures key in Latest(rows) <==> key in Latest(others)
    ensures key in Latest(rows) ==> Latest(rows)[key] == Latest(others)[key]
  {
    LatestIsNewest(rows);
    LatestIsNewest(others);
  }

  // ----------------------------------------------------- the visible view

  ghost function Filter(keys: seq<SourceKey>, latest: map<SourceKey, Row>, matches: Row -> bool): seq<Row>
    requires forall k :: k in keys ==> k in latest
  {
    if keys == [] then []
    else
      var init, row := Filter(keys[..|keys| - 1], latest, matches), latest[keys[|keys| - 1]];
      if !row.deleted && matches(row) then init + [row] else init
  }

  /** What a reader sees: per key the newest row, tombstones and then non-matching rows dropped, in key order. */
  ghost function Visible(latest: map<SourceKey, Row>, matches: Row -> bool,
                         before: (SourceKey, SourceKey) -> bool): seq<Row>
    requires Orders.StrictTotal(before)
  {
    Filter(Orders.Listing(latest.Keys, before), latest, matches)
  }

  lemma NothingRead(matches: Row -> bool)
    ensures Latest([]) == map[]
    ensures forall latest: map<SourceKey, Row> :: Filter([], latest, matches) == []
  {
  }

  lemma LatestStep(rows: seq<Row>, i: nat)
    requires i < |rows|
    ensures Latest(rows[..i + 1]) == Keep(Latest(rows[..i]), rows[i])
  {
    assert rows[..i + 1][..i] == rows[..i];
  }

  lemma FilterStep(keys: seq<SourceKey>, i: nat, latest: map<SourceKey, Row>, matches: Row -> bool)
    requires i < |keys| && forall k :: k in keys ==> k in latest
    ensures var row := latest[keys[i]];
      Filter(keys[..i + 1], latest, matches)
      == Filter(keys[..i], latest, matches) + if !row.deleted && matches(row) then [row] else []
  {
    assert keys[..i + 1][..i] == keys[..i];
  }

  method LatestVisible(rows: seq<Row>, matches: Row -> bool, before: (SourceKey, SourceKey) -> bool)
    returns (visible: seq<Row>)
    requires Orders.StrictTotal(before)
    ensures visible == Visible(Latest(rows), matches, before)
  {
    hide Latest, Filter, Orders.Sorted, Orders.StrictTotal, Orders.Listing;
    var latest: map<SourceKey, Row> := map[];
    NothingRead(matches);
    for i := 0 to |rows|
      invariant latest == Latest(rows[..i])
    {
      LatestStep(rows, i);
      var key := rows[i].sourceKey;
      if key !in latest || rows[i].sourceVersion > latest[key].sourceVersion {
        latest := latest[key := rows[i]];
      }
    }
    assert rows[..|rows|] == rows;
    var keys := Orders.Sort(latest.Keys, before);
    visible := [];
    for i := 0 to |keys|
      invariant visible == Filter(keys[..i], latest, matches)
    {
      FilterStep(keys, i, latest, matches);
      var row := latest[keys[i]];
      if !row.deleted && matches(row) { visible := visible + [row]; }
    }
    assert keys[..|keys|] == keys;
  }

  lemma {:induction false} FilterExactly(keys: seq<SourceKey>, latest: map<SourceKey, Row>, matches: Row -> bool,
                                         row: Row)
    requires forall k :: k in keys ==> k in latest
    ensures row in Filter(keys, latest, matches) <==>
      !row.deleted && matches(row) && exists k :: k in keys && latest[k] == row
  {
    if keys != [] {
      var init, last := keys[..|keys| - 1], keys[|keys| - 1];
      assert keys == init + [last];
      FilterExactly(init, latest, matches, row);
    }
  }

  predicate Shows(row: Row, matches: Row -> bool)
  {
    !row.deleted && matches(row)
  }

  /** The other order of steps: drop tombstones and non-matching rows before the reduction. */
  function Prefiltered(rows: seq<Row>, matches: Row -> bool): (r: seq<Row>)
    ensures forall row :: row in r <==> row in rows && Shows(row, matches)
  {
    if rows == [] then []
    else
      var init, last := rows[..|rows| - 1], rows[|rows| - 1];
      assert rows == init + [last];
      Prefiltered(init, matches) + if Shows(last, matches) then [last] else []
  }

  /** A reader sees a row exactly when it is the one kept for its key and it shows. */
  lemma SeenExactly(latest: map<SourceKey, Row>, matches: Row -> bool, before: (SourceKey, SourceKey) -> bool, row: Row)
    requires Orders.StrictTotal(before) && forall k :: k in latest ==> latest[k].sourceKey == k
    ensures row in Visible(latest, matches, before) <==>
      row.sourceKey in latest && latest[row.sourceKey] == row && Shows(row, matches)
  {
    hide Filter, Orders.Sorted;
    FilterExactly(Orders.Listing(latest.Keys, before), latest, matches, row);
  }

  /** Readers of one key see the same in both orders of the steps. */
  ghost predicate SameView(rows: seq<Row>, matches: Row -> bool, before: (SourceKey, SourceKey) -> bool, key: SourceKey)
    requires Orders.StrictTotal(before)
  {
    forall row: Row :: row.sourceKey == key ==>
      (row in Visible(Latest(Prefiltered(rows, matches)), matches, before)
       <==> row in Visible(Latest(rows), matches, before))
  }

  /** Filtering first makes a difference exactly for a key whose newest row does not show while an older one does. */
  lemma FilteringFirstExactly(rows: seq<Row>, matches: Row -> bool, before: (SourceKey, SourceKey) -> bool,
                              key: SourceKey)
    requires OneRowPerVersion(rows) && Orders.StrictTotal(before)
    ensures SameView(rows, matches, before, key) <==>
      !(&& key in Latest(rows) && !Shows(Latest(rows)[key], matches)
        && exists live :: live in rows && live.sourceKey == key && Shows(live, matches))
  {
    hide Latest, Visible, Orders.StrictTotal, Prefiltered;
    var early := Prefiltered(rows, matches);
    LatestIsNewest(rows);
    LatestIsNewest(early);
    if key in Latest(early) {
      SeenExactly(Latest(early), matches, before, Latest(early)[key]);
      SeenExactly(Latest(rows), matches, before, Latest(early)[key]);
    }
    forall row: Row | row.sourceKey == key
      ensures row in Visible(Latest(early), matches, before) <==> key in Latest(early) && Latest(early)[key] == row
      ensures row in Visible(Latest(rows), matches, before) <==>
        key in Latest(rows) && Latest(rows)[key] == row && Shows(row, matches)
    {
      SeenExactly(Latest(early), matches, before, row);
      SeenExactly(Latest(rows), matches, before, row);
    }
  }

  /** Filtering before the reduction resurrects an older row of a key that a newer tombstone hides. */
  lemma FilteringFirstResurrects(rows: seq<Row>, matches: Row -> bool, before: (SourceKey, SourceKey) -> bool,
                                 live: Row)
    requires Orders.StrictTotal(before) && live in rows && Shows(live, matches)
    requires live.sourceKey in Latest(rows) && Latest(rows)[live.sourceKey].deleted
    ensures forall row :: row in Visible(Latest(rows), matches, before) ==> row.sourceKey != live.sourceKey
    ensures exists row :: row in rows && row.sourceKey == live.sourceKey
                          && row in Visible(Latest(Prefiltered(rows, matches)), matches, before)
  {
    hide Latest, Visible, Orders.StrictTotal, Prefiltered;
    var early := Prefiltered(rows, matches);
    LatestIsNewest(rows);
    LatestIsNewest(early);
    SeenExactly(Latest(early), matches, before, Latest(early)[live.sourceKey]);
    forall row | row in Visible(Latest(rows), matches, before) ensures row.sourceKey != live.sourceKey {
      SeenExactly(Latest(rows), matches, before, row);
    }
  }

  // ------------------------------------------------- the reference: the fold of the source history

  /** One source mutation applied to the source's own current state; an older version changes nothing. */
  function Apply(spec: Spec, state: map<SourceKey, Row>, data: OutboxData): map<SourceKey, Row>
  {
    match Project(spec, data)
    case None => state
    case Some(row) =>
      if row.sourceKey in state && state[row.sourceKey].sourceVersion > row.sourceVersion then state
      else state[row.sourceKey := row]
  }

  /** The state of the source after its history. */
  function Fold(spec: Spec, history: seq<OutboxData>): map<SourceKey, Row>
  {
    if history == [] then map[] else Apply(spec, Fold(spec, history[..|history| - 1]), history[|history| - 1])
  }

  ghost predicate ImageOf(spec: Spec, history: seq<OutboxData>, row: Row)
  {
    exists d :: d in history && Project(spec, d) == Some(row)
  }

  /** The fold holds, for every key of the history, an image with the highest version. */
  lemma {:induction false} FoldIsNewest(spec: Spec, history: seq<OutboxData>)
    ensures forall k :: k in Fold(spec, history) ==>
      Fold(spec, history)[k].sourceKey == k && ImageOf(spec, history, Fold(spec, history)[k])
    ensures forall row :: ImageOf(spec, history, row) ==>
      row.sourceKey in Fold(spec, history) && row.sourceVersion <= Fold(spec, history)[row.sourceKey].sourceVersion
  {
    if history != [] {
      var init, last := history[..|history| - 1], history[|history| - 1];
      FoldIsNewest(spec, init);
      assert history == init + [last] && last in history;
      forall k | k in Fold(spec, history)
        ensures Fold(spec, history)[k].sourceKey == k && ImageOf(spec, history, Fold(spec, history)[k])
      {
        if k in Fold(spec, init) && Fold(spec, history)[k] == Fold(spec, init)[k] {
          var d :| d in init && Project(spec, d) == Some(Fold(spec, init)[k]);
          assert d in history;
        } else {
          assert Project(spec, last) == Some(Fold(spec, history)[k]);
        }
      }
      forall row | ImageOf(spec, history, row)
        ensures row.sourceKey in Fold(spec, history)
        ensures row.sourceVersion <= Fold(spec, history)[row.sourceKey].sourceVersion
      {
        var d :| d in history && Project(spec, d) == Some(row);
        if d in init { assert ImageOf(spec, init, row); }
      }
    }
  }

  /** With one payload per version, the order in which events entered the history does not matter. */
  lemma FoldIgnoresOrder(spec: Spec, history: seq<OutboxData>, other: seq<OutboxData>)
    requires OnePayload(spec, history) && forall d :: d in history <==> d in other
    ensures Fold(spec, history) == Fold(spec, other)
  {
    hide Project, Fold, Resolve;
    FoldIsNewest(spec, history);
    FoldIsNewest(spec, other);
    var fold, again := Fold(spec, history), Fold(spec, other);
    forall row ensures ImageOf(spec, history, row) <==> ImageOf(spec, other, row) {}
    forall k | k in fold ensures k in again && again[k] == fold[k] {
      var d :| d in history && Project(spec, d) == Some(fold[k]);
      var e :| e in other && Project(spec, e) == Some(again[k]);
      SameVersionSameRow(spec, history, d, e);
    }
    assert forall k :: k in again ==> ImageOf(spec, history, again[k]);
  }

  lemma SameVersionSameRow(spec: Spec, history: seq<OutboxData>, d: OutboxData, e: OutboxData)
    requires OnePayload(spec, history) && d in history && e in history
    requires Project(spec, d).Some? && Project(spec, e).Some?
    requires Project(spec, d).value.sourceKey == Project(spec, e).value.sourceKey
    requires Project(spec, d).value.sourceVersion == Project(spec, e).value.sourceVersion
    ensures Project(spec, d) == Project(spec, e)
  {
    SameIdSameRow(spec, history, d, e);
  }

  /** Rows that are exactly the images of a key's events reduce to the fold of the history at that key. */
  lemma ReductionIsFold(spec: Spec, history: seq<OutboxData>, rows: seq<Row>, key: SourceKey)
    requires OnePayload(spec, history)
    requires forall r :: r in rows ==> ImageOf(spec, history, r)
    requires forall r: Row :: r.sourceKey == key && ImageOf(spec, history, r) ==> r in rows
    ensures key in Latest(rows) <==> key in Fold(spec, history)
    ensures key in Latest(rows) ==> Latest(rows)[key] == Fold(spec, history)[key]
  {
    LatestIsNewest(rows);
    FoldIsNewest(spec, history);
    var fold := Fold(spec, history);
    if key in fold {
      assert fold[key] in rows;
    }
    if key in Latest(rows) {
      var newest := Latest(rows)[key];
      assert newest in rows && ImageOf(spec, history, newest);
      var d :| d in history && Project(spec, d) == Some(newest);
      var e :| e in history && Project(spec, e) == Some(fold[key]);
      SameIdSameRow(spec, history, d, e);
    }
  }

  /** A deletion, by its kind or by the payload's own flag. */
  predicate Removes(spec: Spec, data: OutboxData)
  {
    data.mutationKind == "delete" || (Resolve(spec, data).Some? && Resolve(spec, data).value.deleted == Flag(true))
  }

  /**
   * The newest event of a source key decides what is seen of it: nothing after a deletion, else its own document if it
   * matches.
   */
  lemma NewestDecides(spec: Spec, history: seq<OutboxData>, d: OutboxData, matches: Row -> bool,
                      before: (SourceKey, SourceKey) -> bool)
    requires OnePayload(spec, history) && Orders.StrictTotal(before) && d in history && Project(spec, d).Some?
    requires forall e :: e in history && SameSource(e, d) && Project(spec, e).Some? ==>
      Project(spec, e).value.sourceVersion <= Project(spec, d).value.sourceVersion
    ensures var seen := Visible(Fold(spec, history), matches, before);
      var row := Project(spec, d).value;
      && row.document == Resolve(spec, d).value.body
      && (row in seen <==> !Removes(spec, d) && matches(row))
      && (forall r :: r in seen && r.sourceKey == Key(spec, d) ==> r == row)
  {
    hide Project, Resolve, Fold, Visible, Removes, Orders.StrictTotal;
    var fold, row := Fold(spec, history), Project(spec, d).value;
    FoldIsNewest(spec, history);
    ProjectedRow(spec, d);
    assert ImageOf(spec, history, row);
    assert ImageOf(spec, history, fold[row.sourceKey]);
    var e :| e in history && Project(spec, e) == Some(fold[row.sourceKey]);
    ProjectedRow(spec, e);
    SameVersionSameRow(spec, history, d, e);
    SeenExactly(fold, matches, before, row);
    forall r | r in Visible(fold, matches, before) && r.sourceKey == Key(spec, d) ensures r == row {
      SeenExactly(fold, matches, before, r);
    }
  }

  lemma ProjectedRow(spec: Spec, d: OutboxData)
    requires Project(spec, d).Some?
    ensures var row := Project(spec, d).value;
      && row.sourceKey == Key(spec, d) && Resolve(spec, d).Some? && row.document == Resolve(spec, d).value.body
      && (row.deleted <==> Removes(spec, d))
  {
  }
}
