/** Logical records, their canonical lines, partition manifests, and what it means for a partition to be well formed. */
module PortabilityModel {
  import opened Wrappers
  import opened CanonicalJson
  import JsonText

  datatype RecordVersion = IntVersion(number: int) | TextVersion(text: string)

  datatype LogicalRecord = LogicalRecord(
    catalog: string, namespace: string, resource: string, schemaRef: string, logicalId: string,
    version: RecordVersion, values: Fields, objectReferences: Items)
  {
    /** What the constructor insists on; `catalogs` are the catalog names of Meridian Core. */
    predicate Valid(catalogs: set<string>)
    {
      && catalog != "" && namespace != "" && resource != "" && schemaRef != "" && logicalId != ""
      && catalog in catalogs && catalog != "cache"
      && FieldsWellFormed(values) && ItemsWellFormed(objectReferences) && AllObjects(objectReferences)
    }

    function VersionJson(): Json
    {
      match version
      case IntVersion(number) => Int(number)
      case TextVersion(text) => Str(text)
    }

    function ToMapping(): Fields
    {
      Field("catalog", Str(catalog), Field("namespace", Str(namespace), Location()))
    }

    function Location(): Fields
    {
      Field("resource", Str(resource), Field("schemaRef", Str(schemaRef), Identity()))
    }

    function Identity(): Fields
    {
      Field("logicalId", Str(logicalId), Field("version", VersionJson(),
      Field("values", Obj(values), Field("objectReferences", Arr(objectReferences), NoFields))))
    }

    /** The same record with every dictionary in key order. */
    function Normal(): LogicalRecord
    {
      this.(values := CanonFields(values), objectReferences := CanonItems(objectReferences))
    }

    /** One line of a partition, without its newline. */
    function Line(): string
    {
      JsonText.CanonicalText(Obj(ToMapping()))
    }
  }

  /** Field by field, what a record must not be. */
  ghost predicate Malformed(r: LogicalRecord, catalogs: set<string>)
  {
    || "" in {r.catalog, r.namespace, r.resource, r.schemaRef, r.logicalId}
    || r.catalog !in catalogs || r.catalog == "cache"
    || !WellFormed(Obj(r.values)) || !WellFormed(Arr(r.objectReferences)) || HasOther(r.objectReferences)
  }

  /** Some reference is no object. */
  ghost predicate HasOther(items: Items)
  {
    items.Item? && (!items.head.Obj? || HasOther(items.tail))
  }

  lemma {:induction false} ObjectsExactly(items: Items)
    ensures AllObjects(items) <==> !HasOther(items)
  {
    if items.Item? { ObjectsExactly(items.tail); }
  }

  lemma ValidExactly(r: LogicalRecord, catalogs: set<string>)
    ensures r.Valid(catalogs) <==> !Malformed(r, catalogs)
  {
    ObjectsExactly(r.objectReferences);
  }

  predicate AllObjects(items: Items)
  {
    items.Item? ==> items.head.Obj? && AllObjects(items.tail)
  }

  function Entry(fields: Fields, key: string): Option<Json>
  {
    if key in Keys(fields) then Some(Get(fields, key)) else None
  }

  function TextEntry(fields: Fields, key: string): Option<string>
  {
    var v := Entry(fields, key);
    if v.Some? && v.value.Str? then Some(v.value.text) else None
  }

  function VersionEntry(fields: Fields): Option<RecordVersion>
  {
    var v := Entry(fields, "version");
    if v.Some? && v.value.Str? then Some(TextVersion(v.value.text))
    else if v.Some? && v.value.Int? then Some(IntVersion(v.value.number))
    else None
  }

  function FromMapping(catalogs: set<string>, fields: Fields): Option<LogicalRecord>
  {
    var references, values := Entry(fields, "objectReferences"), Entry(fields, "values");
    var catalog, namespace := TextEntry(fields, "catalog"), TextEntry(fields, "namespace");
    var resource, schemaRef := TextEntry(fields, "resource"), TextEntry(fields, "schemaRef");
    var logicalId, version := TextEntry(fields, "logicalId"), VersionEntry(fields);
    if references.None? || !references.value.Arr? || !AllObjects(references.value.items) then None
    else if values.None? || !values.value.Obj? || version.None? then None
    else if catalog.None? || namespace.None? || resource.None? || schemaRef.None? || logicalId.None? then None
    else
      var r := LogicalRecord(catalog.value, namespace.value, resource.value, schemaRef.value, logicalId.value,
                             version.value, values.value.fields, references.value.items);
      if r.Valid(catalogs) then Some(r) else None
  }

  /** A line is read as JSON, as a record, and must be exactly the record's own canonical line. */
  function ReadLine(catalogs: set<string>, maximum: nat, line: string): Option<LogicalRecord>
  {
    if |line| > maximum then None
    else
      var raw := JsonText.Parse(line);
      if raw.None? || !raw.value.Obj? then None
      else
        var r := FromMapping(catalogs, raw.value.fields);
        if r.None? || r.value.Line() != line then None else r
  }

  /** The eight names are distinct. */
  lemma NamesDiffer()
    ensures "catalog" !in {"namespace", "resource", "schemaRef", "logicalId", "version", "values", "objectReferences"}
    ensures "namespace" !in {"resource", "schemaRef", "logicalId", "version", "values", "objectReferences"}
    ensures "resource" !in {"schemaRef", "logicalId", "version", "values", "objectReferences"}
    ensures "schemaRef" !in {"logicalId", "version", "values", "objectReferences"}
    ensures "logicalId" !in {"version", "values", "objectReferences"} && "version" !in {"values", "objectReferences"}
    ensures "values" != "objectReferences"
  {
    assert "catalog"[0] == 'c' && "version"[0] == 'v' && "namespace"[0] == 'n';
    assert "schemaRef"[0] == 's' && "logicalId"[0] == 'l';
  }

  lemma Prepended(key: string, value: Json, rest: Fields)
    requires key !in Keys(rest)
    ensures Keys(Field(key, value, rest)) == {key} + Keys(rest) && Get(Field(key, value, rest), key) == value
    ensures forall k :: k in Keys(rest) ==> Get(Field(key, value, rest), k) == Get(rest, k)
    ensures FieldsWellFormed(Field(key, value, rest)) <==> WellFormed(value) && FieldsWellFormed(rest)
  {
  }

  lemma IdentityEntries(r: LogicalRecord)
    ensures Keys(r.Identity()) == {"logicalId", "version", "values", "objectReferences"}
    ensures Get(r.Identity(), "logicalId") == Str(r.logicalId) && Get(r.Identity(), "version") == r.VersionJson()
    ensures Get(r.Identity(), "values") == Obj(r.values)
    ensures Get(r.Identity(), "objectReferences") == Arr(r.objectReferences)
    ensures FieldsWellFormed(r.values) && ItemsWellFormed(r.objectReferences) ==> FieldsWellFormed(r.Identity())
  {
    hide Keys, Get, FieldsWellFormed, WellFormed;
    NamesDiffer();
    var f := r.Identity();
    Empty();
    LeavesWellFormed(r);
    Prepended("objectReferences", f.rest.rest.rest.value, NoFields);
    Prepended("values", f.rest.rest.value, f.rest.rest.rest);
    Prepended("version", f.rest.value, f.rest.rest);
    Prepended("logicalId", f.value, f.rest);
  }

  lemma Empty()
    ensures Keys(NoFields) == {} && FieldsWellFormed(NoFields)
  {
  }

  lemma LeavesWellFormed(r: LogicalRecord)
    ensures WellFormed(r.VersionJson()) && WellFormed(Str(r.catalog)) && WellFormed(Str(r.namespace))
    ensures WellFormed(Str(r.resource))
    ensures WellFormed(Str(r.schemaRef)) && WellFormed(Str(r.logicalId))
    ensures WellFormed(Obj(r.values)) <==> FieldsWellFormed(r.values)
    ensures WellFormed(Arr(r.objectReferences)) <==> ItemsWellFormed(r.objectReferences)
  {
  }

  lemma LocationEntries(r: LogicalRecord)
    ensures var f := r.Location();
      && Keys(f) == {"resource", "schemaRef", "logicalId", "version", "values", "objectReferences"}
      && Get(f, "resource") == Str(r.resource) && Get(f, "schemaRef") == Str(r.schemaRef)
      && Get(f, "logicalId") == Str(r.logicalId) && Get(f, "version") == r.VersionJson()
      && Get(f, "values") == Obj(r.values) && Get(f, "objectReferences") == Arr(r.objectReferences)
    ensures FieldsWellFormed(r.values) && ItemsWellFormed(r.objectReferences) ==> FieldsWellFormed(r.Location())
  {
    hide LogicalRecord.Identity, Keys, Get, FieldsWellFormed, WellFormed;
    NamesDiffer();
    IdentityEntries(r);
    LeavesWellFormed(r);
    Prepended("schemaRef", Str(r.schemaRef), r.Identity());
    Prepended("resource", Str(r.resource), Field("schemaRef", Str(r.schemaRef), r.Identity()));
  }

  lemma MappingEntries(r: LogicalRecord)
    ensures var f := r.ToMapping();
      && Keys(f) == {"catalog", "namespace", "resource", "schemaRef", "logicalId", "version", "values",
                     "objectReferences"}
      && Get(f, "catalog") == Str(r.catalog) && Get(f, "namespace") == Str(r.namespace)
      && Get(f, "resource") == Str(r.resource)
      && Get(f, "schemaRef") == Str(r.schemaRef) && Get(f, "logicalId") == Str(r.logicalId)
      && Get(f, "version") == r.VersionJson()
      && Get(f, "values") == Obj(r.values) && Get(f, "objectReferences") == Arr(r.objectReferences)
    ensures FieldsWellFormed(r.values) && ItemsWellFormed(r.objectReferences) ==> FieldsWellFormed(r.ToMapping())
  {
    hide LogicalRecord.Location, Keys, Get, FieldsWellFormed, WellFormed;
    NamesDiffer();
    LocationEntries(r);
    LeavesWellFormed(r);
    Prepended("namespace", Str(r.namespace), r.Location());
    Prepended("catalog", Str(r.catalog), Field("namespace", Str(r.namespace), r.Location()));
  }

  lemma {:induction false} CanonKeepsObjects(items: Items)
    requires AllObjects(items)
    ensures AllObjects(CanonItems(items))
  {
    if items.Item? { CanonKeepsObjects(items.tail); }
  }

  lemma NormalIsValid(catalogs: set<string>, r: LogicalRecord)
    requires r.Valid(catalogs)
    ensures r.Normal().Valid(catalogs)
  {
    CanonFieldsAreCanonical(r.values);
    CanonItemsAreCanonical(r.objectReferences);
    CanonKeepsObjects(r.objectReferences);
  }

  /** The mapping of a record, sorted, is read back as the same record. */
  lemma FromSortedMapping(catalogs: set<string>, r: LogicalRecord)
    requires r.Valid(catalogs)
    ensures FromMapping(catalogs, CanonFields(r.ToMapping())) == Some(r.Normal())
  {
    hide CanonFields, Keys, Get, Canonical, FieldsWellFormed, ItemsWellFormed, CanonItems, AllObjects;
    MappingEntries(r);
    CanonFieldsAreCanonical(r.ToMapping());
    NormalIsValid(catalogs, r);
    CanonKeepsObjects(r.objectReferences);
  }

  lemma LineRoundTrip(r: LogicalRecord)
    requires FieldsWellFormed(r.values) && ItemsWellFormed(r.objectReferences)
    ensures JsonText.Parse(r.Line()) == Some(Obj(CanonFields(r.ToMapping())))
  {
    hide LogicalRecord.ToMapping, FieldsWellFormed, JsonText.Parse, JsonText.CanonicalText, CanonFields;
    MappingEntries(r);
    JsonText.CanonicalRoundTrip(Obj(r.ToMapping()));
  }

  /** Putting the dictionaries in key order does not change a record's line. */
  lemma NormalLine(catalogs: set<string>, r: LogicalRecord)
    requires r.Valid(catalogs)
    ensures r.Normal().Line() == r.Line()
  {
    hide LogicalRecord.ToMapping, FieldsWellFormed, ItemsWellFormed, CanonFields, CanonItems, Keys, Get, Canonical,
      Sorted;
    NormalIsValid(catalogs, r);
    MappingEntries(r);
    MappingEntries(r.Normal());
    CanonFieldsAreCanonical(r.ToMapping());
    CanonFieldsAreCanonical(r.Normal().ToMapping());
    CanonFieldsAreCanonical(r.values);
    CanonItemsAreCanonical(r.objectReferences);
    CanonicalFieldsAreFixed(CanonFields(r.values));
    CanonicalItemsAreFixed(CanonItems(r.objectReferences));
    SortedUnique(CanonFields(r.ToMapping()), CanonFields(r.Normal().ToMapping()));
  }

  /**
   * A record's own line reads back as the record; two records share a line only if they are equal but for key order.
   */
  lemma LineReadsBack(catalogs: set<string>, maximum: nat, r: LogicalRecord)
    requires r.Valid(catalogs)
    ensures ReadLine(catalogs, maximum, r.Line()) == if |r.Line()| <= maximum then Some(r.Normal()) else None
  {
    hide LogicalRecord.Line, FromMapping, CanonFields, LogicalRecord.ToMapping, LogicalRecord.Normal;
    LineRoundTrip(r);
    FromSortedMapping(catalogs, r);
    NormalLine(catalogs, r);
  }

  /** The lines that are accepted are exactly the lines of valid records that are short enough. */
  lemma LinesExactly(catalogs: set<string>, maximum: nat, line: string)
    ensures ReadLine(catalogs, maximum, line).Some?
      <==> |line| <= maximum && exists r: LogicalRecord :: r.Valid(catalogs) && r.Line() == line
    ensures ReadLine(catalogs, maximum, line).Some? ==>
      var r := ReadLine(catalogs, maximum, line).value; r.Valid(catalogs) && r.Line() == line
  {
    if r: LogicalRecord :| r.Valid(catalogs) && r.Line() == line {
      LineReadsBack(catalogs, maximum, r);
    }
  }

  /** Two records have the same line exactly when they are the same record up to the order of dictionary entries. */
  lemma SameLine(catalogs: set<string>, r: LogicalRecord, q: LogicalRecord)
    requires r.Valid(catalogs) && q.Valid(catalogs)
    ensures r.Line() == q.Line() <==> r.Normal() == q.Normal()
  {
    LineReadsBack(catalogs, |r.Line()|, r);
    LineReadsBack(catalogs, |q.Line()|, q);
    NormalLine(catalogs, r);
    NormalLine(catalogs, q);
  }
}
