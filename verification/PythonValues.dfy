/** Turning Python values into JSON data, and freezing JSON data without changing its canonical text. */
module PythonValues {
  import opened Wrappers
  import opened CanonicalJson
  import JsonText

  /** The values the conversion distinguishes; `Timestamp` carries its RFC 3339 text, `Other` is any other type. */
  datatype Value = PyNone | PyBool(flag: bool) | PyInt(number: int) | PyStr(text: string) | Timestamp(rfc3339: string)
                 | Enumeration(member: Value) | Record(attributes: Entries) | Mapping(entries: Entries)
                 | Sequence(elements: Elements)
                 | Other

  datatype Entries = NoEntries | Entry(key: Value, value: Value, rest: Entries)

  datatype Elements = NoElements | Element(head: Value, tail: Elements)

  datatype Unsupported = Unsupported

  function JsonValue(v: Value): Result<Json, Unsupported>
  {
    match v
    case PyNone => Ok(Null)
    case PyBool(flag) => Ok(Bool(flag))
    case PyInt(number) => Ok(Int(number))
    case PyStr(text) => Ok(Str(text))
    case Timestamp(rfc3339) => Ok(Str(rfc3339))
    case Enumeration(member) => JsonValue(member)
    case Record(attributes) => JsonObject(attributes)
    case Mapping(entries) => JsonObject(entries)
    case Sequence(elements) =>
      var items := JsonItems(elements);
      if items.Err? then Err(items.error) else Ok(Arr(items.value))
    case Other => Err(Unsupported)
  }

  function JsonObject(entries: Entries): Result<Json, Unsupported>
    decreases entries, 1
  {
    var fields := JsonFields(entries);
    if fields.Err? then Err(fields.error) else Ok(Obj(JsonText.Dictionary(fields.value)))
  }

  /** Every key must be a string. */
  function JsonFields(entries: Entries): Result<Fields, Unsupported>
    decreases entries, 0
  {
    match entries
    case NoEntries => Ok(NoFields)
    case Entry(key, value, rest) =>
      if !key.PyStr? then Err(Unsupported)
      else
        var item := JsonValue(value);
        var more := JsonFields(rest);
        if item.Err? || more.Err? then Err(Unsupported) else Ok(Field(key.text, item.value, more.value))
  }

  function JsonItems(elements: Elements): Result<Items, Unsupported>
  {
    match elements
    case NoElements => Ok(NoItems)
    case Element(head, tail) =>
      var item := JsonValue(head);
      var more := JsonItems(tail);
      if item.Err? || more.Err? then Err(Unsupported) else Ok(Item(item.value, more.value))
  }

  /** Mapping proxies for objects, tuples for arrays. */
  function Immutable(v: Json): Value
  {
    match v
    case Null => PyNone
    case Bool(b) => PyBool(b)
    case Int(n) => PyInt(n)
    case Str(text) => PyStr(text)
    case Arr(items) => Sequence(ImmutableItems(items))
    case Obj(fields) => Mapping(ImmutableFields(fields))
  }

  function ImmutableItems(items: Items): Elements
  {
    match items
    case NoItems => NoElements
    case Item(head, tail) => Element(Immutable(head), ImmutableItems(tail))
  }

  function ImmutableFields(fields: Fields): Entries
  {
    match fields
    case NoFields => NoEntries
    case Field(key, value, rest) => Entry(PyStr(key), Immutable(value), ImmutableFields(rest))
  }

  function ImmutableValue(v: Value): Result<Value, Unsupported>
  {
    var json := JsonValue(v);
    if json.Err? then Err(json.error) else Ok(Immutable(json.value))
  }

  function CanonicalBytes(v: Value): Result<string, Unsupported>
  {
    var json := JsonValue(v);
    if json.Err? then Err(json.error) else Ok(JsonText.CanonicalText(json.value))
  }

  /** Made of what JSON can hold, with strings for keys. */
  ghost predicate Supported(v: Value)
  {
    match v
    case Enumeration(member) => Supported(member)
    case Record(attributes) => SupportedEntries(attributes)
    case Mapping(entries) => SupportedEntries(entries)
    case Sequence(elements) => SupportedElements(elements)
    case _ => !v.Other?
  }

  ghost predicate SupportedEntries(entries: Entries)
  {
    entries.Entry? ==> entries.key.PyStr? && Supported(entries.value) && SupportedEntries(entries.rest)
  }

  ghost predicate SupportedElements(elements: Elements)
  {
    elements.Element? ==> Supported(elements.head) && SupportedElements(elements.tail)
  }

  /** Exactly the supported values are converted. */
  lemma {:induction false} SupportedExactly(v: Value)
    ensures JsonValue(v).Ok? <==> Supported(v)
  {
    match v
    case Enumeration(member) => SupportedExactly(member);
    case Record(attributes) => EntriesExactly(attributes);
    case Mapping(entries) => EntriesExactly(entries);
    case Sequence(elements) => ElementsExactly(elements);
    case _ =>
  }

  lemma {:induction false} EntriesExactly(entries: Entries)
    ensures JsonFields(entries).Ok? <==> SupportedEntries(entries)
  {
    if entries.Entry? {
      SupportedExactly(entries.value);
      EntriesExactly(entries.rest);
    }
  }

  lemma {:induction false} ElementsExactly(elements: Elements)
    ensures JsonItems(elements).Ok? <==> SupportedElements(elements)
  {
    if elements.Element? {
      SupportedExactly(elements.head);
      ElementsExactly(elements.tail);
    }
  }

  /** A timestamp stands for its text, an enumeration for its member, a record for the mapping of its attributes. */
  lemma StandsFor(rfc3339: string, member: Value, attributes: Entries)
    ensures JsonValue(Timestamp(rfc3339)) == JsonValue(PyStr(rfc3339)) == Ok(Str(rfc3339))
    ensures JsonValue(Enumeration(member)) == JsonValue(member)
    ensures JsonValue(Record(attributes)) == JsonValue(Mapping(attributes))
  {
  }

  /** The conversion only ever returns dictionaries with distinct keys. */
  lemma {:induction false} JsonValueWellFormed(v: Value)
    ensures JsonValue(v).Ok? ==> WellFormed(JsonValue(v).value)
  {
    match v
    case Enumeration(member) => JsonValueWellFormed(member);
    case Record(attributes) => JsonFieldsWellFormed(attributes);
    case Mapping(entries) => JsonFieldsWellFormed(entries);
    case Sequence(elements) => JsonItemsWellFormed(elements);
    case _ =>
  }

  lemma {:induction false} JsonFieldsWellFormed(entries: Entries)
    ensures JsonFields(entries).Ok? ==> JsonText.ValuesWellFormed(JsonFields(entries).value)
    ensures JsonFields(entries).Ok? ==> FieldsWellFormed(JsonText.Dictionary(JsonFields(entries).value))
  {
    if entries.Entry? {
      JsonValueWellFormed(entries.value);
      JsonFieldsWellFormed(entries.rest);
    }
    if JsonFields(entries).Ok? { JsonText.DictionaryWellFormed(JsonFields(entries).value); }
  }

  lemma {:induction false} JsonItemsWellFormed(elements: Elements)
    ensures JsonItems(elements).Ok? ==> ItemsWellFormed(JsonItems(elements).value)
  {
    if elements.Element? {
      JsonValueWellFormed(elements.head);
      JsonItemsWellFormed(elements.tail);
    }
  }

  /** A frozen value converts back to the data it was made from. */
  lemma {:induction false} ThawsBack(v: Json)
    requires WellFormed(v)
    ensures JsonValue(Immutable(v)) == Ok(v)
  {
    match v
    case Arr(items) => ItemsThawBack(items);
    case Obj(fields) =>
      FieldsThawBack(fields);
      JsonText.DistinctIsDictionary(fields);
    case _ =>
  }

  lemma {:induction false} ItemsThawBack(items: Items)
    requires ItemsWellFormed(items)
    ensures JsonItems(ImmutableItems(items)) == Ok(items)
  {
    if items.Item? {
      ThawsBack(items.head);
      ItemsThawBack(items.tail);
    }
  }

  lemma {:induction false} FieldsThawBack(fields: Fields)
    requires FieldsWellFormed(fields)
    ensures JsonFields(ImmutableFields(fields)) == Ok(fields)
  {
    if fields.Field? {
      ThawsBack(fields.value);
      FieldsThawBack(fields.rest);
    }
  }

  /** Freezing first changes neither the canonical text nor, a second time, the frozen value. */
  lemma FreezingKeepsBytes(v: Value)
    requires ImmutableValue(v).Ok?
    ensures CanonicalBytes(ImmutableValue(v).value) == CanonicalBytes(v)
    ensures ImmutableValue(ImmutableValue(v).value) == ImmutableValue(v)
  {
    JsonValueWellFormed(v);
    ThawsBack(JsonValue(v).value);
  }

  /** Two supported values have the same canonical bytes exactly when they stand for the same JSON data. */
  lemma CanonicalBytesExactly(v: Value, w: Value)
    requires JsonValue(v).Ok? && JsonValue(w).Ok?
    ensures CanonicalBytes(v) == CanonicalBytes(w) <==> Same(JsonValue(v).value, JsonValue(w).value)
  {
    JsonValueWellFormed(v);
    JsonValueWellFormed(w);
    JsonText.CanonicalTextExactly(JsonValue(v).value, JsonValue(w).value);
  }
}
