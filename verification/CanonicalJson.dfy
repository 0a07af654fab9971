/** Canonical JSON text: sorted keys, no spaces, RFC 8259 escapes, and a parser for the JSON grammar without floats. */
module CanonicalJson {
  import TextOrder

  /** JSON data as the source holds it: an object is a dictionary in insertion order. */
  datatype Json = Null | Bool(value: bool) | Int(number: int) | Str(text: string) | Arr(items: Items)
                | Obj(fields: Fields)

  datatype Items = NoItems | Item(head: Json, tail: Items)

  datatype Fields = NoFields | Field(key: string, value: Json, rest: Fields)

  function Size(v: Json): nat
  {
    match v
    case Arr(items) => 1 + ItemsSize(items)
    case Obj(fields) => 1 + FieldsSize(fields)
    case _ => 1
  }

  function ItemsSize(items: Items): nat
  {
    match items
    case NoItems => 0
    case Item(head, tail) => 1 + Size(head) + ItemsSize(tail)
  }

  function FieldsSize(fields: Fields): nat
  {
    match fields
    case NoFields => 0
    case Field(_, value, rest) => 1 + Size(value) + FieldsSize(rest)
  }

  function Keys(fields: Fields): set<string>
  {
    match fields
    case NoFields => {}
    case Field(key, _, rest) => {key} + Keys(rest)
  }

  function Get(fields: Fields, key: string): (v: Json)
    requires key in Keys(fields)
    ensures Size(v) < FieldsSize(fields)
  {
    if fields.key == key then fields.value else Get(fields.rest, key)
  }

  /** A dictionary has each key once, at every depth. */
  predicate WellFormed(v: Json)
  {
    match v
    case Arr(items) => ItemsWellFormed(items)
    case Obj(fields) => FieldsWellFormed(fields)
    case _ => true
  }

  predicate ItemsWellFormed(items: Items)
  {
    items.Item? ==> WellFormed(items.head) && ItemsWellFormed(items.tail)
  }

  predicate FieldsWellFormed(fields: Fields)
  {
    fields.Field? ==> WellFormed(fields.value) && fields.key !in Keys(fields.rest) && FieldsWellFormed(fields.rest)
  }

  /** Equality of JSON data, where the order of a dictionary's entries does not matter. */
  ghost predicate Same(v: Json, w: Json)
    decreases Size(v)
  {
    match v
    case Arr(items) => w.Arr? && SameItems(items, w.items)
    case Obj(fields) =>
      w.Obj? && Keys(fields) == Keys(w.fields)
      && forall key :: key in Keys(fields) ==> Same(Get(fields, key), Get(w.fields, key))
    case _ => v == w
  }

  ghost predicate SameItems(a: Items, b: Items)
    decreases ItemsSize(a)
  {
    if a.NoItems? || b.NoItems? then a == b
    else Same(a.head, b.head) && SameItems(a.tail, b.tail)
  }

  // ------------------------------------------------------ sorting the keys

  function Insert(key: string, value: Json, fields: Fields): Fields
  {
    if fields.NoFields? || TextOrder.Less(key, fields.key) then Field(key, value, fields)
    else Field(fields.key, fields.value, Insert(key, value, fields.rest))
  }

  /** `sort_keys=True`, at every depth. */
  function Canon(v: Json): Json
  {
    match v
    case Arr(items) => Arr(CanonItems(items))
    case Obj(fields) => Obj(CanonFields(fields))
    case _ => v
  }

  function CanonItems(items: Items): Items
  {
    match items
    case NoItems => NoItems
    case Item(head, tail) => Item(Canon(head), CanonItems(tail))
  }

  function CanonFields(fields: Fields): Fields
  {
    match fields
    case NoFields => NoFields
    case Field(key, value, rest) => Insert(key, Canon(value), CanonFields(rest))
  }

  ghost predicate Sorted(fields: Fields)
  {
    fields.Field? && fields.rest.Field? ==> TextOrder.Precedes(fields.key, fields.rest.key) && Sorted(fields.rest)
  }

  /** Sorted at every depth. */
  ghost predicate Canonical(v: Json)
  {
    match v
    case Arr(items) => CanonicalItems(items)
    case Obj(fields) => Sorted(fields) && CanonicalFields(fields)
    case _ => true
  }

  ghost predicate CanonicalItems(items: Items)
  {
    items.Item? ==> Canonical(items.head) && CanonicalItems(items.tail)
  }

  ghost predicate CanonicalFields(fields: Fields)
  {
    fields.Field? ==> Canonical(fields.value) && CanonicalFields(fields.rest)
  }

  lemma {:induction false} FirstIsLeast(fields: Fields, key: string)
    requires fields.Field? && Sorted(fields) && key in Keys(fields.rest)
    ensures TextOrder.Less(fields.key, key)
  {
    TextOrder.LessExactly(fields.key, fields.rest.key);
    if fields.rest.key != key {
      FirstIsLeast(fields.rest, key);
      TextOrder.Transitive(fields.key, fields.rest.key, key);
    }
  }

  lemma {:induction false} SortedAreDistinct(fields: Fields)
    requires Sorted(fields) && fields.Field?
    ensures fields.key !in Keys(fields.rest)
  {
    if fields.key in Keys(fields.rest) {
      FirstIsLeast(fields, fields.key);
      TextOrder.Irreflexive(fields.key);
    }
  }

  lemma {:induction false} InsertAdds(key: string, value: Json, fields: Fields)
    requires key !in Keys(fields)
    ensures Keys(Insert(key, value, fields)) == Keys(fields) + {key}
    ensures forall k :: k in Keys(fields) ==> Get(Insert(key, value, fields), k) == Get(fields, k)
    ensures Get(Insert(key, value, fields), key) == value
    ensures CanonicalFields(fields) && Canonical(value) ==> CanonicalFields(Insert(key, value, fields))
    ensures Sorted(fields) ==> Sorted(Insert(key, value, fields))
  {
    hide TextOrder.Less, TextOrder.Precedes;
    if fields.Field? { TextOrder.LessExactly(key, fields.key); }
    if fields.Field? { TextOrder.LessExactly(fields.key, key); }
    if fields.Field? && !TextOrder.Less(key, fields.key) {
      TextOrder.Total(key, fields.key);
      InsertAdds(key, value, fields.rest);
    }
  }

  lemma {:induction false} CanonIsCanonical(v: Json)
    requires WellFormed(v)
    ensures Canonical(Canon(v)) && WellFormed(Canon(v))
  {
    match v
    case Arr(items) => CanonItemsAreCanonical(items);
    case Obj(fields) => CanonFieldsAreCanonical(fields);
    case _ =>
  }

  lemma {:induction false} CanonItemsAreCanonical(items: Items)
    requires ItemsWellFormed(items)
    ensures CanonicalItems(CanonItems(items)) && ItemsWellFormed(CanonItems(items))
  {
    if items.Item? {
      CanonIsCanonical(items.head);
      CanonItemsAreCanonical(items.tail);
    }
  }

  lemma {:induction false} CanonFieldsAreCanonical(fields: Fields)
    requires FieldsWellFormed(fields)
    ensures Sorted(CanonFields(fields)) && CanonicalFields(CanonFields(fields)) && FieldsWellFormed(CanonFields(fields))
    ensures Keys(CanonFields(fields)) == Keys(fields)
    ensures forall k :: k in Keys(fields) ==> Get(CanonFields(fields), k) == Canon(Get(fields, k))
  {
    if fields.Field? {
      CanonIsCanonical(fields.value);
      CanonFieldsAreCanonical(fields.rest);
      InsertAdds(fields.key, Canon(fields.value), CanonFields(fields.rest));
      InsertWellFormed(fields.key, Canon(fields.value), CanonFields(fields.rest));
    }
  }

  lemma {:induction false} InsertWellFormed(key: string, value: Json, fields: Fields)
    requires key !in Keys(fields) && WellFormed(value) && FieldsWellFormed(fields)
    ensures FieldsWellFormed(Insert(key, value, fields))
  {
    if fields.Field? && !TextOrder.Less(key, fields.key) {
      InsertWellFormed(key, value, fields.rest);
      InsertAdds(key, value, fields.rest);
    }
  }

  /** A sorted list of entries is determined by its keys and their values. */
  lemma {:induction false} SortedUnique(a: Fields, b: Fields)
    requires Sorted(a) && Sorted(b) && Keys(a) == Keys(b)
    requires forall k :: k in Keys(a) ==> Get(a, k) == Get(b, k)
    ensures a == b
  {
    if a.Field? {
      assert a.key in Keys(b);
      assert b.Field? && b.key in Keys(a);
      if a.key != b.key {
        FirstIsLeast(a, b.key);
        FirstIsLeast(b, a.key);
        TextOrder.Transitive(a.key, b.key, a.key);
        TextOrder.Irreflexive(a.key);
      }
      SortedAreDistinct(a);
      SortedAreDistinct(b);
      assert Keys(a.rest) == Keys(a) - {a.key} && Keys(b.rest) == Keys(b) - {b.key};
      forall k | k in Keys(a.rest) ensures Get(a.rest, k) == Get(b.rest, k) {
        assert Get(a, k) == Get(b, k);
      }
      SortedUnique(a.rest, b.rest);
    }
  }

  /** Two values sort to the same value exactly when they are equal as dictionaries and lists. */
  lemma {:induction false} CanonExactly(v: Json, w: Json)
    requires WellFormed(v) && WellFormed(w)
    ensures Canon(v) == Canon(w) <==> Same(v, w)
    decreases Size(v)
  {
    if v.Arr? && w.Arr? {
      CanonItemsExactly(v.items, w.items);
    } else if v.Obj? && w.Obj? {
      CanonFieldsAreCanonical(v.fields);
      CanonFieldsAreCanonical(w.fields);
      forall key | key in Keys(v.fields) && key in Keys(w.fields)
        ensures Canon(Get(v.fields, key)) == Canon(Get(w.fields, key)) <==> Same(Get(v.fields, key), Get(w.fields, key))
      {
        EntryWellFormed(v.fields, key);
        EntryWellFormed(w.fields, key);
        CanonExactly(Get(v.fields, key), Get(w.fields, key));
      }
      if Same(v, w) {
        SortedUnique(CanonFields(v.fields), CanonFields(w.fields));
      }
    }
  }

  lemma {:induction false} CanonItemsExactly(a: Items, b: Items)
    requires ItemsWellFormed(a) && ItemsWellFormed(b)
    ensures CanonItems(a) == CanonItems(b) <==> SameItems(a, b)
    decreases ItemsSize(a)
  {
    if a.Item? && b.Item? {
      CanonExactly(a.head, b.head);
      CanonItemsExactly(a.tail, b.tail);
    }
  }

  lemma {:induction false} EntryWellFormed(fields: Fields, key: string)
    requires FieldsWellFormed(fields) && key in Keys(fields)
    ensures WellFormed(Get(fields, key))
  {
    if fields.key != key { EntryWellFormed(fields.rest, key); }
  }

  /** Sorting a sorted value changes nothing. */
  lemma {:induction false} CanonicalIsFixed(v: Json)
    requires Canonical(v)
    ensures Canon(v) == v && WellFormed(v)
  {
    match v
    case Arr(items) => CanonicalItemsAreFixed(items);
    case Obj(fields) => CanonicalFieldsAreFixed(fields);
    case _ =>
  }

  lemma {:induction false} CanonicalItemsAreFixed(items: Items)
    requires CanonicalItems(items)
    ensures CanonItems(items) == items && ItemsWellFormed(items)
  {
    if items.Item? {
      CanonicalIsFixed(items.head);
      CanonicalItemsAreFixed(items.tail);
    }
  }

  lemma {:induction false} CanonicalFieldsAreFixed(fields: Fields)
    requires Sorted(fields) && CanonicalFields(fields)
    ensures CanonFields(fields) == fields && FieldsWellFormed(fields)
  {
    if fields.Field? {
      CanonicalIsFixed(fields.value);
      CanonicalFieldsAreFixed(fields.rest);
      SortedAreDistinct(fields);
      if fields.rest.Field? { TextOrder.LessExactly(fields.key, fields.rest.key); }
    }
  }
}
