/** Canonical text is the shortest text of its value: no space, no escape that is not needed, no entry twice. */
module ShortestText {
  import opened Wrappers
  import opened CanonicalJson
  import opened JsonText

  lemma EscapeLength(c: char)
    ensures 1 <= |EscapeChar(c)| <= 6
    ensures c >= ' ' && c != '\"' && c != '\\' ==> EscapeChar(c) == [c]
  {
  }

  lemma UnescapeLength(c: char)
    ensures Unescape(c).Some? ==> |EscapeChar(Unescape(c).value)| <= 2
  {
  }

  /** A long escape is four fixed characters and two lower-case hexadecimal digits. */
  lemma LongEscapesAreLower(c: char)
    requires |EscapeChar(c)| > 2
    ensures c < ' ' && |EscapeChar(c)| == 6 && EscapeChar(c)[..4] == "\\u00"
    ensures EscapeChar(c)[4] in "0123456789abcdef" && EscapeChar(c)[5] in "0123456789abcdef"
  {
    var digits := "0123456789abcdef";
    assert forall d: nat :: d < 16 ==> HexChar(d) == digits[d];
  }

  lemma {:induction false} StringShort(text: string)
    requires ParseString(text).Parsed?
    ensures |Escape(ParseString(text).value)| + 1 + |ParseString(text).rest| <= |text|
    decreases |text|
  {
    hide EscapeChar, Unescape, UnicodeEscape;
    if text[0] == '\"' {
    } else if text[0] != '\\' {
      StringShort(text[1..]);
      PushShort(text[0], ParseString(text[1..]));
      EscapeLength(text[0]);
    } else if text[1] == 'u' {
      var escape := UnicodeEscape(text[2..]).value;
      StringShort(text[2 + escape.1..]);
      PushShort(escape.0, ParseString(text[2 + escape.1..]));
      EscapeLength(escape.0);
    } else {
      StringShort(text[2..]);
      PushShort(Unescape(text[1]).value, ParseString(text[2..]));
      UnescapeLength(text[1]);
    }
  }

  lemma PushShort(c: char, r: Parsed<string>)
    requires r.Parsed?
    ensures |Escape(Push(c, r).value)| == |EscapeChar(c)| + |Escape(r.value)|
  {
    hide EscapeChar;
    assert ([c] + r.value)[1..] == r.value;
  }

  lemma {:induction false} DecimalShort(digits: string)
    requires digits != "" && forall c :: c in digits ==> IsDigit(c)
    ensures |Decimal(DecimalValue(digits))| <= |digits|
  {
    if |digits| > 1 {
      var init := digits[..|digits| - 1];
      DecimalShort(init);
      var n, d := DecimalValue(init), DigitOf(digits[|digits| - 1]);
      assert n * 10 + d >= 10 ==> (n * 10 + d) / 10 == n;
    } else {
      assert digits[..0] == "" && DecimalValue(digits) == DigitOf(digits[0]) < 10;
    }
  }

  lemma IntShort(text: string)
    requires ParseInt(text).Parsed?
    ensures ParseInt(text).value.Int?
    ensures |IntText(ParseInt(text).value.number)| + |ParseInt(text).rest| <= |text|
  {
    var digits := if text != "" && text[0] == '-' then text[1..] else text;
    var run := DigitRun(digits);
    var k := if run > 0 && digits[0] == '0' then 1 else run;
    DecimalShort(digits[..k]);
  }

  // ------------------------------------------------- what is read is no shorter

  lemma {:induction false} ValueShort(text: string)
    requires ParseValue(text).Parsed?
    ensures |Render(ParseValue(text).value)| + |ParseValue(text).rest| <= |text|
    decreases |text|, 1
  {
    hide ParseString, ParseInt, SkipSpace, ParseItems, ParseFields, Dictionary, IntText, Escape;
    if text[0] == '{' {
      var inner := SkipSpace(text[1..]);
      if !(inner != "" && inner[0] == '}') {
        FieldsShort(inner);
        DictionaryShort(ParseFields(inner).value);
      }
    } else if text[0] == '[' {
      var inner := SkipSpace(text[1..]);
      if !(inner != "" && inner[0] == ']') { ItemsShort(inner); }
    } else if text[0] == '\"' {
      StringShort(text[1..]);
    } else if text[0] != 'n' && text[0] != 't' && text[0] != 'f' {
      IntShort(text);
    }
  }

  lemma {:induction false} ItemsShort(text: string)
    requires ParseItems(text).Parsed?
    ensures var r := ParseItems(text); r.value.Item? && |RenderItems(r.value)| + |r.rest| <= |text| + 1
    decreases |text|, 2
  {
    hide ParseValue, SkipSpace, Render;
    ValueShort(text);
    var after := SkipSpace(ParseValue(text).rest);
    if after[0] != ']' { ItemsShort(SkipSpace(after[1..])); }
  }

  lemma {:induction false} MemberShort(text: string)
    requires ParseMember(text).Parsed?
    ensures var r := ParseMember(text); MemberLength(r.value.0, r.value.1) + |r.rest| <= |text| + 1
    decreases |text|, 2
  {
    hide ParseValue, ParseString, SkipSpace, Render, Escape;
    StringShort(text[1..]);
    var colon := SkipSpace(ParseString(text[1..]).rest);
    ValueShort(SkipSpace(colon[1..]));
  }

  /** How long an entry is, with its comma. */
  function MemberLength(key: string, value: Json): nat
  {
    2 + |Quote(key)| + |Render(value)|
  }

  lemma {:induction false} FieldsShort(text: string)
    requires ParseFields(text).Parsed?
    ensures var r := ParseFields(text); r.value.Field? && |RenderFields(r.value)| + |r.rest| <= |text| + 1
    decreases |text|, 3
  {
    hide ParseMember, SkipSpace, Render, Quote;
    MemberShort(text);
    var after := SkipSpace(ParseMember(text).rest);
    if after[0] != '}' { FieldsShort(SkipSpace(after[1..])); }
  }

  lemma {:induction false} WithoutShort(fields: Fields, key: string)
    requires key in Keys(fields)
    ensures |RenderFields(Without(fields, key))| + MemberLength(key, Get(fields, key)) <= |RenderFields(fields)|
  {
    hide Render, Quote;
    if fields.key != key {
      WithoutShort(fields.rest, key);
    } else if key in Keys(fields.rest) {
      WithoutShort(fields.rest, key);
    } else {
      WithoutNone(fields.rest, key);
    }
  }

  lemma {:induction false} WithoutNone(fields: Fields, key: string)
    requires key !in Keys(fields)
    ensures Without(fields, key) == fields
  {
    if fields.Field? { WithoutNone(fields.rest, key); }
  }

  /** Taking out repeated keys does not make a text longer. */
  lemma {:induction false} DictionaryShort(fields: Fields)
    ensures |RenderFields(Dictionary(fields))| <= |RenderFields(fields)|
    ensures Dictionary(fields).Field? <==> fields.Field?
  {
    hide Render, Quote;
    if fields.Field? {
      DictionaryShort(fields.rest);
      if fields.key in Keys(Dictionary(fields.rest)) { WithoutShort(Dictionary(fields.rest), fields.key); }
    }
  }

  // ------------------------------------------------- sorting keeps the length

  lemma {:induction false} InsertLength(key: string, value: Json, fields: Fields)
    ensures |RenderFields(Insert(key, value, fields))| == MemberLength(key, value) + |RenderFields(fields)|
  {
    hide Render, Quote;
    if fields.Field? { InsertLength(key, value, fields.rest); }
  }

  lemma {:induction false} CanonLength(v: Json)
    ensures |Render(Canon(v))| == |Render(v)|
  {
    hide RenderItems, RenderFields;
    match v
    case Arr(items) =>
      CanonItemsLength(items);
      ArrayLength(items);
      ArrayLength(CanonItems(items));
    case Obj(fields) =>
      CanonFieldsLength(fields);
      ObjectLength(fields);
      ObjectLength(CanonFields(fields));
    case _ =>
  }

  lemma ArrayLength(items: Items)
    ensures |Render(Arr(items))| == if items.Item? then |RenderItems(items)| else 2
  {
  }

  lemma ObjectLength(fields: Fields)
    ensures |Render(Obj(fields))| == if fields.Field? then |RenderFields(fields)| else 2
  {
    hide Quote;
  }

  lemma {:induction false} CanonItemsLength(items: Items)
    ensures |RenderItems(CanonItems(items))| == |RenderItems(items)| && (CanonItems(items).Item? <==> items.Item?)
  {
    hide Render;
    if items.Item? {
      CanonLength(items.head);
      CanonItemsLength(items.tail);
    }
  }

  lemma {:induction false} CanonFieldsLength(fields: Fields)
    ensures |RenderFields(CanonFields(fields))| == |RenderFields(fields)|
    ensures CanonFields(fields).Field? <==> fields.Field?
  {
    hide Render, Quote;
    if fields.Field? {
      CanonLength(fields.value);
      CanonFieldsLength(fields.rest);
      InsertLength(fields.key, Canon(fields.value), CanonFields(fields.rest));
    }
  }

  /** No text of the same data is shorter than its canonical text. */
  lemma CanonicalIsShortest(v: Json, text: string)
    requires WellFormed(v) && Parse(text).Some? && Same(Parse(text).value, v)
    ensures |CanonicalText(v)| <= |text|
  {
    hide Render, ParseValue, SkipSpace;
    var w := Parse(text).value;
    ValueShort(SkipSpace(text));
    ParsedWellFormed(SkipSpace(text));
    CanonLength(w);
    CanonicalTextExactly(w, v);
  }
}
