/** Printing and parsing JSON text (RFC 8259, sections 2 to 7, without fractions and exponents). */
module JsonText {
  import opened Wrappers
  import opened CanonicalJson

  // ------------------------------------------------------------- numbers

  predicate IsDigit(c: char) { '0' <= c <= '9' }

  function DigitChar(d: nat): (c: char)
    requires d < 10
    ensures IsDigit(c) && DigitOf(c) == d
  {
    (('0' as int) + d) as char
  }

  function DigitOf(c: char): nat
    requires IsDigit(c)
  {
    (c as int) - ('0' as int)
  }

  function Decimal(n: nat): (text: string)
    ensures text != "" && forall c :: c in text ==> IsDigit(c)
  {
    if n < 10 then [DigitChar(n)] else Decimal(n / 10) + [DigitChar(n % 10)]
  }

  function IntText(n: int): string
  {
    if n < 0 then "-" + Decimal(-n) else Decimal(n)
  }

  /** How many digits the text starts with. */
  function DigitRun(text: string): (k: nat)
    ensures k <= |text| && forall i :: 0 <= i < k ==> IsDigit(text[i])
  {
    if text != "" && IsDigit(text[0]) then 1 + DigitRun(text[1..]) else 0
  }

  function DecimalValue(digits: string): nat
    requires forall c :: c in digits ==> IsDigit(c)
  {
    if digits == "" then 0
    else DecimalValue(digits[..|digits| - 1]) * 10 + DigitOf(digits[|digits| - 1])
  }

  // ------------------------------------------------------------- strings

  function HexChar(d: nat): char
    requires d < 16
  {
    if d < 10 then DigitChar(d) else (('a' as int) + d - 10) as char
  }

  function HexOf(c: char): Option<nat>
  {
    if IsDigit(c) then Some(DigitOf(c))
    else if 'a' <= c <= 'f' then Some((c as int) - ('a' as int) + 10)
    else if 'A' <= c <= 'F' then Some((c as int) - ('A' as int) + 10)
    else None
  }

  /** Only the quote, the backslash and the control characters are escaped. */
  function EscapeChar(c: char): string
  {
    match c
    case '\"' => "\\\""
    case '\\' => "\\\\"
    case '\n' => "\\n"
    case '\r' => "\\r"
    case '\t' => "\\t"
    case _ =>
      if c as int == 8 then "\\b"
      else if c as int == 12 then "\\f"
      else if c < ' ' then "\\u00" + [HexChar(c as int / 16), HexChar(c as int % 16)]
      else [c]
  }

  function Escape(text: string): string
  {
    if text == "" then "" else EscapeChar(text[0]) + Escape(text[1..])
  }

  function Quote(text: string): string
  {
    "\"" + Escape(text) + "\""
  }

  /** Four hexadecimal digits. */
  function Hex4(text: string): Option<nat>
  {
    if |text| < 4 then None
    else
      var a, b, c, d := HexOf(text[0]), HexOf(text[1]), HexOf(text[2]), HexOf(text[3]);
      if a.None? || b.None? || c.None? || d.None? then None
      else Some(((a.value * 16 + b.value) * 16 + c.value) * 16 + d.value)
  }

  /**
   * The character a `\u` escape stands for, and how much text it takes; a pair of surrogates stands for one character.
   */
  function UnicodeEscape(text: string): (r: Option<(char, nat)>)
    ensures r.Some? ==> 4 <= r.value.1 <= |text|
  {
    var high := Hex4(text);
    if high.None? then None
    else if 0 <= high.value < 0xD800 || 0xE000 <= high.value < 0x10000 then Some((high.value as char, 4))
    else if high.value < 0xD800 || 0xDC00 <= high.value || |text| < 10 || text[4..6] != "\\u" then None
    else
      var low := Hex4(text[6..]);
      if low.None? || low.value < 0xDC00 || 0xE000 <= low.value then None
      else
        var code := 0x10000 + (high.value - 0xD800) * 0x400 + (low.value - 0xDC00);
        if code < 0x110000 then Some((code as char, 10)) else None
  }

  function Unescape(c: char): Option<char>
  {
    match c
    case '\"' => Some('\"')
    case '\\' => Some('\\')
    case '/' => Some('/')
    case 'n' => Some('\n')
    case 'r' => Some('\r')
    case 't' => Some('\t')
    case 'b' => Some(8 as char)
    case 'f' => Some(12 as char)
    case _ => None
  }

  datatype Parsed<T> = Parsed(value: T, rest: string) | Failed

  /** The rest of a string literal after its opening quote. */
  function ParseString(text: string): (r: Parsed<string>)
    ensures r.Parsed? ==> |r.rest| < |text|
    decreases |text|
  {
    if text == "" || text[0] < ' ' then Failed
    else if text[0] == '\"' then Parsed("", text[1..])
    else if text[0] != '\\' then Push(text[0], ParseString(text[1..]))
    else if |text| < 2 then Failed
    else if text[1] == 'u' then
      var escape := UnicodeEscape(text[2..]);
      if escape.None? then Failed else Push(escape.value.0, ParseString(text[2 + escape.value.1..]))
    else
      var c := Unescape(text[1]);
      if c.None? then Failed else Push(c.value, ParseString(text[2..]))
  }

  function Push(c: char, r: Parsed<string>): (s: Parsed<string>)
    ensures s.Parsed? <==> r.Parsed?
    ensures s.Parsed? ==> s.rest == r.rest
  {
    if r.Parsed? then Parsed([c] + r.value, r.rest) else Failed
  }

  // -------------------------------------------------------------- values

  function Render(v: Json): string
  {
    match v
    case Null => "null"
    case Bool(b) => if b then "true" else "false"
    case Int(n) => IntText(n)
    case Str(text) => Quote(text)
    case Arr(items) => if items.NoItems? then "[]" else "[" + Render(items.head) + RenderItems(items.tail)
    case Obj(fields) =>
      if fields.NoFields? then "{}"
      else "{" + Quote(fields.key) + ":" + Render(fields.value) + RenderFields(fields.rest)
  }

  function RenderItems(items: Items): string
  {
    match items
    case NoItems => "]"
    case Item(head, tail) => "," + Render(head) + RenderItems(tail)
  }

  function RenderFields(fields: Fields): string
  {
    match fields
    case NoFields => "}"
    case Field(key, value, rest) => "," + Quote(key) + ":" + Render(value) + RenderFields(rest)
  }

  /** The canonical text of a value. */
  function CanonicalText(v: Json): string
  {
    Render(Canon(v))
  }

  predicate IsSpace(c: char) { c == ' ' || c == '\n' || c == '\r' || c == '\t' }

  function SkipSpace(text: string): (r: string)
    ensures |r| <= |text|
  {
    if text != "" && IsSpace(text[0]) then SkipSpace(text[1..]) else text
  }

  function Literal(text: string, word: string, v: Json): (r: Parsed<Json>)
    requires word != ""
    ensures r.Parsed? ==> |r.rest| < |text|
  {
    if word <= text then Parsed(v, text[|word|..]) else Failed
  }

  /** `0 | [1-9][0-9]*`; a fraction or an exponent makes a float, which is not read. */
  function ParseNat(text: string): (r: Parsed<nat>)
    ensures r.Parsed? ==> |r.rest| < |text|
  {
    var run := DigitRun(text);
    var k := if run > 0 && text[0] == '0' then 1 else run;
    if k == 0 || (k < |text| && text[k] in ".eE") then Failed else Parsed(DecimalValue(text[..k]), text[k..])
  }

  function ParseInt(text: string): (r: Parsed<Json>)
    ensures r.Parsed? ==> |r.rest| < |text|
  {
    var negative := text != "" && text[0] == '-';
    var n := ParseNat(if negative then text[1..] else text);
    if n.Failed? then Failed else Parsed(Int(if negative then -(n.value as int) else n.value), n.rest)
  }

  /** The dictionary of a list of pairs: a repeated key keeps its first place and its last value. */
  function Dictionary(fields: Fields): (d: Fields)
    ensures Keys(d) == Keys(fields)
  {
    match fields
    case NoFields => NoFields
    case Field(key, value, rest) =>
      var d := Dictionary(rest);
      if key in Keys(d) then Field(key, Get(d, key), Without(d, key)) else Field(key, value, d)
  }

  function Without(fields: Fields, key: string): (d: Fields)
    ensures Keys(d) == Keys(fields) - {key}
  {
    match fields
    case NoFields => NoFields
    case Field(k, value, rest) => if k == key then Without(rest, key) else Field(k, value, Without(rest, key))
  }

  function ParseValue(text: string): (r: Parsed<Json>)
    ensures r.Parsed? ==> |r.rest| < |text|
    decreases |text|, 1
  {
    if text == "" then Failed
    else match text[0]
      case '{' =>
        var inner := SkipSpace(text[1..]);
        if inner != "" && inner[0] == '}' then Parsed(Obj(NoFields), inner[1..])
        else
          var r := ParseFields(inner);
          if r.Failed? then Failed else Parsed(Obj(Dictionary(r.value)), r.rest)
      case '[' =>
        var inner := SkipSpace(text[1..]);
        if inner != "" && inner[0] == ']' then Parsed(Arr(NoItems), inner[1..])
        else
          var r := ParseItems(inner);
          if r.Failed? then Failed else Parsed(Arr(r.value), r.rest)
      case '\"' =>
        var r := ParseString(text[1..]);
        if r.Failed? then Failed else Parsed(Str(r.value), r.rest)
      case 'n' => Literal(text, "null", Null)
      case 't' => Literal(text, "true", Bool(true))
      case 'f' => Literal(text, "false", Bool(false))
      case _ => ParseInt(text)
  }

  /** At least one value, separated by commas, up to the closing bracket. */
  function ParseItems(text: string): (r: Parsed<Items>)
    ensures r.Parsed? ==> |r.rest| < |text|
    decreases |text|, 2
  {
    var head := ParseValue(text);
    if head.Failed? then Failed
    else
      var after := SkipSpace(head.rest);
      if after == "" then Failed
      else if after[0] == ']' then Parsed(Item(head.value, NoItems), after[1..])
      else if after[0] != ',' then Failed
      else
        var tail := ParseItems(SkipSpace(after[1..]));
        if tail.Failed? then Failed else Parsed(Item(head.value, tail.value), tail.rest)
  }

  /** A string, a colon and a value. */
  function ParseMember(text: string): (r: Parsed<(string, Json)>)
    ensures r.Parsed? ==> |r.rest| < |text|
    decreases |text|, 2
  {
    if text == "" || text[0] != '\"' then Failed
    else
      var key := ParseString(text[1..]);
      if key.Failed? then Failed
      else
        var colon := SkipSpace(key.rest);
        if colon == "" || colon[0] != ':' then Failed
        else
          var value := ParseValue(SkipSpace(colon[1..]));
          if value.Failed? then Failed else Parsed((key.value, value.value), value.rest)
  }

  /** At least one member, separated by commas, up to the closing brace. */
  function ParseFields(text: string): (r: Parsed<Fields>)
    ensures r.Parsed? ==> |r.rest| < |text|
    decreases |text|, 3
  {
    var member := ParseMember(text);
    if member.Failed? then Failed
    else
      var after := SkipSpace(member.rest);
      if after == "" then Failed
      else if after[0] == '}' then Parsed(Field(member.value.0, member.value.1, NoFields), after[1..])
      else if after[0] != ',' then Failed
      else
        var rest := ParseFields(SkipSpace(after[1..]));
        if rest.Failed? then Failed else Parsed(Field(member.value.0, member.value.1, rest.value), rest.rest)
  }

  /** A whole JSON text: one value, with nothing but space around it. */
  function Parse(text: string): Option<Json>
  {
    var r := ParseValue(SkipSpace(text));
    if r.Parsed? && SkipSpace(r.rest) == "" then Some(r.value) else None
  }

  // ---------------------------------------------------------- round trip

  /** What may come after a printed value. */
  predicate Stops(tail: string)
  {
    tail == "" || tail[0] in ",]}"
  }

  lemma {:induction false} DigitRunOf(digits: string, tail: string)
    requires forall c :: c in digits ==> IsDigit(c)
    requires tail == "" || !IsDigit(tail[0])
    ensures DigitRun(digits + tail) == |digits|
  {
    if digits == "" {
      assert digits + tail == tail;
    } else {
      assert (digits + tail)[1..] == digits[1..] + tail;
      DigitRunOf(digits[1..], tail);
    }
  }

  lemma {:induction false} DecimalRoundTrip(n: nat)
    ensures DecimalValue(Decimal(n)) == n
    ensures Decimal(n)[0] == '0' ==> n == 0 && |Decimal(n)| == 1
  {
    if n >= 10 {
      DecimalRoundTrip(n / 10);
      assert Decimal(n)[..|Decimal(n)| - 1] == Decimal(n / 10);
    }
  }

  lemma NatRoundTrip(n: nat, tail: string)
    requires Stops(tail)
    ensures ParseNat(Decimal(n) + tail) == Parsed(n, tail) && IsDigit((Decimal(n) + tail)[0])
  {
    hide Decimal, DecimalValue, DigitRun;
    var digits := Decimal(n);
    DecimalRoundTrip(n);
    DigitRunOf(digits, tail);
    assert (digits + tail)[..|digits|] == digits && (digits + tail)[|digits|..] == tail;
  }

  lemma IntRoundTrip(n: int, tail: string)
    requires Stops(tail)
    ensures ParseInt(IntText(n) + tail) == Parsed(Int(n), tail)
    ensures (IntText(n) + tail)[0] == '-' || IsDigit((IntText(n) + tail)[0])
  {
    hide Decimal, ParseNat;
    NatRoundTrip(if n < 0 then -n else n, tail);
    if n < 0 { assert (IntText(n) + tail)[1..] == Decimal(-n) + tail; }
  }

  lemma ControlEscape(c: char, tail: string)
    requires c < ' '
    ensures UnicodeEscape("00" + [HexChar(c as int / 16), HexChar(c as int % 16)] + tail) == Some((c, 4))
  {
    var text := "00" + [HexChar(c as int / 16), HexChar(c as int % 16)] + tail;
    assert text[0] == '0' && text[1] == '0' && text[2] == HexChar(c as int / 16) && text[3] == HexChar(c as int % 16);
    assert HexOf(text[2]) == Some(c as int / 16) && HexOf(text[3]) == Some(c as int % 16);
  }

  lemma ShortEscape(c: char, e: char, tail: string)
    requires Unescape(e) == Some(c) && e != 'u'
    ensures ParseString("\\" + [e] + tail) == Push(c, ParseString(tail))
  {
    hide Push, UnicodeEscape, Unescape;
    assert ("\\" + [e] + tail)[2..] == tail;
  }

  lemma LongEscape(c: char, digits: string, tail: string)
    requires |digits| == 4 && UnicodeEscape(digits + tail) == Some((c, 4))
    ensures ParseString("\\u" + digits + tail) == Push(c, ParseString(tail))
  {
    hide Push, UnicodeEscape, Unescape;
    var text := "\\u" + digits + tail;
    assert text[2..] == digits + tail && text[6..] == tail;
  }

  lemma PlainChar(c: char, tail: string)
    requires c >= ' ' && c != '\"' && c != '\\'
    ensures ParseString([c] + tail) == Push(c, ParseString(tail))
  {
    hide Push, UnicodeEscape, Unescape;
    assert ([c] + tail)[1..] == tail;
  }

  lemma EscapedChar(c: char, tail: string)
    ensures ParseString(EscapeChar(c) + tail) == Push(c, ParseString(tail))
  {
    hide ParseString, Push, UnicodeEscape;
    if |EscapeChar(c)| == 6 {
      var digits := "00" + [HexChar(c as int / 16), HexChar(c as int % 16)];
      ControlEscape(c, tail);
      LongEscape(c, digits, tail);
      assert EscapeChar(c) + tail == "\\u" + digits + tail;
    } else if |EscapeChar(c)| == 2 {
      ShortEscape(c, EscapeChar(c)[1], tail);
      assert EscapeChar(c) == "\\" + [EscapeChar(c)[1]];
    } else {
      PlainChar(c, tail);
    }
  }

  lemma {:induction false} StringRoundTrip(text: string, tail: string)
    ensures ParseString(Escape(text) + "\"" + tail) == Parsed(text, tail)
  {
    if text == "" {
      assert ("\"" + tail)[1..] == tail;
      assert Escape(text) + "\"" + tail == "\"" + tail;
    } else {
      assert Escape(text) + "\"" + tail == EscapeChar(text[0]) + (Escape(text[1..]) + "\"" + tail);
      EscapedChar(text[0], Escape(text[1..]) + "\"" + tail);
      StringRoundTrip(text[1..], tail);
      assert [text[0]] + text[1..] == text;
    }
  }

  lemma Behind(c: char, rest: string)
    ensures ([c] + rest)[0] == c && ([c] + rest)[1..] == rest
  {
  }

  lemma QuoteRoundTrip(text: string, tail: string)
    ensures Quote(text) != "" && (Quote(text) + tail)[0] == '\"'
    ensures ParseString((Quote(text) + tail)[1..]) == Parsed(text, tail)
  {
    hide Escape, ParseString;
    StringRoundTrip(text, tail);
    var inner := Escape(text) + "\"" + tail;
    assert Quote(text) + tail == "\"" + inner;
    Behind('\"', inner);
  }

  lemma {:induction false} DistinctIsDictionary(fields: Fields)
    requires FieldsWellFormed(fields)
    ensures Dictionary(fields) == fields
  {
    if fields.Field? { DistinctIsDictionary(fields.rest); }
  }

  /** No printed value starts with a space or a closing bracket. */
  lemma RenderStarts(v: Json, tail: string)
    ensures Render(v) != "" && !IsSpace((Render(v) + tail)[0]) && (Render(v) + tail)[0] !in ",]}"
  {
    if v.Int? { IntRoundTrip(v.number, ""); assert IntText(v.number) + "" == IntText(v.number); }
  }

  lemma AtomRoundTrip(v: Json, tail: string)
    requires !v.Arr? && !v.Obj? && Stops(tail)
    ensures ParseValue(Render(v) + tail) == Parsed(v, tail)
  {
    hide IntText, Escape, ParseString, ParseInt, Quote;
    var text := Render(v) + tail;
    if v.Int? {
      IntRoundTrip(v.number, tail);
    } else if v.Str? {
      QuoteRoundTrip(v.text, tail);
      assert text == Quote(v.text) + tail;
    } else if v.Bool? {
      assert text[if v.value then 4 else 5..] == tail;
    } else {
      assert text[4..] == tail;
    }
  }

  lemma OpensArray(inner: string)
    requires inner != "" && !IsSpace(inner[0]) && inner[0] != ']'
    ensures ParseValue("[" + inner)
      == if ParseItems(inner).Failed? then Failed else Parsed(Arr(ParseItems(inner).value), ParseItems(inner).rest)
  {
    hide ParseItems;
    assert ("[" + inner)[1..] == inner;
  }

  lemma OpensObject(inner: string)
    requires inner != "" && !IsSpace(inner[0]) && inner[0] != '}'
    ensures ParseValue("{" + inner)
      == if ParseFields(inner).Failed? then Failed
         else Parsed(Obj(Dictionary(ParseFields(inner).value)), ParseFields(inner).rest)
  {
    hide ParseFields, Dictionary;
    assert ("{" + inner)[1..] == inner;
  }

  lemma EmptyTexts(tail: string)
    ensures ParseValue("[]" + tail) == Parsed(Arr(NoItems), tail)
    ensures ParseValue("{}" + tail) == Parsed(Obj(NoFields), tail)
  {
    assert ("[]" + tail)[1..] == "]" + tail && ("]" + tail)[1..] == tail;
    assert ("{}" + tail)[1..] == "}" + tail && ("}" + tail)[1..] == tail;
  }

  lemma RenderNested(v: Json, tail: string)
    ensures v.Arr? && v.items.Item? ==>
      Render(v) + tail == "[" + (Render(v.items.head) + RenderItems(v.items.tail) + tail)
    ensures v.Obj? && v.fields.Field? ==>
      Render(v) + tail
      == "{" + (Quote(v.fields.key) + ":" + Render(v.fields.value) + RenderFields(v.fields.rest) + tail)
    ensures v.Arr? && v.items.NoItems? ==> Render(v) == "[]"
    ensures v.Obj? && v.fields.NoFields? ==> Render(v) == "{}"
  {
    hide Quote, RenderItems, RenderFields;
  }

  lemma ArrayText(items: Items, tail: string)
    requires items.Item? ==> ParseItems(Render(items.head) + RenderItems(items.tail) + tail) == Parsed(items, tail)
    ensures ParseValue(Render(Arr(items)) + tail) == Parsed(Arr(items), tail)
  {
    hide ParseValue, ParseItems, Render, RenderItems;
    RenderNested(Arr(items), tail);
    if items.NoItems? {
      EmptyTexts(tail);
    } else {
      var more := RenderItems(items.tail) + tail;
      var inner := Render(items.head) + RenderItems(items.tail) + tail;
      RenderStarts(items.head, more);
      assert inner == Render(items.head) + more;
      OpensArray(inner);
    }
  }

  lemma ObjectText(fields: Fields, tail: string)
    requires FieldsWellFormed(fields)
    requires fields.Field? ==>
      ParseFields(Quote(fields.key) + ":" + Render(fields.value) + RenderFields(fields.rest) + tail)
      == Parsed(fields, tail)
    ensures ParseValue(Render(Obj(fields)) + tail) == Parsed(Obj(fields), tail)
  {
    hide ParseFields, ParseValue, Quote, Dictionary, ParseString, Render, RenderFields;
    RenderNested(Obj(fields), tail);
    if fields.NoFields? {
      EmptyTexts(tail);
    } else {
      var more := ":" + Render(fields.value) + RenderFields(fields.rest) + tail;
      var inner := Quote(fields.key) + ":" + Render(fields.value) + RenderFields(fields.rest) + tail;
      QuoteRoundTrip(fields.key, more);
      assert inner == Quote(fields.key) + more;
      OpensObject(inner);
      DistinctIsDictionary(fields);
    }
  }

  /** Parsing what was printed gives the value back and stops right behind it. */
  lemma {:induction false} RoundTrip(v: Json, tail: string)
    requires WellFormed(v) && Stops(tail)
    ensures ParseValue(Render(v) + tail) == Parsed(v, tail)
    decreases Size(v)
  {
    hide Render, ParseValue, ParseItems, ParseFields;
    match v
    case Arr(items) =>
      if items.Item? { ItemsRoundTrip(items, tail); }
      ArrayText(items, tail);
    case Obj(fields) =>
      if fields.Field? { FieldsRoundTrip(fields, tail); }
      ObjectText(fields, tail);
    case _ => AtomRoundTrip(v, tail);
  }

  lemma {:induction false} ItemsRoundTrip(items: Items, tail: string)
    requires items.Item? && ItemsWellFormed(items)
    ensures ParseItems(Render(items.head) + RenderItems(items.tail) + tail) == Parsed(items, tail)
    decreases ItemsSize(items)
  {
    hide Render, ParseValue;
    var more := RenderItems(items.tail) + tail;
    assert Render(items.head) + RenderItems(items.tail) + tail == Render(items.head) + more;
    assert Stops(more) && SkipSpace(more) == more;
    RoundTrip(items.head, more);
    if items.tail.Item? {
      var rest := Render(items.tail.head) + RenderItems(items.tail.tail) + tail;
      assert more[1..] == rest;
      RenderStarts(items.tail.head, RenderItems(items.tail.tail) + tail);
      assert rest == Render(items.tail.head) + (RenderItems(items.tail.tail) + tail);
      ItemsRoundTrip(items.tail, tail);
    } else {
      assert more[1..] == tail;
    }
  }

  /** One printed member is read as one member. */
  lemma MemberText(key: string, value: string, v: Json, more: string)
    requires value != "" && !IsSpace(value[0]) && ParseValue(value + more) == Parsed(v, more)
    ensures ParseMember(Quote(key) + ":" + value + more) == Parsed((key, v), more)
  {
    hide ParseValue, Quote, ParseString;
    var after := ":" + (value + more);
    QuoteRoundTrip(key, after);
    assert Quote(key) + ":" + value + more == Quote(key) + after;
    Behind(':', value + more);
  }

  lemma FieldsText(text: string, key: string, v: Json, more: string)
    requires ParseMember(text) == Parsed((key, v), more)
    requires more != "" && (more[0] == '}' || (more[0] == ',' && |more| > 1 && !IsSpace(more[1])))
    ensures ParseFields(text) ==
      if more[0] == '}' then Parsed(Field(key, v, NoFields), more[1..])
      else if ParseFields(more[1..]).Failed? then Failed
      else Parsed(Field(key, v, ParseFields(more[1..]).value), ParseFields(more[1..]).rest)
  {
    hide ParseMember;
  }

  lemma {:induction false} FieldsRoundTrip(fields: Fields, tail: string)
    requires fields.Field? && FieldsWellFormed(fields)
    ensures ParseFields(Quote(fields.key) + ":" + Render(fields.value) + RenderFields(fields.rest) + tail)
      == Parsed(fields, tail)
    decreases FieldsSize(fields)
  {
    hide Render, ParseValue, ParseFields, Quote;
    var more := RenderFields(fields.rest) + tail;
    RenderStarts(fields.value, "");
    assert Render(fields.value) + "" == Render(fields.value);
    RoundTrip(fields.value, more);
    assert Quote(fields.key) + ":" + Render(fields.value) + RenderFields(fields.rest) + tail
        == Quote(fields.key) + ":" + Render(fields.value) + more;
    if fields.rest.Field? {
      var next := fields.rest;
      var last := Quote(next.key) + ":" + Render(next.value) + RenderFields(next.rest) + tail;
      assert more == "," + last && more[1..] == last;
      QuoteRoundTrip(next.key, "");
      assert Quote(next.key) + "" == Quote(next.key);
      assert more[1] == Quote(next.key)[0];
      FieldsRoundTrip(next, tail);
    } else {
      assert more == "}" + tail && more[1..] == tail;
    }
    MemberText(fields.key, Render(fields.value), fields.value, more);
    FieldsText(Quote(fields.key) + ":" + Render(fields.value) + more, fields.key, fields.value, more);
  }

  /** Canonical text parses back to the sorted value. */
  lemma CanonicalRoundTrip(v: Json)
    requires WellFormed(v)
    ensures Parse(CanonicalText(v)) == Some(Canon(v))
  {
    hide Render, ParseValue;
    CanonIsCanonical(v);
    RoundTrip(Canon(v), "");
    RenderStarts(Canon(v), "");
    assert Render(Canon(v)) + "" == Render(Canon(v));
  }

  /** Two values have the same canonical text exactly when they are equal as dictionaries, lists and scalars. */
  lemma CanonicalTextExactly(v: Json, w: Json)
    requires WellFormed(v) && WellFormed(w)
    ensures CanonicalText(v) == CanonicalText(w) <==> Same(v, w)
  {
    CanonicalRoundTrip(v);
    CanonicalRoundTrip(w);
    CanonExactly(v, w);
  }

  // -------------------------------------------------- what parsing returns

  predicate ValuesWellFormed(fields: Fields)
  {
    fields.Field? ==> WellFormed(fields.value) && ValuesWellFormed(fields.rest)
  }

  lemma {:induction false} WithoutWellFormed(fields: Fields, key: string)
    requires FieldsWellFormed(fields)
    ensures FieldsWellFormed(Without(fields, key))
  {
    if fields.Field? { WithoutWellFormed(fields.rest, key); }
  }

  lemma {:induction false} DictionaryWellFormed(fields: Fields)
    requires ValuesWellFormed(fields)
    ensures FieldsWellFormed(Dictionary(fields))
  {
    if fields.Field? {
      DictionaryWellFormed(fields.rest);
      if fields.key in Keys(Dictionary(fields.rest)) {
        EntryWellFormed(Dictionary(fields.rest), fields.key);
        WithoutWellFormed(Dictionary(fields.rest), fields.key);
      }
    }
  }

  /** Whatever is parsed, its objects are dictionaries. */
  lemma {:induction false} ParsedWellFormed(text: string)
    ensures ParseValue(text).Parsed? ==> WellFormed(ParseValue(text).value)
    decreases |text|, 1
  {
    hide ParseString, ParseInt, SkipSpace, ParseItems, ParseFields;
    if text != "" && text[0] == '{' {
      ParsedFieldsWellFormed(SkipSpace(text[1..]));
      var r := ParseFields(SkipSpace(text[1..]));
      if r.Parsed? { DictionaryWellFormed(r.value); }
    } else if text != "" && text[0] == '[' {
      ParsedItemsWellFormed(SkipSpace(text[1..]));
    } else {
      IntWellFormed(text);
    }
  }

  lemma IntWellFormed(text: string)
    ensures ParseInt(text).Parsed? ==> WellFormed(ParseInt(text).value)
  {
  }

  lemma {:induction false} ParsedItemsWellFormed(text: string)
    ensures ParseItems(text).Parsed? ==> ItemsWellFormed(ParseItems(text).value)
    decreases |text|, 2
  {
    hide ParseValue, SkipSpace;
    ParsedWellFormed(text);
    var head := ParseValue(text);
    if head.Parsed? && SkipSpace(head.rest) != "" { ParsedItemsWellFormed(SkipSpace(SkipSpace(head.rest)[1..])); }
  }

  lemma {:induction false} ParsedMemberWellFormed(text: string)
    ensures ParseMember(text).Parsed? ==> WellFormed(ParseMember(text).value.1)
    decreases |text|, 2
  {
    hide ParseValue, ParseString, SkipSpace;
    if text != "" && ParseString(text[1..]).Parsed? {
      var colon := SkipSpace(ParseString(text[1..]).rest);
      if colon != "" { ParsedWellFormed(SkipSpace(colon[1..])); }
    }
  }

  lemma {:induction false} ParsedFieldsWellFormed(text: string)
    ensures ParseFields(text).Parsed? ==> ValuesWellFormed(ParseFields(text).value)
    decreases |text|, 3
  {
    hide ParseMember, SkipSpace;
    ParsedMemberWellFormed(text);
    var member := ParseMember(text);
    if member.Parsed? && SkipSpace(member.rest) != "" {
      ParsedFieldsWellFormed(SkipSpace(SkipSpace(member.rest)[1..]));
    }
  }

  // ------------------------------------------------------- no raw newline

  predicate Printable(text: string)
  {
    forall c :: c in text ==> c >= ' '
  }

  lemma PrintableJoin(a: string, b: string)
    requires Printable(a) && Printable(b)
    ensures Printable(a + b)
  {
  }

  lemma {:induction false} DecimalPrintable(n: nat)
    ensures Printable(Decimal(n))
  {
  }

  lemma {:induction false} EscapePrintable(text: string)
    ensures Printable(Escape(text))
  {
    if text != "" {
      EscapePrintable(text[1..]);
      PrintableJoin(EscapeChar(text[0]), Escape(text[1..]));
    }
  }

  /** Printed text holds no control character, so no newline: a value is one line. */
  lemma {:induction false} RenderPrintable(v: Json)
    ensures Printable(Render(v))
  {
    hide Escape, IntText;
    match v
    case Int(n) => IntPrintable(n);
    case Str(text) => EscapePrintable(text);
    case Arr(items) =>
      if items.Item? {
        RenderPrintable(items.head);
        ItemsPrintable(items.tail);
      }
    case Obj(fields) =>
      if fields.Field? {
        EscapePrintable(fields.key);
        RenderPrintable(fields.value);
        FieldsPrintable(fields.rest);
      }
    case _ =>
  }

  lemma IntPrintable(n: int)
    ensures Printable(IntText(n))
  {
    DecimalPrintable(if n < 0 then -n else n);
  }

  lemma {:induction false} ItemsPrintable(items: Items)
    ensures Printable(RenderItems(items))
  {
    hide Render;
    if items.Item? {
      RenderPrintable(items.head);
      ItemsPrintable(items.tail);
    }
  }

  lemma {:induction false} FieldsPrintable(fields: Fields)
    ensures Printable(RenderFields(fields))
  {
    hide Render, Escape;
    if fields.Field? {
      EscapePrintable(fields.key);
      RenderPrintable(fields.value);
      FieldsPrintable(fields.rest);
    }
  }

  lemma CanonicalTextIsOneLine(v: Json)
    ensures '\n' !in CanonicalText(v) && CanonicalText(v) != ""
  {
    RenderPrintable(Canon(v));
    RenderStarts(Canon(v), "");
  }
}
