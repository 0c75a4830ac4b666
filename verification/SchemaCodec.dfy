/** Arrow schemas as Delta schema JSON and back (DeltaSchema.cpp: Converter and Parser), over JSON
    trees. Error texts are not modelled: None is a failure. */
module SchemaCodec {
  import opened Options
  import opened Decimal

  datatype Unit = Second | Milli | Micro | Nano

  datatype ArrowType =
    | Utf8 | LargeUtf8 | Int8 | Int16 | Int32 | Int64 | Float | Double | Boolean
    | Binary | LargeBinary | FixedSizeBinary(width: nat) | Date32 | Null
    | Timestamp(unit: Unit, timezone: string)
    | Decimal128(precision: int, scale: int)
    | Dictionary(value: ArrowType)
    | List(elementName: string, element: ArrowType, containsNull: bool)
    | LargeList(elementName: string, element: ArrowType, containsNull: bool)
    | Map(key: ArrowType, itemName: string, item: ArrowType, itemNullable: bool)
    | Struct(fields: seq<Field>)
    | Unsupported(id: nat)  // unsigned integers, times, intervals, unions, ...

  datatype Field = Field(name: string, ty: ArrowType, nullable: bool, metadata: Option<seq<(string, string)>>)

  datatype Json =
    | JString(text: string)
    | JBool(b: bool)
    | JNumber(n: int)
    | JArray(items: seq<Json>)
    | JObject(members: seq<(string, Json)>)

  // ---- printing ------------------------------------------------------------------------------

  const INVALID: string := " ,;{}()\n\t="

  function LowerChar(c: char): char {
    if 'A' <= c <= 'Z' then (c as int + 32) as char else c
  }

  function Lower(s: string): (r: string)
    ensures |r| == |s| && forall i | 0 <= i < |s| :: r[i] == LowerChar(s[i])
  {
    seq(|s|, i requires 0 <= i < |s| => LowerChar(s[i]))
  }

  predicate ValidName(name: string) {
    name != "" && forall c <- name :: c !in INVALID
  }

  function DecimalName(precision: int, scale: int): string {
    "decimal(" + (IntText(precision) + ("," + IntText(scale) + ")"))
  }

  function PrintType(ty: ArrowType): Option<Json>
    decreases ty
  {
    match ty
    case Utf8 | LargeUtf8 => Some(JString("string"))
    case Int8 => Some(JString("byte"))
    case Int16 => Some(JString("short"))
    case Int32 => Some(JString("integer"))
    case Int64 => Some(JString("long"))
    case Float => Some(JString("float"))
    case Double => Some(JString("double"))
    case Boolean => Some(JString("boolean"))
    case Binary | LargeBinary | FixedSizeBinary(_) => Some(JString("binary"))
    case Date32 => Some(JString("date"))
    case Timestamp(_, timezone) => Some(JString(if timezone == "" then "timestamp_ntz" else "timestamp"))
    case Decimal128(precision, scale) => if precision > 38 then None else Some(JString(DecimalName(precision, scale)))
    case Dictionary(value) => PrintType(value)
    case List(_, element, containsNull) => PrintList(PrintType(element), containsNull)
    case LargeList(_, element, containsNull) => PrintList(PrintType(element), containsNull)
    case Map(key, _, item, itemNullable) => PrintMap(PrintType(key), PrintType(item), itemNullable)
    case Struct(fields) => PrintFields(fields)
    case Null => None
    case Unsupported(_) => None
  }

  function PrintList(element: Option<Json>, containsNull: bool): Option<Json> {
    if element.None? then None
    else Some(JObject([("type", JString("array")), ("elementType", element.value), ("containsNull", JBool(containsNull))]))
  }

  function PrintMap(key: Option<Json>, item: Option<Json>, itemNullable: bool): Option<Json> {
    if key.None? || item.None? then None
    else Some(JObject([("type", JString("map")), ("keyType", key.value), ("valueType", item.value),
                       ("valueContainsNull", JBool(itemNullable))]))
  }

  function PrintFields(fields: seq<Field>): Option<Json>
    decreases fields, 1
  {
    if fields == [] then None
    else
      var items := PrintFieldList(fields, {});
      if items.None? then None
      else Some(JObject([("type", JString("struct")), ("fields", JArray(items.value))]))
  }

  /** names: the lower-case names of the fields before. */
  function PrintFieldList(fields: seq<Field>, names: set<string>): Option<seq<Json>>
    decreases fields, 0
  {
    if fields == [] then Some([])
    else
      var field := fields[0];
      if !ValidName(field.name) || Lower(field.name) in names then None
      else
        var ty := PrintType(field.ty);
        var rest := PrintFieldList(fields[1..], names + {Lower(field.name)});
        if ty.None? || rest.None? then None
        else Some([PrintField(field, ty.value)] + rest.value)
  }

  function PrintField(field: Field, ty: Json): Json {
    JObject([("name", JString(field.name)), ("type", ty), ("nullable", JBool(field.nullable)),
             ("metadata", PrintedMetadata(field))])
  }

  function PrintedMetadata(field: Field): Json {
    JObject(if field.metadata.Some? then PrintMetadata(field.metadata.value) else [])
  }

  function PrintMetadata(entries: seq<(string, string)>): (r: seq<(string, Json)>)
    ensures |r| == |entries| && forall i | 0 <= i < |r| :: r[i] == (entries[i].0, JString(entries[i].1))
  {
    seq(|entries|, i requires 0 <= i < |entries| => (entries[i].0, JString(entries[i].1)))
  }

  // ---- parsing -------------------------------------------------------------------------------

  /** The first member of that name. */
  function Member(members: seq<(string, Json)>, name: string): (r: Option<Json>)
    ensures r.Some? ==> exists i :: 0 <= i < |members| && members[i] == (name, r.value)
  {
    if members == [] then None
    else if members[0].0 == name then
      assert members[0] == (name, members[0].1);
      Some(members[0].1)
    else
      var r := Member(members[1..], name);
      assert r.Some? ==> exists i :: 0 <= i < |members| && members[i] == (name, r.value) by {
        if r.Some? {
          var i :| 0 <= i < |members[1..]| && members[1..][i] == (name, r.value);
          assert members[i + 1] == (name, r.value);
        }
      }
      r
  }

  /** nullable, containsNull, valueContainsNull: true unless it says otherwise. */
  function Flag(members: seq<(string, Json)>, name: string): bool {
    var r := Member(members, name);
    r.None? || !r.value.JBool? || r.value.b
  }

  predicate IsSpace(c: char) { c == ' ' || '\t' <= c <= '\r' }

  function SkipSpace(s: string): (r: string)
    ensures |r| <= |s|
  {
    if s != "" && IsSpace(s[0]) then SkipSpace(s[1..]) else s
  }

  /** The number of digits at the front. */
  function DigitRun(s: string): (n: nat)
    ensures n <= |s| && Digits(s[..n])
  {
    if s != "" && IsDigit(s[0]) then
      var n := DigitRun(s[1..]);
      assert s[..n + 1] == [s[0]] + s[1..][..n];
      n + 1
    else 0
  }

  /** %d of sscanf: space, a sign, at least one digit; the number and what follows it. */
  function ScanInt(text: string): Option<(int, string)> {
    var s := SkipSpace(text);
    var signed := s != "" && (s[0] == '-' || s[0] == '+');
    var digits := if signed then s[1..] else s;
    var n := DigitRun(digits);
    if n == 0 then None
    else
      var v := Value(digits[..n]);
      Some((if signed && s[0] == '-' then 0 - v else v, digits[n..]))
  }

  /** sscanf(name, "decimal(%d ,%d )") == 2: what follows the second number does not matter. */
  function ScanDecimal(name: string): Option<(int, int)> {
    if "decimal(" <= name then ScanPair(name[8..]) else None
  }

  function ScanPair(text: string): Option<(int, int)> {
    var first := ScanInt(text);
    if first.None? then None
    else
      var second := ScanSecond(first.value.1);
      if second.None? then None else Some((first.value.0, second.value))
  }

  function ScanSecond(text: string): Option<int> {
    var s := SkipSpace(text);
    if s == "" || s[0] != ',' then None
    else
      var r := ScanInt(s[1..]);
      if r.None? then None else Some(r.value.0)
  }

  function Primitive(name: string): Option<ArrowType> {
    if name == "string" then Some(Utf8)
    else if name == "long" then Some(Int64)
    else if name == "integer" then Some(Int32)
    else if name == "short" then Some(Int16)
    else if name == "byte" then Some(Int8)
    else if name == "float" then Some(Float)
    else if name == "double" then Some(Double)
    else if name == "boolean" then Some(Boolean)
    else if name == "binary" then Some(Binary)
    else if name == "date" then Some(Date32)
    else if name == "timestamp" then Some(Timestamp(Micro, "UTC"))
    else if name == "timestamp_ntz" then Some(Timestamp(Micro, ""))
    else if name == "void" then Some(Null)
    else if name == "decimal" then Some(Decimal128(10, 0))
    else if "char(" <= name || "varchar(" <= name then Some(Utf8)
    else
      var decimal := ScanDecimal(name);
      if decimal.None? || decimal.value.0 < 1 || decimal.value.0 > 38 || decimal.value.1 < 0 || decimal.value.1 > decimal.value.0 then None
      else Some(Decimal128(decimal.value.0, decimal.value.1))
  }

  function ParseType(json: Json): Option<ArrowType>
    decreases json, 1
  {
    match json
    case JString(text) => Primitive(text)
    case JObject(members) =>
      var kind := Member(members, "type");
      if kind.None? || !kind.value.JString? then None
      else if kind.value.text == "struct" then
        var fields := ParseFields(json);
        if fields.None? then None else Some(Struct(fields.value))
      else if kind.value.text == "array" && Member(members, "elementType").Some? then
        var element := ParseType(Member(members, "elementType").value);
        if element.None? then None else Some(List("element", element.value, Flag(members, "containsNull")))
      else if kind.value.text == "map" && Member(members, "keyType").Some? && Member(members, "valueType").Some? then
        var key, item := ParseType(Member(members, "keyType").value), ParseType(Member(members, "valueType").value);
        if key.None? || item.None? then None
        else Some(Map(key.value, "value", item.value, Flag(members, "valueContainsNull")))
      else None
    case _ => None
  }

  /** The fields of {"type":"struct","fields":[...]}; the whole schema has the same form. */
  function ParseFields(json: Json): Option<seq<Field>>
    decreases json, 0
  {
    if !json.JObject? then None
    else
      var fields := Member(json.members, "fields");
      if fields.None? || !fields.value.JArray? then None else ParseFieldList(fields.value.items)
  }

  function ParseFieldList(items: seq<Json>): Option<seq<Field>>
    decreases items
  {
    if items == [] then Some([])
    else
      var field, rest := ParseField(items[0]), ParseFieldList(items[1..]);
      if field.None? || rest.None? then None else Some([field.value] + rest.value)
  }

  function ParseField(json: Json): Option<Field>
    decreases json, 2
  {
    if !json.JObject? then None
    else
      var name, ty := Member(json.members, "name"), Member(json.members, "type");
      if name.None? || !name.value.JString? || ty.None? then None
      else
        var parsed := ParseType(ty.value);
        if parsed.None? then None
        else Some(Field(name.value.text, parsed.value, Flag(json.members, "nullable"),
                        ParseMetadata(Member(json.members, "metadata"))))
  }

  /** Values that are not strings are kept as their JSON text, which is not modelled. */
  function ParseMetadata(json: Option<Json>): Option<seq<(string, string)>> {
    if json.Some? && json.value.JObject? && json.value.members != [] then
      var members := json.value.members;
      Some(seq(|members|, i requires 0 <= i < |members| => (members[i].0, if members[i].1.JString? then members[i].1.text else "")))
    else None
  }

  // ---- what survives ----------------------------------------------------------------------------

  /** The Arrow type Delta reads back: large and dictionary types collapsed, microseconds, UTC, fixed
      child names. */
  function Normal(ty: ArrowType): ArrowType
    decreases ty
  {
    match ty
    case LargeUtf8 => Utf8
    case LargeBinary => Binary
    case FixedSizeBinary(_) => Binary
    case Timestamp(_, timezone) => Timestamp(Micro, if timezone == "" then "" else "UTC")
    case Dictionary(value) => Normal(value)
    case List(_, element, containsNull) => List("element", Normal(element), containsNull)
    case LargeList(_, element, containsNull) => List("element", Normal(element), containsNull)
    case Map(key, _, item, itemNullable) => Map(Normal(key), "value", Normal(item), itemNullable)
    case Struct(fields) => Struct(NormalFields(fields))
    case _ => ty
  }

  function NormalFields(fields: seq<Field>): seq<Field>
    decreases fields
  {
    if fields == [] then [] else [NormalField(fields[0])] + NormalFields(fields[1..])
  }

  /** Empty metadata is dropped. */
  function NormalField(field: Field): Field
    decreases field
  {
    field.(ty := Normal(field.ty), metadata := if field.metadata == Some([]) then None else field.metadata)
  }

  /** Every decimal has 0 <= scale <= precision. */
  predicate DecimalsOk(ty: ArrowType)
    decreases ty
  {
    match ty
    case Decimal128(precision, scale) => 1 <= precision && 0 <= scale <= precision
    case Dictionary(value) => DecimalsOk(value)
    case List(_, element, _) => DecimalsOk(element)
    case LargeList(_, element, _) => DecimalsOk(element)
    case Map(key, _, item, _) => DecimalsOk(key) && DecimalsOk(item)
    case Struct(fields) => AllDecimalsOk(fields)
    case _ => true
  }

  predicate AllDecimalsOk(fields: seq<Field>)
    decreases fields
  {
    fields == [] || (DecimalsOk(fields[0].ty) && AllDecimalsOk(fields[1..]))
  }

  // ---- decimals as text --------------------------------------------------------------------------

  /** Member i is the first one of that name. */
  predicate IsFirst(members: seq<(string, Json)>, i: nat, name: string) {
    i < |members| && members[i].0 == name && forall j | 0 <= j < i :: members[j].0 != name
  }

  lemma {:induction false} MemberIsFirst(members: seq<(string, Json)>, name: string)
    ensures Member(members, name).None? <==> forall i | 0 <= i < |members| :: members[i].0 != name
    ensures forall i: nat :: IsFirst(members, i, name) ==> Member(members, name) == Some(members[i].1)
  {
    if members != [] {
      var rest := members[1..];
      MemberIsFirst(rest, name);
      assert forall i | 0 <= i < |rest| :: rest[i] == members[i + 1];
      forall i: nat | IsFirst(members, i, name) && members[0].0 != name ensures IsFirst(rest, i - 1, name) {}
    }
  }

  /** Fields, elements and values may be null unless the JSON says false: if it says nothing, or
      something that is no boolean, they may. */
  lemma NullableUnlessDenied(members: seq<(string, Json)>, name: string)
    ensures !Flag(members, name) <==> exists i: nat :: IsFirst(members, i, name) && members[i].1 == JBool(false)
    ensures (forall i | 0 <= i < |members| :: members[i].0 != name) ==> Flag(members, name)
  {
    MemberIsFirst(members, name);
    if Member(members, name).Some? { var i := FirstOf(members, name); }
  }

  predicate IsKind(json: Json) { json in {JString("struct"), JString("array"), JString("map")} }

  /** Nothing but names and struct, array and map types is read, and no field without a name. */
  lemma OtherShapesRejected(json: Json)
    ensures ParseType(json).Some? ==>
              json.JString? ||
              (json.JObject? && exists i: nat :: IsFirst(json.members, i, "type") && IsKind(json.members[i].1))
    ensures ParseField(json).Some? ==>
              json.JObject? &&
              exists i: nat :: IsFirst(json.members, i, "name") && json.members[i].1 == JString(ParseField(json).value.name)
  {
    if json.JObject? {
      MemberIsFirst(json.members, "type");
      MemberIsFirst(json.members, "name");
      if Member(json.members, "type").Some? { var i := FirstOf(json.members, "type"); }
      if Member(json.members, "name").Some? { var i := FirstOf(json.members, "name"); }
    }
  }

  lemma {:induction false} FirstOf(members: seq<(string, Json)>, name: string) returns (i: nat)
    requires exists k :: 0 <= k < |members| && members[k].0 == name
    ensures IsFirst(members, i, name)
  {
    i := 0;
    while members[i].0 != name
      invariant i < |members| && forall j | 0 <= j < i :: members[j].0 != name
      decreases |members| - i
    {
      i := i + 1;
    }
  }

  lemma {:induction false} DigitRunOf(digits: string, rest: string)
    requires Digits(digits) && (rest == "" || !IsDigit(rest[0]))
    ensures DigitRun(digits + rest) == |digits|
  {
    if digits == "" {
      assert digits + rest == rest;
    } else {
      assert (digits + rest)[1..] == digits[1..] + rest;
      DigitRunOf(digits[1..], rest);
    }
  }

  lemma NatTextScanned(n: nat, rest: string)
    requires rest == "" || !IsDigit(rest[0])
    ensures var digits := NatText(n); var text := digits + rest;
            && DigitRun(text) == |digits| && text[..|digits|] == digits && text[|digits|..] == rest
            && Value(digits) == n && IsDigit(text[0])
  {
    NatTextValue(n);
    DigitRunOf(NatText(n), rest);
    assert IsDigit(NatText(n)[0]);
  }

  lemma ScanNegative(n: nat, rest: string)
    requires n > 0 && (rest == "" || !IsDigit(rest[0]))
    ensures ScanInt("-" + NatText(n) + rest) == Some((0 - n, rest))
  {
    var text := "-" + NatText(n) + rest;
    assert text[1..] == NatText(n) + rest && SkipSpace(text) == text;
    NatTextScanned(n, rest);
  }

  lemma ScanIntText(n: int, rest: string)
    requires rest == "" || !IsDigit(rest[0])
    ensures ScanInt(IntText(n) + rest) == Some((n, rest))
  {
    if n < 0 {
      ScanNegative(-n, rest);
    } else {
      NatTextScanned(n, rest);
      var text := NatText(n) + rest;
      assert SkipSpace(text) == text;
    }
  }

  lemma ScanSecondText(scale: int)
    ensures ScanSecond("," + IntText(scale) + ")") == Some(scale)
  {
    var text := "," + IntText(scale) + ")";
    assert text[1..] == IntText(scale) + ")" && SkipSpace(text) == text;
    ScanIntText(scale, ")");
  }

  lemma DecimalPrefix(text: string)
    ensures var name := "decimal(" + text; "decimal(" <= name && name[8..] == text
  {}

  lemma ScanDecimalName(precision: int, scale: int)
    ensures ScanDecimal(DecimalName(precision, scale)) == Some((precision, scale))
  {
    var rest := "," + IntText(scale) + ")";
    DecimalPrefix(IntText(precision) + rest);
    ScanIntText(precision, rest);
    ScanSecondText(scale);
  }

  lemma PrimitiveDecimal(precision: int, scale: int)
    requires precision <= 38
    ensures Primitive(DecimalName(precision, scale)) ==
              if 1 <= precision && 0 <= scale <= precision then Some(Decimal128(precision, scale)) else None
  {
    var name := DecimalName(precision, scale);
    ScanDecimalName(precision, scale);
    assert name[0] == 'd' && name[7] == '(' && |name| > 9;
  }

  // ---- printed objects, member by member --------------------------------------------------------

  lemma ParsePrintedList(element: Json, containsNull: bool)
    ensures var json := PrintList(Some(element), containsNull).value; var inner := ParseType(element);
            ParseType(json) == if inner.None? then None else Some(List("element", inner.value, containsNull))
  {
    var json := PrintList(Some(element), containsNull).value;
    Members3(json.members);
  }

  /** The members of an object with different names are found by name. */
  lemma Members3(m: seq<(string, Json)>)
    requires |m| == 3 && m[0].0 != m[1].0 && m[0].0 != m[2].0 && m[1].0 != m[2].0
    ensures forall i | 0 <= i < 3 :: Member(m, m[i].0) == Some(m[i].1)
  {
    var rest := m[1..];
    assert rest[0] == m[1] && rest[1..][0] == m[2];
    assert Member(rest, m[1].0) == Some(m[1].1) && Member(rest[1..], m[2].0) == Some(m[2].1);
  }

  lemma Members4(m: seq<(string, Json)>)
    requires |m| == 4 && m[0].0 != m[1].0 && m[0].0 != m[2].0 && m[0].0 != m[3].0
    requires m[1].0 != m[2].0 && m[1].0 != m[3].0 && m[2].0 != m[3].0
    ensures forall i | 0 <= i < 4 :: Member(m, m[i].0) == Some(m[i].1)
  {
    Members3(m[1..]);
    forall i | 0 <= i < 4 ensures Member(m, m[i].0) == Some(m[i].1) {
      if i > 0 { assert m[1..][i - 1] == m[i]; }
    }
  }

  lemma ParsePrintedMap(key: Json, item: Json, itemNullable: bool)
    ensures var json := PrintMap(Some(key), Some(item), itemNullable).value;
            ParseType(json) == if ParseType(key).None? || ParseType(item).None? then None
                               else Some(Map(ParseType(key).value, "value", ParseType(item).value, itemNullable))
  {
    var m := PrintMap(Some(key), Some(item), itemNullable).value.members;
    DifferentNames();
    Members4(m);
    assert m[0].0 == "type" && m[1].0 == "keyType" && m[2].0 == "valueType" && m[3].0 == "valueContainsNull";
  }

  lemma DifferentNames()
    ensures "type" != "keyType" && "type" != "valueType" && "type" != "valueContainsNull"
    ensures "keyType" != "valueType" && "keyType" != "valueContainsNull" && "valueType" != "valueContainsNull"
    ensures "name" != "type" && "name" != "nullable" && "name" != "metadata"
    ensures "type" != "nullable" && "type" != "metadata" && "nullable" != "metadata"
    ensures "type" != "fields" && "map" != "struct" && "map" != "array" && "array" != "struct"
  {
    assert "name"[0] == 'n' && "type"[0] == 't';
    assert "nullable"[0] == 'n' && "metadata"[0] == 'm';
    assert "map"[0] == 'm' && "array"[0] == 'a' && "struct"[0] == 's';
    assert |"keyType"| == 7 && |"type"| == 4 && |"valueType"| == 9 && |"valueContainsNull"| == 17;
  }

  lemma ParsePrintedStruct(items: seq<Json>)
    ensures var json := JObject([("type", JString("struct")), ("fields", JArray(items))]);
            && ParseFields(json) == ParseFieldList(items)
            && ParseType(json) == if ParseFieldList(items).None? then None else Some(Struct(ParseFieldList(items).value))
  {
    var json := JObject([("type", JString("struct")), ("fields", JArray(items))]);
    DifferentNames();
    assert Member(json.members, "type") == Some(JString("struct"));
    assert Member(json.members, "fields") == Some(JArray(items));
  }

  lemma MetadataRoundTrip(entries: seq<(string, string)>)
    ensures ParseMetadata(Some(JObject(PrintMetadata(entries)))) == if entries == [] then None else Some(entries)
  {
    if entries != [] {
      assert ParseMetadata(Some(JObject(PrintMetadata(entries)))).value == entries;
    }
  }

  lemma ParsePrintedField(field: Field, ty: Json)
    ensures ParseField(PrintField(field, ty)) ==
              if ParseType(ty).None? then None
              else Some(Field(field.name, ParseType(ty).value, field.nullable,
                              if field.metadata == Some([]) then None else field.metadata))
  {
    var m := PrintField(field, ty).members;
    FieldMembers(m);
    assert Flag(m, "nullable") == field.nullable;
    assert ParseMetadata(Some(PrintedMetadata(field))) == if field.metadata == Some([]) then None else field.metadata by {
      MetadataRoundTrip(if field.metadata.Some? then field.metadata.value else []);
    }
  }

  lemma FieldMembers(m: seq<(string, Json)>)
    requires |m| == 4 && m[0].0 == "name" && m[1].0 == "type" && m[2].0 == "nullable" && m[3].0 == "metadata"
    ensures Member(m, "name") == Some(m[0].1) && Member(m, "type") == Some(m[1].1)
    ensures Member(m, "nullable") == Some(m[2].1) && Member(m, "metadata") == Some(m[3].1)
  {
    DifferentNames();
    Members4(m);
  }

  /** Names that are read, though never printed. */
  lemma OtherNames(length: string)
    ensures Primitive("char(" + length) == Some(Utf8) && Primitive("varchar(" + length) == Some(Utf8)
    ensures Primitive("decimal") == Some(Decimal128(10, 0)) && Primitive("void") == Some(Null)
  {
    assert ("char(" + length)[..5] == "char(" && ("varchar(" + length)[..8] == "varchar(";
    assert ("char(" + length)[4] == '(' && ("varchar(" + length)[7] == '(';
  }

  // ---- the theorem -----------------------------------------------------------------------------------

  predicate IsLeaf(ty: ArrowType) {
    !(ty.Dictionary? || ty.List? || ty.LargeList? || ty.Map? || ty.Struct?)
  }

  lemma LeafRoundTrip(ty: ArrowType)
    requires IsLeaf(ty) && PrintType(ty).Some?
    ensures ParseType(PrintType(ty).value) == if DecimalsOk(ty) then Some(Normal(ty)) else None
  {
    if ty.Decimal128? { PrimitiveDecimal(ty.precision, ty.scale); }
  }

  /** A printed type is read back as its normal form, at any depth, exactly if its decimals have
      0 <= scale <= precision. */
  lemma {:induction false} TypeRoundTrip(ty: ArrowType)
    requires PrintType(ty).Some?
    ensures ParseType(PrintType(ty).value) == if DecimalsOk(ty) then Some(Normal(ty)) else None
    decreases ty
  {
    match ty
    case Dictionary(value) => TypeRoundTrip(value);
    case List(_, element, containsNull) =>
      TypeRoundTrip(element);
      ParsePrintedList(PrintType(element).value, containsNull);
    case LargeList(_, element, containsNull) =>
      TypeRoundTrip(element);
      ParsePrintedList(PrintType(element).value, containsNull);
    case Map(key, _, item, itemNullable) =>
      TypeRoundTrip(key);
      TypeRoundTrip(item);
      ParsePrintedMap(PrintType(key).value, PrintType(item).value, itemNullable);
    case Struct(fields) =>
      FieldsRoundTrip(fields, {});
      ParsePrintedStruct(PrintFieldList(fields, {}).value);
    case _ => LeafRoundTrip(ty);
  }

  lemma {:induction false} FieldsRoundTrip(fields: seq<Field>, names: set<string>)
    requires PrintFieldList(fields, names).Some?
    ensures ParseFieldList(PrintFieldList(fields, names).value) ==
              if AllDecimalsOk(fields) then Some(NormalFields(fields)) else None
    decreases fields
  {
    if fields != [] {
      var field, rest := fields[0], PrintFieldList(fields[1..], names + {Lower(fields[0].name)});
      TypeRoundTrip(field.ty);
      FieldsRoundTrip(fields[1..], names + {Lower(field.name)});
      var ty := PrintType(field.ty).value;
      ParsePrintedField(field, ty);
      var items := PrintFieldList(fields, names).value;
      assert items == [PrintField(field, ty)] + rest.value && items[1..] == rest.value;
    }
  }

  /** Printing a schema and parsing the result gives the schema's normal form. */
  lemma SchemaRoundTrip(fields: seq<Field>)
    requires PrintFields(fields).Some?
    ensures ParseFields(PrintFields(fields).value) == if AllDecimalsOk(fields) then Some(NormalFields(fields)) else None
  {
    FieldsRoundTrip(fields, {});
    ParsePrintedStruct(PrintFieldList(fields, {}).value);
  }

  /** Printing the normal form gives the same JSON, so the form is a fixed point of the round trip. */
  lemma {:induction false} NormalPrintsSame(ty: ArrowType)
    ensures PrintType(Normal(ty)) == PrintType(ty) && Normal(Normal(ty)) == Normal(ty)
    decreases ty
  {
    match ty
    case Dictionary(value) => NormalPrintsSame(value);
    case List(_, element, _) => NormalPrintsSame(element);
    case LargeList(_, element, _) => NormalPrintsSame(element);
    case Map(key, _, item, _) =>
      NormalPrintsSame(key);
      NormalPrintsSame(item);
    case Struct(fields) => NormalFieldsPrintSame(fields, {});
    case _ => NormalLeafPrintsSame(ty);
  }

  lemma NormalLeafPrintsSame(ty: ArrowType)
    requires IsLeaf(ty)
    ensures PrintType(Normal(ty)) == PrintType(ty) && Normal(Normal(ty)) == Normal(ty)
  {}

  lemma {:induction false} NormalFieldsPrintSame(fields: seq<Field>, names: set<string>)
    ensures PrintFieldList(NormalFields(fields), names) == PrintFieldList(fields, names)
    ensures NormalFields(NormalFields(fields)) == NormalFields(fields)
    decreases fields
  {
    if fields != [] {
      var field := fields[0];
      NormalPrintsSame(field.ty);
      NormalFieldsPrintSame(fields[1..], names + {Lower(field.name)});
      assert NormalFields(fields)[1..] == NormalFields(fields[1..]);
    }
  }

  lemma NormalSchemaPrintsSame(fields: seq<Field>)
    ensures PrintFields(NormalFields(fields)) == PrintFields(fields)
  {
    NormalFieldsPrintSame(fields, {});
  }

  // ---- what is accepted -----------------------------------------------------------------------------

  /** Equal but for the case of the letters A to Z. */
  predicate SameIgnoringCase(a: string, b: string) {
    |a| == |b| && forall i | 0 <= i < |a| ::
      a[i] == b[i] || ('A' <= a[i] <= 'Z' && b[i] as int == a[i] as int + 32) || ('A' <= b[i] <= 'Z' && a[i] as int == b[i] as int + 32)
  }

  lemma LowerIgnoresCase(a: string, b: string)
    ensures Lower(a) == Lower(b) <==> SameIgnoringCase(a, b)
  {
    if Lower(a) == Lower(b) {
      forall i | 0 <= i < |a| ensures LowerChar(a[i]) == LowerChar(b[i]) { assert Lower(a)[i] == Lower(b)[i]; }
    }
  }

  /** A list of columns is printed exactly if all their types are; no name is empty or has a space, a
      tab, a line feed or one of , ; { } ( ) =; and no two names are equal when case is ignored. */
  lemma PrintedColumns(fields: seq<Field>)
    ensures PrintFieldList(fields, {}).Some? <==>
              && (forall i | 0 <= i < |fields| :: PrintType(fields[i].ty).Some? && AllowedName(fields[i].name))
              && (forall i, j | 0 <= i < j < |fields| :: !SameIgnoringCase(fields[i].name, fields[j].name))
  {
    PrintedNames(fields, {});
    forall i, j | 0 <= i < j < |fields|
      ensures Lower(fields[i].name) == Lower(fields[j].name) <==> SameIgnoringCase(fields[i].name, fields[j].name)
    {
      LowerIgnoresCase(fields[i].name, fields[j].name);
    }
    forall i | 0 <= i < |fields| ensures ValidName(fields[i].name) <==> AllowedName(fields[i].name) { AllowedNames(fields[i].name); }
  }

  predicate AllowedName(name: string) {
    name != "" && forall c <- name :: c !in {' ', '\t', '\n', ',', ';', '{', '}', '(', ')', '='}
  }

  lemma AllowedNames(name: string)
    ensures ValidName(name) <==> AllowedName(name)
  {
    forall c ensures c in INVALID <==> c in {' ', '\t', '\n', ',', ';', '{', '}', '(', ')', '='} {}
  }

  /** The names of a struct's columns, as far as the printer cares. */
  predicate NamesOk(fields: seq<Field>, names: set<string>) {
    && (forall i | 0 <= i < |fields| :: ValidName(fields[i].name) && Lower(fields[i].name) !in names)
    && (forall i, j | 0 <= i < j < |fields| :: Lower(fields[i].name) != Lower(fields[j].name))
  }

  /** A list of fields is printed exactly if all their types are, all names are valid, and no two
      are equal when case is ignored. */
  lemma {:induction false} PrintedNames(fields: seq<Field>, names: set<string>)
    ensures PrintFieldList(fields, names).Some? <==>
              NamesOk(fields, names) && forall i | 0 <= i < |fields| :: PrintType(fields[i].ty).Some?
    decreases |fields|
  {
    if fields != [] {
      var first, rest := fields[0], fields[1..];
      PrintedNames(rest, names + {Lower(first.name)});
      assert forall i | 0 <= i < |rest| :: rest[i] == fields[i + 1];
      if NamesOk(fields, names) {
        assert NamesOk(rest, names + {Lower(first.name)});
      } else if ValidName(first.name) && Lower(first.name) !in names {
        assert !NamesOk(rest, names + {Lower(first.name)});
      }
    }
  }
}
