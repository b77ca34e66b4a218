/** Skill input schemas: the check of the schema itself and the check of a value against it.

    Go visits the keys of a map in no fixed order, so the two checks are methods that pick the
    next key freely. `WellFormed` with `Nested` and `Conforms` say what they decide.
    Reading a number literal as a float is a parameter. */
module SkillSchema {
  import opened Prelude
  import T = JsonTokens

  /** A decoded JSON value. A missing member reads as `Null`, as a nil lookup does. */
  datatype Json =
    | Null
    | Bool(b: bool)
    | Num(literal: string)
    | Str(s: string)
    | Arr(items: seq<Json>)
    | Obj(fields: map<string, Json>)

  datatype Float = Finite(r: real) | PosInf | NegInf
  type Reading = string -> Float

  datatype Verdict = Accept | Reject | TooDeep

  const MAX_VALUE_DEPTH := 32
  const MAX_SCHEMA_DEPTH := 16
  const MAX_SCHEMA_BYTES := 64 * 1024
  const MAX_INPUT_BYTES := 1024 * 1024
  const TYPES: set<string> := {"object", "string", "number", "integer", "boolean", "array", "null"}
  const KEYWORDS: set<string> := {"type", "description", "properties", "required", "additionalProperties", "items",
                                  "enum", "minLength", "maxLength", "minimum", "maximum", "minItems", "maxItems"}

  function Get(fields: map<string, Json>, key: string): Json {
    if key in fields then fields[key] else Null
  }

  /******* What a schema is *******/

  predicate Letter(c: char) {
    'a' <= c <= 'z' || 'A' <= c <= 'Z'
  }

  predicate PropertyName(name: string) {
    && 1 <= |name| <= 128
    && Letter(name[0])
    && forall i :: 1 <= i < |name| ==> Letter(name[i]) || '0' <= name[i] <= '9' || name[i] in {'_', '.', '-'}
  }

  /** The node's own keywords, its children apart. */
  predicate NodeShape(node: Json) {
    && node.Obj?
    && node.fields.Keys <= KEYWORDS
    && var kind := Get(node.fields, "type");
       && kind.Str? && kind.s in TYPES
       && (kind.s == "object" ==>
             && Get(node.fields, "properties").Obj?
             && Get(node.fields, "additionalProperties") == Bool(false)
             && (forall name :: name in Get(node.fields, "properties").fields ==> PropertyName(name))
             && RequiredDeclared(node.fields, Get(node.fields, "properties").fields))
  }

  predicate RequiredDeclared(fields: map<string, Json>, properties: map<string, Json>) {
    "required" in fields ==>
      && fields["required"].Arr?
      && forall i :: 0 <= i < |fields["required"].items| ==>
                       fields["required"].items[i].Str? && fields["required"].items[i].s in properties
  }

  predicate Describes(node: Json, kind: string) {
    node.Obj? && Get(node.fields, "type") == Str(kind)
  }

  predicate WellFormed(node: Json) {
    && NodeShape(node)
    && (Describes(node, "object") ==>
          forall name :: name in Get(node.fields, "properties").fields ==>
                           WellFormed(Get(node.fields, "properties").fields[name]))
    && (Describes(node, "array") ==> "items" in node.fields && WellFormed(node.fields["items"]))
  }

  /** No chain of child nodes is longer than `limit`. */
  predicate Nested(node: Json, limit: int) {
    && limit >= 0
    && (Describes(node, "object") && Get(node.fields, "properties").Obj? ==>
          forall name :: name in Get(node.fields, "properties").fields ==>
                           Nested(Get(node.fields, "properties").fields[name], limit - 1))
    && (Describes(node, "array") && "items" in node.fields ==> Nested(node.fields["items"], limit - 1))
  }

  predicate Accepted(node: Json, depth: nat) {
    WellFormed(node) && Nested(node, MAX_SCHEMA_DEPTH - depth)
  }

  /******* What a schema means *******/

  predicate AllDigits(s: string) {
    s != [] && forall i :: 0 <= i < |s| ==> '0' <= s[i] <= '9'
  }

  function Decimal(s: string): nat
    requires forall i :: 0 <= i < |s| ==> '0' <= s[i] <= '9'
  {
    if s == [] then 0 else 10 * Decimal(s[..|s| - 1]) + (s[|s| - 1] as int - '0' as int)
  }

  /** `strconv.Atoi`: an optional sign, then digits, and the number fits 64 bits. */
  function Atoi(s: string): Option<int> {
    var negative := s != [] && s[0] == '-';
    var digits := if s != [] && (s[0] == '-' || s[0] == '+') then s[1..] else s;
    if !AllDigits(digits) then None
    else
      var magnitude: int := Decimal(digits);
      var n := if negative then -magnitude else magnitude;
      if -0x8000_0000_0000_0000 <= n < 0x8000_0000_0000_0000 then Some(n) else None
  }

  /** The size keyword holds a literal that bounds nothing: every value is refused. */
  predicate BadBound(schema: Json, keyword: string)
    requires schema.Obj?
  {
    Get(schema.fields, keyword).Num? &&
    var bound := Atoi(Get(schema.fields, keyword).literal);
    bound.None? || bound.value < 0
  }

  /** A size keyword that is no number bounds nothing. */
  predicate SizeWithin(schema: Json, low: string, high: string, size: nat)
    requires schema.Obj?
  {
    && !BadBound(schema, low) && !BadBound(schema, high)
    && (Get(schema.fields, low).Num? ==> Atoi(Get(schema.fields, low).literal).value <= size)
    && (Get(schema.fields, high).Num? ==> size <= Atoi(Get(schema.fields, high).literal).value)
  }

  predicate FloatLeq(a: Float, b: Float) {
    a.NegInf? || b.PosInf? || (a.Finite? && b.Finite? && a.r <= b.r)
  }

  predicate InEnum(schema: Json, value: Json)
    requires schema.Obj?
  {
    Get(schema.fields, "enum").Arr? ==> value in Get(schema.fields, "enum").items
  }

  ghost predicate Conforms(reading: Reading, schema: Json, value: Json)
    requires WellFormed(schema)
    decreases value, 2
  {
    InEnum(schema, value) && FitsType(reading, schema, value)
  }

  ghost predicate FitsType(reading: Reading, schema: Json, value: Json)
    requires WellFormed(schema)
    decreases value, 1
  {
    match Get(schema.fields, "type").s
    case "object" => ObjectFits(reading, schema, value)
    case "array" => ArrayFits(reading, schema, value)
    case "string" => value.Str? && SizeWithin(schema, "minLength", "maxLength", |value.s|)
    case "number" => NumberFits(reading, schema, value, false)
    case "integer" => NumberFits(reading, schema, value, true)
    case "boolean" => value.Bool?
    case _ => value == Null
  }

  /** No undeclared member, every required one, and each conforms to its own node. */
  ghost predicate ObjectFits(reading: Reading, schema: Json, value: Json)
    requires WellFormed(schema) && Describes(schema, "object")
    decreases value, 0
  {
    && value.Obj?
    && value.fields.Keys <= schema.fields["properties"].fields.Keys
    && (forall i :: 0 <= i < |RequiredNames(schema)| ==> RequiredNames(schema)[i].s in value.fields)
    && (forall name :: name in value.fields ==>
                         Conforms(reading, schema.fields["properties"].fields[name], value.fields[name]))
  }

  ghost predicate ArrayFits(reading: Reading, schema: Json, value: Json)
    requires WellFormed(schema) && Describes(schema, "array")
    decreases value, 0
  {
    && value.Arr?
    && SizeWithin(schema, "minItems", "maxItems", |value.items|)
    && (forall i :: 0 <= i < |value.items| ==> Conforms(reading, schema.fields["items"], value.items[i]))
  }

  predicate IsReal(n: int, x: real) {
    n as real == x
  }

  ghost predicate Whole(x: real) {
    exists n: int :: IsReal(n, x)
  }

  /** A finite number between the bounds; a bound too large for a float reads as an infinity. */
  ghost predicate NumberFits(reading: Reading, schema: Json, value: Json, whole: bool)
    requires schema.Obj?
  {
    && value.Num?
    && reading(value.literal).Finite?
    && (whole ==> Whole(reading(value.literal).r))
    && (Get(schema.fields, "minimum").Num? ==>
          FloatLeq(reading(Get(schema.fields, "minimum").literal), reading(value.literal)))
    && (Get(schema.fields, "maximum").Num? ==>
          FloatLeq(reading(value.literal), reading(Get(schema.fields, "maximum").literal)))
  }

  function RequiredNames(schema: Json): (names: seq<Json>)
    requires Describes(schema, "object") && NodeShape(schema)
    ensures forall i :: 0 <= i < |names| ==>
                          names[i].Str? && names[i].s in Get(schema.fields, "properties").fields
  {
    if "required" in schema.fields then schema.fields["required"].items else []
  }

  /******* The schema check *******/

  /** Accepts exactly the well-formed schemas of bounded nesting, whatever order the keys come in. */
  method ValidateSchemaNode(node: Json, depth: nat) returns (ok: bool)
    ensures ok <==> Accepted(node, depth)
    decreases node
  {
    if depth > MAX_SCHEMA_DEPTH { return false; }
    if !node.Obj? { return false; }
    var keys := node.fields.Keys;
    while keys != {}
      invariant keys <= node.fields.Keys
      invariant node.fields.Keys - keys <= KEYWORDS
      decreases keys
    {
      var key :| key in keys;
      keys := keys - {key};
      if key !in KEYWORDS { return false; }
    }
    var kind := Get(node.fields, "type");
    if !kind.Str? || kind.s !in TYPES { return false; }
    if kind.s == "object" {
      if !Get(node.fields, "properties").Obj? { return false; }
      var properties := node.fields["properties"].fields;
      if "additionalProperties" !in node.fields || node.fields["additionalProperties"] != Bool(false) {
        return false;
      }
      var names := properties.Keys;
      while names != {}
        invariant names <= properties.Keys
        invariant forall name :: name in properties && name !in names ==>
                                   PropertyName(name) && Accepted(properties[name], depth + 1)
        decreases names
      {
        var name :| name in names;
        names := names - {name};
        if !PropertyName(name) { return false; }
        var inner := ValidateSchemaNode(properties[name], depth + 1);
        if !inner { return false; }
      }
      if "required" in node.fields {
        if !node.fields["required"].Arr? { return false; }
        var values := node.fields["required"].items;
        for i := 0 to |values|
          invariant forall j :: 0 <= j < i ==> values[j].Str? && values[j].s in properties
        {
          if !values[i].Str? { return false; }
          if values[i].s !in properties { return false; }
        }
      }
    }
    if kind.s == "array" {
      if "items" !in node.fields { return false; }
      var inner := ValidateSchemaNode(node.fields["items"], depth + 1);
      if !inner { return false; }
    }
    return true;
  }

  /******* The value check *******/

  /** One size keyword: `maximum` says which side it bounds. */
  method CheckIntegerBound(schema: Json, keyword: string, size: nat, maximum: bool) returns (ok: bool)
    requires schema.Obj?
    ensures ok <==> (Get(schema.fields, keyword).Num? ==>
                       && !BadBound(schema, keyword)
                       && var bound := Atoi(Get(schema.fields, keyword).literal).value;
                          if maximum then size <= bound else bound <= size)
  {
    var raw := Get(schema.fields, keyword);
    if !raw.Num? { return true; }
    var bound := Atoi(raw.literal);
    if bound.None? || bound.value < 0 { return false; }
    if maximum && size > bound.value { return false; }
    if !maximum && size < bound.value { return false; }
    return true;
  }

  method ValidateNumber(reading: Reading, schema: Json, value: Json, whole: bool) returns (ok: bool)
    requires schema.Obj?
    ensures ok <==> NumberFits(reading, schema, value, whole)
  {
    if !value.Num? { return false; }
    var parsed := reading(value.literal);
    if !parsed.Finite? { return false; }
    if whole && Trunc(parsed.r) != parsed.r { return false; }
    var minimum, maximum := Get(schema.fields, "minimum"), Get(schema.fields, "maximum");
    if minimum.Num? && !FloatLeq(reading(minimum.literal), parsed) { return false; }
    if maximum.Num? && !FloatLeq(parsed, reading(maximum.literal)) { return false; }
    return true;
  }

  /** Rounding toward zero leaves exactly the whole numbers as they are. */
  function Trunc(x: real): (t: real)
    ensures t == x <==> Whole(x)
  {
    var n := if x >= 0.0 then x.Floor else -(-x).Floor;
    assert Whole(x) ==> n as real == x by {
      if m: int :| IsReal(m, x) {
        assert -x == (-m) as real;
      }
    }
    assert n as real == x ==> IsReal(n, x);
    n as real
  }

  method MatchesEnum(schema: Json, value: Json) returns (found: bool)
    requires schema.Obj?
    ensures found <==> InEnum(schema, value)
  {
    if !Get(schema.fields, "enum").Arr? { return true; }
    var candidates := schema.fields["enum"].items;
    found := false;
    for i := 0 to |candidates|
      invariant !found && value !in candidates[..i]
    {
      if candidates[i] == value {
        found := true;
        break;
      }
    }
  }

  /** On an accepted schema the check decides `Conforms`: no type assertion fails on the way, the
      depth guard never fires, and the order of the keys makes no difference. */
  method ValidateValue(reading: Reading, schema: Json, value: Json, depth: nat) returns (r: Verdict)
    requires Accepted(schema, depth)
    ensures r == if Conforms(reading, schema, value) then Accept else Reject
    decreases value, 1
  {
    if depth > MAX_VALUE_DEPTH { return TooDeep; }
    r := Accept;
    match schema.fields["type"].s {
      case "object" =>
        r := ValidateObject(reading, schema, value, depth);
      case "array" =>
        r := ValidateArray(reading, schema, value, depth);
      case "string" =>
        if !value.Str? { return Reject; }
        var low := CheckIntegerBound(schema, "minLength", |value.s|, false);
        if !low { return Reject; }
        var high := CheckIntegerBound(schema, "maxLength", |value.s|, true);
        if !high { return Reject; }
      case "number" =>
        var ok := ValidateNumber(reading, schema, value, false);
        if !ok { return Reject; }
      case "integer" =>
        var ok := ValidateNumber(reading, schema, value, true);
        if !ok { return Reject; }
      case "boolean" =>
        if !value.Bool? { return Reject; }
      case "null" =>
        if value != Null { return Reject; }
      case _ =>
    }
    if r != Accept { return; }
    var found := MatchesEnum(schema, value);
    if !found { return Reject; }
  }

  method ValidateObject(reading: Reading, schema: Json, value: Json, depth: nat) returns (r: Verdict)
    requires Accepted(schema, depth) && Describes(schema, "object")
    ensures r == if ObjectFits(reading, schema, value) then Accept else Reject
    decreases value, 0
  {
    if !value.Obj? { return Reject; }
    var properties := schema.fields["properties"].fields;
    var keys := value.fields.Keys;
    while keys != {}
      invariant keys <= value.fields.Keys
      invariant value.fields.Keys - keys <= properties.Keys
      decreases keys
    {
      var key :| key in keys;
      keys := keys - {key};
      if key !in properties { return Reject; }
    }
    if Get(schema.fields, "required").Arr? {
      var names := schema.fields["required"].items;
      for i := 0 to |names|
        invariant forall j :: 0 <= j < i ==> names[j].s in value.fields
      {
        if names[i].s !in value.fields {
          assert names[i] == RequiredNames(schema)[i];
          return Reject;
        }
      }
    }
    keys := value.fields.Keys;
    while keys != {}
      invariant keys <= value.fields.Keys
      invariant forall name :: name in value.fields && name !in keys ==>
                                 Conforms(reading, properties[name], value.fields[name])
      decreases keys
    {
      var key :| key in keys;
      keys := keys - {key};
      r := ValidateValue(reading, properties[key], value.fields[key], depth + 1);
      if r != Accept { return; }
    }
    return Accept;
  }

  method ValidateArray(reading: Reading, schema: Json, value: Json, depth: nat) returns (r: Verdict)
    requires Accepted(schema, depth) && Describes(schema, "array")
    ensures r == if ArrayFits(reading, schema, value) then Accept else Reject
    decreases value, 0
  {
    if !value.Arr? { return Reject; }
    var low := CheckIntegerBound(schema, "minItems", |value.items|, false);
    if !low { return Reject; }
    var high := CheckIntegerBound(schema, "maxItems", |value.items|, true);
    if !high { return Reject; }
    AcceptedArrays(schema, depth);
    r := ValidateItems(reading, schema.fields["items"], value.items, depth + 1);
  }

  method ValidateItems(reading: Reading, node: Json, items: seq<Json>, depth: nat) returns (r: Verdict)
    requires Accepted(node, depth)
    ensures r == if (forall i :: 0 <= i < |items| ==> Conforms(reading, node, items[i])) then Accept else Reject
    decreases items, 2
  {
    for i := 0 to |items|
      invariant forall j :: 0 <= j < i ==> Conforms(reading, node, items[j])
    {
      var item := items[i];
      r := ValidateValue(reading, node, item, depth);
      if r != Accept {
        assert !Conforms(reading, node, items[i]);
        return;
      }
    }
    return Accept;
  }

  /******* What single nodes ask for *******/

  function DecimalText(n: nat): (s: string)
    ensures AllDigits(s)
  {
    var digit := ['0' + (n % 10) as char];
    if n < 10 then digit else DecimalText(n / 10) + digit
  }

  lemma {:induction false} DecimalReadsBack(n: nat)
    ensures Decimal(DecimalText(n)) == n
  {
    if n >= 10 {
      var front := DecimalText(n / 10);
      assert DecimalText(n)[..|front|] == front;
      DecimalReadsBack(n / 10);
    } else {
      assert DecimalText(n)[..0] == "";
    }
  }

  lemma AtoiOfDigits(s: string, n: int)
    requires AllDigits(s) && Decimal(s) == n
    ensures Atoi(s) == if n < 0x8000_0000_0000_0000 then Some(n) else None
  {
    assert s[0] != '-' && s[0] != '+';
  }

  lemma AtoiOfNegative(s: string, digits: string, n: int)
    requires s == "-" + digits && AllDigits(digits) && Decimal(digits) == n
    ensures Atoi(s) == if n <= 0x8000_0000_0000_0000 then Some(-n) else None
  {
    assert s[0] == '-' && s[1..] == digits;
  }

  /** Round trip: reading a written number gives it back, with either sign, if and only if 64
      bits hold it. */
  lemma AtoiReadsBack(n: int, s: string, negative: string)
    requires n >= 0 && s == DecimalText(n) && negative == "-" + s
    ensures Atoi(s) == if n < 0x8000_0000_0000_0000 then Some(n) else None
    ensures Atoi(negative) == if n <= 0x8000_0000_0000_0000 then Some(-n) else None
  {
    DecimalReadsBack(n);
    AtoiOfDigits(s, n);
    AtoiOfNegative(negative, s, n);
  }

  lemma AtoiRefuses(s: string)
    requires s == "" || exists i :: 0 < i < |s| && !('0' <= s[i] <= '9')
    ensures Atoi(s) == None
  {
    if s != "" {
      var i :| 0 < i < |s| && !('0' <= s[i] <= '9');
      assert s[1..][i - 1] == s[i];
    }
  }

  /** What the schema check insists on, node by node: known keywords and a known type. */
  lemma AcceptedNodes(node: Json, depth: nat)
    requires Accepted(node, depth)
    ensures depth <= 16 && node.Obj?
    ensures forall key :: key in node.fields ==>
              key in {"type", "description", "properties", "required", "additionalProperties", "items", "enum",
                      "minLength", "maxLength", "minimum", "maximum", "minItems", "maxItems"}
    ensures "type" in node.fields && node.fields["type"].Str?
            && node.fields["type"].s in {"object", "string", "number", "integer", "boolean", "array", "null"}
  {
  }

  /** An object node is closed and names its properties properly. */
  lemma AcceptedObjects(node: Json, depth: nat)
    requires Accepted(node, depth) && Describes(node, "object")
    ensures "additionalProperties" in node.fields && node.fields["additionalProperties"] == Bool(false)
    ensures "properties" in node.fields && node.fields["properties"].Obj?
    ensures forall name :: name in node.fields["properties"].fields ==>
              && 1 <= |name| <= 128 && ('a' <= name[0] <= 'z' || 'A' <= name[0] <= 'Z')
              && Accepted(node.fields["properties"].fields[name], depth + 1)
  {
  }

  lemma AcceptedRequired(node: Json, depth: nat)
    requires Accepted(node, depth) && Describes(node, "object") && "required" in node.fields
    ensures node.fields["required"].Arr? && Get(node.fields, "properties").Obj?
    ensures forall i :: 0 <= i < |node.fields["required"].items| ==>
              node.fields["required"].items[i].Str?
              && node.fields["required"].items[i].s in Get(node.fields, "properties").fields
  {
  }

  lemma AcceptedArrays(node: Json, depth: nat)
    requires Accepted(node, depth) && Describes(node, "array")
    ensures "items" in node.fields && Accepted(node.fields["items"], depth + 1)
  {
  }

  /** A string node with both lengths written out takes exactly the strings between them. */
  lemma StringNode(reading: Reading, schema: Json, value: Json, low: nat, lowText: string, high: nat, highText: string)
    requires WellFormed(schema) && schema.fields["type"] == Str("string") && "enum" !in schema.fields
    requires low < 0x8000_0000_0000_0000 && lowText == DecimalText(low) && Get(schema.fields, "minLength") == Num(lowText)
    requires high < 0x8000_0000_0000_0000 && highText == DecimalText(high) && Get(schema.fields, "maxLength") == Num(highText)
    ensures Conforms(reading, schema, value) <==> value.Str? && low <= |value.s| <= high
  {
    AtoiReadsBack(low, lowText, "-" + lowText);
    AtoiReadsBack(high, highText, "-" + highText);
    SizesBetween(schema, "minLength", "maxLength", low, lowText, high, highText);
    KindMatters();
  }

  lemma SizesBetween(schema: Json, lowKey: string, highKey: string, low: nat, lowText: string, high: nat, highText: string)
    requires schema.Obj? && Get(schema.fields, lowKey) == Num(lowText) && Get(schema.fields, highKey) == Num(highText)
    requires Atoi(lowText) == Some(low) && Atoi(highText) == Some(high)
    ensures forall size: nat :: SizeWithin(schema, lowKey, highKey, size) <==> low <= size <= high
  {
  }

  /** A number node with finite bounds takes exactly the finite numbers between them; an integer
      node only the whole ones. */
  lemma NumberNode(reading: Reading, schema: Json, value: Json, low: real, high: real)
    requires WellFormed(schema) && "enum" !in schema.fields
    requires schema.fields["type"] == Str("number") || schema.fields["type"] == Str("integer")
    requires Get(schema.fields, "minimum").Num? && reading(schema.fields["minimum"].literal) == Finite(low)
    requires Get(schema.fields, "maximum").Num? && reading(schema.fields["maximum"].literal) == Finite(high)
    ensures Conforms(reading, schema, value) <==>
            && value.Num? && reading(value.literal).Finite? && low <= reading(value.literal).r <= high
            && (schema.fields["type"] == Str("integer") ==> reading(value.literal).r.Floor as real == reading(value.literal).r)
  {
    KindMatters();
    if value.Num? && reading(value.literal).Finite? {
      var x := reading(value.literal).r;
      WholeIsFloor(x);
    }
  }

  lemma ObjectConforms(reading: Reading, schema: Json, value: Json)
    requires WellFormed(schema) && Describes(schema, "object") && "enum" !in schema.fields
    ensures Conforms(reading, schema, value) <==> ObjectFits(reading, schema, value)
  {
  }

  lemma RequiredInColumns(schema: Json, members: map<string, Json>)
    requires WellFormed(schema) && Describes(schema, "object")
    ensures (forall i :: 0 <= i < |RequiredNames(schema)| ==> RequiredNames(schema)[i].s in members)
            <==> ("required" in schema.fields ==> AllPresent(schema.fields["required"].items, members))
  {
    if "required" in schema.fields {
      assert RequiredNames(schema) == schema.fields["required"].items;
    }
  }

  /** Every name in the list is a member. */
  predicate AllPresent(names: seq<Json>, members: map<string, Json>) {
    forall i :: 0 <= i < |names| && names[i].Str? ==> names[i].s in members
  }

  /** An object node takes exactly the objects whose members are all declared, which have every
      required one, and whose members conform each to its own node. */
  lemma ObjectNode(reading: Reading, schema: Json, value: Json)
    requires WellFormed(schema) && Describes(schema, "object") && "enum" !in schema.fields
    ensures Conforms(reading, schema, value) <==>
            && value.Obj?
            && value.fields.Keys <= schema.fields["properties"].fields.Keys
            && ("required" in schema.fields ==> AllPresent(schema.fields["required"].items, value.fields))
            && (forall name :: name in value.fields ==>
                  Conforms(reading, schema.fields["properties"].fields[name], value.fields[name]))
  {
    ObjectConforms(reading, schema, value);
    if value.Obj? {
      RequiredInColumns(schema, value.fields);
    }
  }

  /** An array node with both sizes written out takes exactly the arrays between them whose items
      all conform to its item node. */
  lemma ArrayNode(reading: Reading, schema: Json, value: Json, low: nat, lowText: string, high: nat, highText: string)
    requires WellFormed(schema) && schema.fields["type"] == Str("array") && "enum" !in schema.fields
    requires low < 0x8000_0000_0000_0000 && lowText == DecimalText(low) && Get(schema.fields, "minItems") == Num(lowText)
    requires high < 0x8000_0000_0000_0000 && highText == DecimalText(high) && Get(schema.fields, "maxItems") == Num(highText)
    ensures Conforms(reading, schema, value) <==>
            && value.Arr? && low <= |value.items| <= high
            && forall i :: 0 <= i < |value.items| ==> Conforms(reading, schema.fields["items"], value.items[i])
  {
    AtoiReadsBack(low, lowText, "-" + lowText);
    AtoiReadsBack(high, highText, "-" + highText);
    SizesBetween(schema, "minItems", "maxItems", low, lowText, high, highText);
    KindMatters();
    assert Conforms(reading, schema, value) <==> ArrayFits(reading, schema, value);
  }

  /** A node without size keywords asks for no size. */
  lemma SizeFree(schema: Json, low: string, high: string, size: nat)
    requires schema.Obj? && low !in schema.fields && high !in schema.fields
    ensures SizeWithin(schema, low, high, size)
  {
  }

  lemma WholeIsFloor(x: real)
    ensures Whole(x) <==> x.Floor as real == x
  {
    assert x.Floor as real == x ==> IsReal(x.Floor, x);
    if n: int :| IsReal(n, x) {
      assert x.Floor == n;
    }
  }

  /** The names of the types are different strings. */
  lemma KindMatters()
    ensures "object" != "array" && "object" != "string" && "object" != "number" && "object" != "integer"
    ensures "array" != "string" && "array" != "number" && "array" != "integer"
    ensures "string" != "number" && "string" != "integer" && "number" != "integer"
  {
    assert |"object"| == 6 && |"array"| == 5 && |"string"| == 6 && |"number"| == 6 && |"integer"| == 7;
    assert "object"[0] == 'o' && "string"[0] == 's' && "number"[0] == 'n';
  }

  /** An enum takes exactly its members, whatever else the node asks. */
  lemma EnumNode(reading: Reading, schema: Json, value: Json)
    requires WellFormed(schema) && Get(schema.fields, "enum").Arr? && Conforms(reading, schema, value)
    ensures exists i :: 0 <= i < |schema.fields["enum"].items| && schema.fields["enum"].items[i] == value
  {
  }

  /******* From the text to the decoded value *******/

  /** A text: its size in bytes and, when it is valid JSON, the document it holds. */
  datatype Raw = Raw(size: nat, doc: Option<T.Doc>)

  /** Decoding into maps: of members with one name the last one stays. */
  function Decode(doc: T.Doc): Json {
    match doc
    case Leaf(Null) => Null
    case Leaf(Bool(b)) => Bool(b)
    case Leaf(Number(literal)) => Num(literal)
    case Leaf(Text(s)) => Str(s)
    case Array(items) => Arr(DecodeItems(items))
    case Object(members) => Obj(DecodeMembers(members))
  }

  function DecodeItems(items: seq<T.Doc>): (values: seq<Json>)
    ensures |values| == |items|
    ensures forall i :: 0 <= i < |items| ==> values[i] == Decode(items[i])
  {
    if items == [] then [] else [Decode(items[0])] + DecodeItems(items[1..])
  }

  function DecodeMembers(members: seq<T.Member>): map<string, Json> {
    if members == [] then map[]
    else
      var last := members[|members| - 1];
      DecodeMembers(members[..|members| - 1])[last.name := Decode(last.value)]
  }

  /** Scalars decode to values of their own kind, and different ones differently. */
  lemma ScalarsDecode(a: T.Scalar, b: T.Scalar)
    ensures Decode(T.Leaf(a)).Null? <==> a.Null?
    ensures Decode(T.Leaf(a)).Bool? <==> a.Bool?
    ensures Decode(T.Leaf(a)).Num? <==> a.Number?
    ensures Decode(T.Leaf(a)).Str? <==> a.Text?
    ensures Decode(T.Leaf(a)) == Decode(T.Leaf(b)) ==> a == b
  {
  }

  lemma {:induction false} LastMemberWins(members: seq<T.Member>, i: nat)
    requires i < |members|
    requires forall j :: i < j < |members| ==> members[j].name != members[i].name
    ensures members[i].name in DecodeMembers(members)
    ensures DecodeMembers(members)[members[i].name] == Decode(members[i].value)
    decreases |members|
  {
    if i < |members| - 1 {
      LastMemberWins(members[..|members| - 1], i);
    }
  }

  predicate SchemaText(raw: Raw) {
    0 < raw.size <= MAX_SCHEMA_BYTES && raw.doc.Some? && Accepted(Decode(raw.doc.value), 0)
  }

  /** The input is one bounded JSON value that repeats no name and means what the schema asks. */
  ghost predicate InputText(reading: Reading, schema: Raw, input: Raw)
    requires SchemaText(schema)
  {
    && 0 < input.size <= MAX_INPUT_BYTES
    && input.doc.Some?
    && T.NamesUnique(input.doc.value)
    && Conforms(reading, Decode(schema.doc.value), Decode(input.doc.value))
  }

  method ValidateInput(reading: Reading, schemaRaw: Raw, inputRaw: Raw) returns (ok: bool)
    ensures ok <==> SchemaText(schemaRaw) && InputText(reading, schemaRaw, inputRaw)
    ensures ok ==> 0 < schemaRaw.size <= 65_536 && 0 < inputRaw.size <= 1_048_576
  {
    if schemaRaw.size == 0 || schemaRaw.size > MAX_SCHEMA_BYTES || schemaRaw.doc.None? { return false; }
    var schema := Decode(schemaRaw.doc.value);
    ok := ValidateSchemaNode(schema, 0);
    if !ok { return; }
    if inputRaw.size == 0 || inputRaw.size > MAX_INPUT_BYTES || inputRaw.doc.None? { return false; }
    var tokens := T.Tokens(inputRaw.doc.value);
    var decoder := new T.Decoder(tokens, true);
    var scanned := decoder.RejectDuplicateKeys();
    T.ConsumeDocument(inputRaw.doc.value, []);
    assert tokens + [] == tokens;
    if scanned.Failed? { return false; }
    var verdict := ValidateValue(reading, schema, Decode(inputRaw.doc.value), 0);
    return verdict == Accept;
  }

  /******* Nothing in an accepted input escapes its schema *******/

  datatype Hop = Field(name: string) | Item(index: nat)

  function At(value: Json, path: seq<Hop>): Option<Json> {
    if path == [] then Some(value)
    else
      match path[0]
      case Field(name) =>
        if value.Obj? && name in value.fields then At(value.fields[name], path[1..]) else None
      case Item(i) =>
        if value.Arr? && i < |value.items| then At(value.items[i], path[1..]) else None
  }

  /** The schema node that governs the part of a value at `path`. */
  function SchemaAt(schema: Json, path: seq<Hop>): Option<Json> {
    if path == [] then Some(schema)
    else
      match path[0]
      case Field(name) =>
        if Describes(schema, "object") && Get(schema.fields, "properties").Obj? && name in schema.fields["properties"].fields
        then SchemaAt(schema.fields["properties"].fields[name], path[1..])
        else None
      case Item(_) =>
        if Describes(schema, "array") && "items" in schema.fields
        then SchemaAt(schema.fields["items"], path[1..])
        else None
  }

  /** Only an object node takes objects and only an array node takes arrays. */
  lemma CompositeFits(reading: Reading, schema: Json, value: Json)
    requires WellFormed(schema) && FitsType(reading, schema, value)
    ensures value.Obj? ==> Describes(schema, "object") && ObjectFits(reading, schema, value)
    ensures value.Arr? ==> Describes(schema, "array") && ArrayFits(reading, schema, value)
  {
    assert Get(schema.fields, "type").s in TYPES;
  }

  lemma MemberConforms(reading: Reading, schema: Json, value: Json, depth: nat, name: string)
    requires Accepted(schema, depth) && Conforms(reading, schema, value) && value.Obj? && name in value.fields
    ensures Describes(schema, "object") && name in schema.fields["properties"].fields
    ensures Accepted(schema.fields["properties"].fields[name], depth + 1)
    ensures Conforms(reading, schema.fields["properties"].fields[name], value.fields[name])
  {
    CompositeFits(reading, schema, value);
  }

  lemma ItemConforms(reading: Reading, schema: Json, value: Json, depth: nat, i: nat)
    requires Accepted(schema, depth) && Conforms(reading, schema, value) && value.Arr? && i < |value.items|
    ensures Describes(schema, "array") && "items" in schema.fields
    ensures Accepted(schema.fields["items"], depth + 1)
    ensures Conforms(reading, schema.fields["items"], value.items[i])
  {
    CompositeFits(reading, schema, value);
  }

  /** Every part of a conforming value is governed by a node it conforms to, and no part lies
      deeper than a schema may nest. */
  lemma {:induction false} PartsConform(reading: Reading, schema: Json, value: Json, depth: nat, path: seq<Hop>)
    requires Accepted(schema, depth) && Conforms(reading, schema, value)
    requires At(value, path).Some?
    ensures depth + |path| <= 16
    ensures SchemaAt(schema, path).Some? && Accepted(SchemaAt(schema, path).value, depth + |path|)
    ensures Conforms(reading, SchemaAt(schema, path).value, At(value, path).value)
    decreases |path|
  {
    if path != [] {
      match path[0]
      case Field(name) =>
        MemberConforms(reading, schema, value, depth, name);
        PartsConform(reading, schema.fields["properties"].fields[name], value.fields[name], depth + 1, path[1..]);
      case Item(i) =>
        ItemConforms(reading, schema, value, depth, i);
        PartsConform(reading, schema.fields["items"], value.items[i], depth + 1, path[1..]);
    }
  }

  /** `part` stands somewhere in the document under `path`; a repeated name leads to each of its members. */
  ghost predicate Contains(doc: T.Doc, path: seq<Hop>, part: T.Doc)
    decreases |path|
  {
    if path == [] then doc == part
    else
      match path[0]
      case Field(name) =>
        doc.Object? && exists i :: 0 <= i < |doc.members| && doc.members[i].name == name &&
                                   Contains(doc.members[i].value, path[1..], part)
      case Item(i) =>
        doc.Array? && i < |doc.items| && Contains(doc.items[i], path[1..], part)
  }

  /** With unique names decoding drops nothing. */
  lemma {:induction false} DecodeKeepsParts(doc: T.Doc, path: seq<Hop>, part: T.Doc)
    requires T.NamesUnique(doc) && Contains(doc, path, part)
    ensures At(Decode(doc), path) == Some(Decode(part))
    decreases |path|
  {
    if path != [] {
      match path[0]
      case Field(name) =>
        var i :| 0 <= i < |doc.members| && doc.members[i].name == name && Contains(doc.members[i].value, path[1..], part);
        T.RepeatsInObject(doc.members);
        LastMemberWins(doc.members, i);
        DecodeKeepsParts(doc.members[i].value, path[1..], part);
      case Item(i) =>
        T.RepeatsInArray(doc.items);
        DecodeKeepsParts(doc.items[i], path[1..], part);
    }
  }

  /** Every part of the text of an accepted input, as written, was checked against a node of the schema. */
  lemma NothingUnchecked(reading: Reading, schema: Raw, input: Raw, path: seq<Hop>, part: T.Doc)
    requires SchemaText(schema) && InputText(reading, schema, input)
    requires Contains(input.doc.value, path, part)
    ensures |path| <= 16
    ensures var node := SchemaAt(Decode(schema.doc.value), path);
            node.Some? && WellFormed(node.value) && Conforms(reading, node.value, Decode(part))
  {
    DecodeKeepsParts(input.doc.value, path, part);
    PartsConform(reading, Decode(schema.doc.value), Decode(input.doc.value), 0, path);
  }

  lemma SecondMemberStays(name: string, first: T.Doc, second: T.Doc)
    ensures DecodeMembers([T.Member(name, first), T.Member(name, second)]) == map[name := Decode(second)]
  {
    var members := [T.Member(name, first), T.Member(name, second)];
    var front := members[..1];
    assert front == [T.Member(name, first)] && front[..0] == [];
    assert DecodeMembers(front) == DecodeMembers(front[..0])[name := Decode(first)];
    assert DecodeMembers(members) == DecodeMembers(front)[name := Decode(second)];
  }

  /** Without the duplicate check a member could escape: the schema asks for a string, the text
      also holds a null under the same name, and the decoded value conforms. */
  lemma DuplicatesWouldHide(reading: Reading) returns (schema: Json, doc: T.Doc, part: T.Doc)
    ensures Accepted(schema, 0) && Conforms(reading, schema, Decode(doc))
    ensures Contains(doc, [Field("a")], part)
    ensures var node := SchemaAt(schema, [Field("a")]);
            node.Some? && WellFormed(node.value) && !Conforms(reading, node.value, Decode(part))
    ensures !T.NamesUnique(doc)
  {
    var leaf := Obj(map["type" := Str("string")]);
    schema := Obj(map["type" := Str("object"), "additionalProperties" := Bool(false),
                      "properties" := Obj(map["a" := leaf])]);
    part := T.Leaf(T.Null);
    var kept := T.Leaf(T.Text("x"));
    var members := [T.Member("a", part), T.Member("a", kept)];
    doc := T.Object(members);
    assert |"object"| == 6 && |"string"| == 6 && |"array"| == 5 && "object"[0] != "string"[0];
    assert NodeShape(leaf) && WellFormed(leaf) && Nested(leaf, MAX_SCHEMA_DEPTH - 1);
    assert NodeShape(schema) && WellFormed(schema) && Nested(schema, MAX_SCHEMA_DEPTH);
    SecondMemberStays("a", part, kept);
    assert Conforms(reading, leaf, Decode(kept));
    assert ObjectFits(reading, schema, Decode(doc));
    assert Contains(members[0].value, [], part);
    assert T.Repeats(doc, "a");
    assert SchemaAt(schema, [Field("a")]) == SchemaAt(leaf, [Field("a")][1..]) == Some(leaf);
  }
}
