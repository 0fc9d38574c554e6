/** JSON Schema to zod: a compiler between two notions of a valid value. */
module SchemaZod {
  import opened Json
  import opened Options

  // -- The target ------------------------------------------------------------------------------------

  datatype Zod =
    | ZUnknown
    | ZString
    | ZNumber
    | ZBoolean
    | ZNull
    | ZArray(element: Zod)
    | ZObject(shape: map<string, Property>)
    | ZLiterals(values: seq<string>)

  datatype Property = Property(zod: Zod, optional: bool)

  /** What `safeParse` accepts. Releases of zod differ on whether an absent key passes `z.unknown()`:
      `lax` says that it does. */
  predicate Accepts(z: Zod, v: Json, lax: bool)
    decreases z
  {
    match z
    case ZUnknown => true
    case ZString => v.JString?
    case ZNumber => v.JNumber? && v.number.Finite?
    case ZBoolean => v.JBool?
    case ZNull => v.JNull?
    case ZArray(element) => v.JArray? && forall i :: 0 <= i < |v.items| ==> Accepts(element, v.items[i], lax)
    case ZObject(shape) =>
      v.JObject? && forall k :: k in shape ==>
        if k in v.fields then Accepts(shape[k].zod, v.fields[k], lax)
        else shape[k].optional || (lax && shape[k].zod.ZUnknown?)
    case ZLiterals(values) => v.JString? && v.text in values
  }

  // -- The source ------------------------------------------------------------------------------------

  /** No fraction, as far as a double can tell: what is too large for one counts as an integer. */
  predicate IsInteger(n: Number) {
    n.Finite? ==> n.value.Floor as real == n.value
  }

  /** Section 6.1.1 of JSON Schema Validation 2020-12; a name that is none of the seven constrains
      nothing here. */
  predicate HasType(name: string, v: Json) {
    if name == "string" then v.JString?
    else if name == "number" then v.JNumber?
    else if name == "integer" then v.JNumber? && IsInteger(v.number)
    else if name == "boolean" then v.JBool?
    else if name == "null" then v.JNull?
    else if name == "array" then v.JArray?
    else if name == "object" then v.JObject?
    else true
  }

  predicate TypeHolds(t: Json, v: Json) {
    match t
    case JString(name) => HasType(name, v)
    case JArray(names) => exists i :: 0 <= i < |names| && names[i].JString? && HasType(names[i].text, v)
    case _ => true
  }

  predicate HasEnum(f: map<string, Json>) {
    "enum" in f && f["enum"].JArray?
  }

  /** `properties` as far as it is an object. */
  function PropertiesOf(f: map<string, Json>): map<string, Json> {
    if "properties" in f && f["properties"].JObject? then f["properties"].fields else map[]
  }

  /** `required` as far as it is a list. */
  function RequiredOf(f: map<string, Json>): seq<Json> {
    if "required" in f && f["required"].JArray? then f["required"].items else []
  }

  predicate HasRequired(f: map<string, Json>, v: map<string, Json>) {
    forall i :: 0 <= i < |RequiredOf(f)| && RequiredOf(f)[i].JString? ==> RequiredOf(f)[i].text in v
  }

  /** Validity under `type`, `enum`, `required`, `properties` and `items`; every other keyword of a
      schema only adds restrictions. */
  predicate Valid(schema: Json, v: Json)
    decreases schema
  {
    match schema
    case JBool(allows) => allows
    case JObject(f) =>
      && ("type" in f ==> TypeHolds(f["type"], v))
      && (HasEnum(f) ==> v in f["enum"].items)
      && (v.JObject? ==> HasRequired(f, v.fields))
      && (v.JObject? ==> forall k :: k in PropertiesOf(f) && k in v.fields ==> Valid(PropertiesOf(f)[k], v.fields[k]))
      && ("items" in f && v.JArray? ==> forall i :: 0 <= i < |v.items| ==> Valid(f["items"], v.items[i]))
    case _ => true
  }

  // -- The translation -------------------------------------------------------------------------------

  /** A non-empty `enum` of strings only. */
  predicate IsStringEnum(f: map<string, Json>) {
    && HasEnum(f) && f["enum"].items != []
    && forall i :: 0 <= i < |f["enum"].items| ==> f["enum"].items[i].JString?
  }

  function EnumValues(items: seq<Json>): (values: seq<string>)
    requires forall i :: 0 <= i < |items| ==> items[i].JString?
    ensures |values| == |items|
  {
    seq(|items|, i requires 0 <= i < |items| => items[i].text)
  }

  predicate TypeIs(f: map<string, Json>, name: string) {
    "type" in f && f["type"] == JString(name)
  }

  function Decimal(n: nat): string {
    (if n < 10 then "" else Decimal(n / 10)) + ["0123456789"[n % 10]]
  }

  /** The entries of an array, under its indices. */
  function Indexed(items: seq<Json>): (r: map<string, Json>)
    ensures forall k :: k in r ==> r[k] in items
  {
    if items == [] then map[]
    else Indexed(items[..|items| - 1])[Decimal(|items| - 1) := items[|items| - 1]]
  }

  /** The length of a string in code units. */
  function UnitCount(s: string): nat {
    if s == "" then 0 else UnitCount(s[..|s| - 1]) + if s[|s| - 1] as int < 0x10000 then 1 else 2
  }

  /** `Object.entries(properties ?? {})`: of a string each unit is an entry, which is no schema. */
  function Entries(f: map<string, Json>): (r: map<string, Json>)
    ensures forall k :: k in r && r[k].JObject? ==> "properties" in f && r[k] < f["properties"]
  {
    if "properties" !in f then map[]
    else
      match f["properties"]
      case JObject(fields) => fields
      case JArray(items) => Indexed(items)
      case JString(text) => Indexed(seq(UnitCount(text), i => JString("")))
      case _ => map[]
  }

  /** `(required ?? []).includes` is a function for lists and strings only. */
  predicate RequiredFails(f: map<string, Json>) {
    "required" in f && (f["required"].JBool? || f["required"].JNumber? || f["required"].JObject?)
  }

  predicate StandsAt(s: string, part: string, i: int) {
    0 <= i <= |s| - |part| && s[i..i + |part|] == part
  }

  predicate IsRequired(f: map<string, Json>, key: string) {
    && "required" in f
    && match f["required"]
       case JArray(items) => JString(key) in items
       case JString(text) => exists i :: 0 <= i <= |text| - |key| && StandsAt(text, key, i)
       case _ => false
  }

  /** The translation ends in a TypeError: somewhere it looks a property up in a `required` that has no
      `includes`. */
  predicate Throws(node: Json)
    decreases node, 1
  {
    && node.JObject? && !IsStringEnum(node.fields)
    && (|| (TypeIs(node.fields, "array") && "items" in node.fields && Throws(node.fields["items"]))
        || (TypeIs(node.fields, "object") && ShapeThrows(node)))
  }

  predicate ShapeThrows(node: Json)
    requires node.JObject?
    decreases node, 0
  {
    exists k :: k in Entries(node.fields) &&
      (RequiredFails(node.fields) || (Entries(node.fields)[k].JObject? && Throws(Entries(node.fields)[k])))
  }

  function Translate(node: Json): Zod
    requires !Throws(node)
    decreases node, 1
  {
    if !node.JObject? then ZUnknown
    else
      var f := node.fields;
      if IsStringEnum(f) then ZLiterals(EnumValues(f["enum"].items))
      else if TypeIs(f, "string") then ZString
      else if TypeIs(f, "number") || TypeIs(f, "integer") then ZNumber
      else if TypeIs(f, "boolean") then ZBoolean
      else if TypeIs(f, "null") then ZNull
      else if TypeIs(f, "array") then ZArray(if "items" in f then Translate(f["items"]) else ZUnknown)
      else if TypeIs(f, "object") then ZObject(Shape(node))
      else ZUnknown
  }

  function Shape(node: Json): map<string, Property>
    requires node.JObject? && !ShapeThrows(node)
    decreases node, 0
  {
    var entries := Entries(node.fields);
    map k | k in entries ::
      Property(if entries[k].JObject? then Translate(entries[k]) else ZUnknown, !IsRequired(node.fields, k))
  }

  /** Nothing stands for the TypeError. */
  method JsonSchemaToZodShape(node: Json) returns (r: Option<map<string, Property>>)
    requires node.JObject?
    ensures r == if ShapeThrows(node) then None else Some(Shape(node))
    decreases node, 0
  {
    var entries := Entries(node.fields);
    var shape: map<string, Property> := map[];
    var todo := entries.Keys;
    while todo != {}
      invariant todo <= entries.Keys
      invariant forall k :: k in shape <==> k in entries && k !in todo
      invariant forall k :: k in shape ==> !RequiredFails(node.fields) && !(entries[k].JObject? && Throws(entries[k]))
      invariant forall k :: k in shape ==>
        shape[k] == Property(if entries[k].JObject? then Translate(entries[k]) else ZUnknown, !IsRequired(node.fields, k))
      decreases |todo|
    {
      var key :| key in todo;
      todo := todo - {key};
      if RequiredFails(node.fields) {
        return None;
      }
      var zod := Some(ZUnknown);
      if entries[key].JObject? {
        zod := JsonSchemaToZod(entries[key]);
      }
      if zod.None? {
        return None;
      }
      shape := shape[key := Property(zod.value, !IsRequired(node.fields, key))];
    }
    assert shape == Shape(node);
    return Some(shape);
  }

  method JsonSchemaToZod(node: Json) returns (r: Option<Zod>)
    ensures r == if Throws(node) then None else Some(Translate(node))
    decreases node, 1
  {
    if !node.JObject? {
      return Some(ZUnknown);
    }
    var f := node.fields;
    if IsStringEnum(f) {
      return Some(ZLiterals(EnumValues(f["enum"].items)));
    }
    if TypeIs(f, "string") {
      r := Some(ZString);
    } else if TypeIs(f, "number") || TypeIs(f, "integer") {
      r := Some(ZNumber);
    } else if TypeIs(f, "boolean") {
      r := Some(ZBoolean);
    } else if TypeIs(f, "null") {
      r := Some(ZNull);
    } else if TypeIs(f, "array") {
      var element := Some(ZUnknown);
      if "items" in f { element := JsonSchemaToZod(f["items"]); }
      r := if element.None? then None else Some(ZArray(element.value));
    } else if TypeIs(f, "object") {
      var shape := JsonSchemaToZodShape(node);
      r := if shape.None? then None else Some(ZObject(shape.value));
    } else {
      r := Some(ZUnknown);
    }
  }

  // -- Schemas ---------------------------------------------------------------------------------------

  /** What JSON Schema asks of a schema, wherever the translation descends: `properties` is an object
      and `required` a list, unless absent or null. */
  predicate Shaped(node: Json)
    decreases node, 1
  {
    node.JObject? && !IsStringEnum(node.fields) ==>
      && (TypeIs(node.fields, "array") && "items" in node.fields ==> Shaped(node.fields["items"]))
      && (TypeIs(node.fields, "object") ==> ShapedObject(node))
  }

  predicate ShapedObject(node: Json)
    requires node.JObject?
    decreases node, 0
  {
    var f := node.fields;
    && ("required" in f ==> f["required"].JNull? || f["required"].JArray?)
    && ("properties" in f ==> f["properties"].JNull? || f["properties"].JObject?)
    && (forall k :: k in PropertiesOf(f) ==> Shaped(PropertiesOf(f)[k]))
  }

  /** A schema is translated. */
  lemma {:induction false} ShapedTranslates(node: Json)
    requires Shaped(node)
    ensures !Throws(node)
    decreases node, 1
  {
    if node.JObject? && !IsStringEnum(node.fields) {
      var f := node.fields;
      if TypeIs(f, "array") && "items" in f { ShapedTranslates(f["items"]); }
      if TypeIs(f, "object") { ShapedObjectTranslates(node); }
    }
  }

  lemma {:induction false} ShapedObjectTranslates(node: Json)
    requires node.JObject? && ShapedObject(node)
    ensures !ShapeThrows(node) && Entries(node.fields) == PropertiesOf(node.fields)
    decreases node, 0
  {
    var props := PropertiesOf(node.fields);
    forall k | k in props ensures !Throws(props[k]) {
      ShapedTranslates(props[k]);
    }
  }

  lemma EnumHolds(items: seq<Json>, v: Json)
    requires forall i :: 0 <= i < |items| ==> items[i].JString?
    ensures v in items <==> v.JString? && v.text in EnumValues(items)
  {
    if v in items {
      var i :| 0 <= i < |items| && items[i] == v;
      assert EnumValues(items)[i] == v.text;
    }
    if v.JString? && v.text in EnumValues(items) {
      var i :| 0 <= i < |items| && EnumValues(items)[i] == v.text;
      assert items[i] == v;
    }
  }

  // -- Which valid values are refused ----------------------------------------------------------------

  /** Somewhere a number too large for a double stands where a number is asked for. */
  predicate Overflows(node: Json, v: Json)
    decreases node
  {
    && node.JObject? && !IsStringEnum(node.fields)
    && var f := node.fields;
       if TypeIs(f, "number") || TypeIs(f, "integer") then v.JNumber? && v.number.Infinite?
       else if TypeIs(f, "array") then
         "items" in f && v.JArray? && exists i :: 0 <= i < |v.items| && Overflows(f["items"], v.items[i])
       else if TypeIs(f, "object") then
         v.JObject? && exists k :: k in PropertiesOf(f) && k in v.fields && Overflows(PropertiesOf(f)[k], v.fields[k])
       else false
  }

  /** Of the values a schema accepts its validator refuses exactly those. */
  lemma {:induction false} Complete(node: Json, v: Json, lax: bool)
    requires Shaped(node) && Valid(node, v)
    ensures !Throws(node)
    ensures Accepts(Translate(node), v, lax) <==> !Overflows(node, v)
    decreases node, 1
  {
    ShapedTranslates(node);
    if node.JObject? && IsStringEnum(node.fields) {
      EnumHolds(node.fields["enum"].items, v);
    } else if node.JObject? {
      var f := node.fields;
      if TypeIs(f, "array") && "items" in f {
        forall i | 0 <= i < |v.items|
          ensures Accepts(Translate(f["items"]), v.items[i], lax) <==> !Overflows(f["items"], v.items[i])
        {
          Complete(f["items"], v.items[i], lax);
        }
      } else if TypeIs(f, "object") {
        CompleteObject(node, v, lax);
      }
    }
  }

  /** So it is with the shape made of a tool's parameters. */
  lemma {:induction false} CompleteObject(node: Json, v: Json, lax: bool)
    requires node.JObject? && ShapedObject(node) && v.JObject? && Valid(node, v)
    ensures !ShapeThrows(node)
    ensures Accepts(ZObject(Shape(node)), v, lax) <==>
      forall k :: k in PropertiesOf(node.fields) && k in v.fields ==> !Overflows(PropertiesOf(node.fields)[k], v.fields[k])
    decreases node, 0
  {
    var props := PropertiesOf(node.fields);
    ShapedObjectTranslates(node);
    forall k | k in props ensures !Throws(props[k]) { ShapedTranslates(props[k]); }
    forall k | k in props && k in v.fields
      ensures Accepts(Shape(node)[k].zod, v.fields[k], lax) <==> !Overflows(props[k], v.fields[k])
    {
      Complete(props[k], v.fields[k], lax);
    }
    forall k | k in props && IsRequired(node.fields, k) ensures k in v.fields {
      var keys := RequiredOf(node.fields);
      var i :| 0 <= i < |keys| && keys[i] == JString(k);
      assert keys[i].text in v.fields;
    }
  }

  // -- Schemas that accept everything ----------------------------------------------------------------

  /** One value of every kind, the number with a fraction. */
  function Sample(v: Json): Json {
    match v
    case JNull => JNull
    case JBool(_) => JBool(true)
    case JNumber(_) => JNumber(Finite(0.5))
    case JString(_) => JString("")
    case JArray(_) => JArray([])
    case JObject(_) => JObject(map[])
  }

  const SAMPLES := [JNull, JBool(true), JNumber(Finite(0.5)), JString(""), JArray([]), JObject(map[])]

  lemma SampleIsThere(v: Json)
    ensures exists i :: 0 <= i < |SAMPLES| && SAMPLES[i] == Sample(v)
  {
    var i := match v
      case JNull => 0 case JBool(_) => 1 case JNumber(_) => 2 case JString(_) => 3 case JArray(_) => 4 case JObject(_) => 5;
    assert SAMPLES[i] == Sample(v);
  }

  /** A type that the sample has every value of its kind has. */
  lemma TypeByKind(t: Json, v: Json)
    requires TypeHolds(t, Sample(v))
    ensures TypeHolds(t, v)
  {
    assert 0.5.Floor == 0;
    if t.JArray? {
      var i :| 0 <= i < |t.items| && t.items[i].JString? && HasType(t.items[i].text, Sample(v));
      assert HasType(t.items[i].text, v);
    }
  }

  predicate EveryType(t: Json) {
    forall i :: 0 <= i < |SAMPLES| ==> TypeHolds(t, SAMPLES[i])
  }

  predicate NothingRequired(f: map<string, Json>) {
    forall i :: 0 <= i < |RequiredOf(f)| ==> !RequiredOf(f)[i].JString?
  }

  predicate Universal(schema: Json)
    decreases schema
  {
    match schema
    case JBool(allows) => allows
    case JObject(f) =>
      && ("type" in f ==> EveryType(f["type"]))
      && !HasEnum(f)
      && NothingRequired(f)
      && (forall k :: k in PropertiesOf(f) ==> Universal(PropertiesOf(f)[k]))
      && ("items" in f ==> Universal(f["items"]))
    case _ => true
  }

  lemma {:induction false} UniversalAccepts(schema: Json, v: Json)
    requires Universal(schema)
    ensures Valid(schema, v)
    decreases schema
  {
    if schema.JObject? {
      var f := schema.fields;
      if "type" in f {
        SampleIsThere(v);
        TypeByKind(f["type"], v);
      }
      if v.JObject? {
        forall k | k in PropertiesOf(f) && k in v.fields ensures Valid(PropertiesOf(f)[k], v.fields[k]) {
          UniversalAccepts(PropertiesOf(f)[k], v.fields[k]);
        }
      }
      if "items" in f && v.JArray? {
        forall i | 0 <= i < |v.items| ensures Valid(f["items"], v.items[i]) {
          UniversalAccepts(f["items"], v.items[i]);
        }
      }
    }
  }

  /** Every other schema refuses some value. */
  lemma {:induction false} RefusedBy(schema: Json) returns (v: Json)
    requires !Universal(schema)
    ensures !Valid(schema, v)
    decreases schema
  {
    v := JNull;
    if schema.JObject? {
      var f := schema.fields;
      if "type" in f && !EveryType(f["type"]) {
        var i :| 0 <= i < |SAMPLES| && !TypeHolds(f["type"], SAMPLES[i]);
        v := SAMPLES[i];
      } else if HasEnum(f) {
        var n := LongText(f["enum"].items);
        v := JString(Xs(n));
      } else if !NothingRequired(f) {
        var i :| 0 <= i < |RequiredOf(f)| && RequiredOf(f)[i].JString?;
        assert !HasRequired(f, map[]);
        v := JObject(map[]);
      } else if "items" in f && !Universal(f["items"]) {
        var w := RefusedBy(f["items"]);
        v := JArray([w]);
        assert !Valid(f["items"], v.items[0]);
      } else {
        var k :| k in PropertiesOf(f) && !Universal(PropertiesOf(f)[k]);
        var w := RefusedBy(PropertiesOf(f)[k]);
        v := JObject(map[k := w]);
        assert !Valid(PropertiesOf(f)[k], v.fields[k]);
      }
    }
  }

  // -- Values no list holds --------------------------------------------------------------------------

  function Xs(n: nat): (s: string)
    ensures |s| == n
  {
    seq(n, i => 'x')
  }

  lemma {:induction false} LongText(items: seq<Json>) returns (n: nat)
    ensures forall i :: 0 <= i < |items| && items[i].JString? ==> |items[i].text| < n
    ensures JString(Xs(n)) !in items
  {
    if items == [] { return 0; }
    var m := |items| - 1;
    n := LongText(items[..m]);
    if items[m].JString? && |items[m].text| >= n { n := |items[m].text| + 1; }
    assert forall i :: 0 <= i < m ==> items[..m][i] == items[i];
  }

  lemma {:induction false} LargeNumber(items: seq<Json>) returns (x: real)
    ensures forall i :: 0 <= i < |items| && items[i].JNumber? && items[i].number.Finite? ==> items[i].number.value < x
    ensures JNumber(Finite(x)) !in items
  {
    if items == [] { return 0.0; }
    var m := |items| - 1;
    x := LargeNumber(items[..m]);
    if items[m].JNumber? && items[m].number.Finite? && items[m].number.value >= x { x := items[m].number.value + 1.0; }
    assert forall i :: 0 <= i < m ==> items[..m][i] == items[i];
  }

  lemma {:induction false} LongArray(items: seq<Json>) returns (n: nat)
    ensures forall i :: 0 <= i < |items| && items[i].JArray? ==> |items[i].items| < n
  {
    if items == [] { return 0; }
    var m := |items| - 1;
    n := LongArray(items[..m]);
    if items[m].JArray? && |items[m].items| >= n { n := |items[m].items| + 1; }
    assert forall i :: 0 <= i < m ==> items[..m][i] == items[i];
  }

  lemma {:induction false} LongKey(keys: set<string>) returns (n: nat)
    ensures forall k :: k in keys ==> |k| < n
    decreases |keys|
  {
    if keys == {} { return 0; }
    var k :| k in keys;
    n := LongKey(keys - {k});
    if |k| >= n { n := |k| + 1; }
  }

  lemma {:induction false} LongKeys(items: seq<Json>) returns (n: nat)
    ensures forall i, k :: 0 <= i < |items| && items[i].JObject? && k in items[i].fields ==> |k| < n
  {
    if items == [] { return 0; }
    var m := |items| - 1;
    n := LongKeys(items[..m]);
    if items[m].JObject? {
      var l := LongKey(items[m].fields.Keys);
      if l >= n { n := l; }
    }
    assert forall i :: 0 <= i < m ==> items[..m][i] == items[i];
  }

  // -- Every validator accepts something -------------------------------------------------------------

  function Inhabitant(z: Zod): Json
    decreases z
  {
    match z
    case ZUnknown => JNull
    case ZString => JString("")
    case ZNumber => JNumber(Finite(0.0))
    case ZBoolean => JBool(true)
    case ZNull => JNull
    case ZArray(_) => JArray([])
    case ZObject(shape) => JObject(map k | k in shape :: Inhabitant(shape[k].zod))
    case ZLiterals(values) => JString(if values == [] then "" else values[0])
  }

  lemma {:induction false} InhabitantIsAccepted(node: Json, lax: bool)
    requires Shaped(node)
    ensures !Throws(node) && Accepts(Translate(node), Inhabitant(Translate(node)), lax)
    decreases node, 1
  {
    ShapedTranslates(node);
    if node.JObject? && !IsStringEnum(node.fields) && TypeIs(node.fields, "object") {
      InhabitantOfShape(node, lax);
    }
  }

  /** An object with every declared key, and no other. */
  lemma {:induction false} InhabitantOfShape(node: Json, lax: bool)
    requires node.JObject? && ShapedObject(node)
    ensures !ShapeThrows(node)
    ensures var base := Inhabitant(ZObject(Shape(node)));
      && Accepts(ZObject(Shape(node)), base, lax) && base.JObject?
      && base.fields.Keys == Shape(node).Keys == PropertiesOf(node.fields).Keys
    decreases node, 0
  {
    var props := PropertiesOf(node.fields);
    ShapedObjectTranslates(node);
    forall k | k in props ensures Accepts(Shape(node)[k].zod, Inhabitant(Shape(node)[k].zod), lax) {
      InhabitantIsAccepted(props[k], lax);
    }
  }

  // -- Exactly when nothing invalid is accepted ------------------------------------------------------

  /** What a caller can check of a schema beforehand. */
  predicate Sound(node: Json, lax: bool)
    requires Shaped(node)
    decreases node, 1
  {
    if !node.JObject? then node != JBool(false)
    else
      var f := node.fields;
      if IsStringEnum(f) then "type" in f ==> TypeHolds(f["type"], JString(""))
      else if TypeIs(f, "string") || TypeIs(f, "number") then !HasEnum(f)
      else if TypeIs(f, "integer") then false
      else if TypeIs(f, "boolean") then HasEnum(f) ==> JBool(true) in f["enum"].items && JBool(false) in f["enum"].items
      else if TypeIs(f, "null") then HasEnum(f) ==> JNull in f["enum"].items
      else if TypeIs(f, "array") then !HasEnum(f) && ("items" in f ==> Sound(f["items"], lax))
      else if TypeIs(f, "object") then !HasEnum(f) && SoundObject(node, lax)
      else Universal(node)
  }

  /** Every property is sound, and a missing required key is noticed. */
  predicate SoundObject(node: Json, lax: bool)
    requires node.JObject? && ShapedObject(node)
    decreases node, 0
  {
    var props, required := PropertiesOf(node.fields), RequiredOf(node.fields);
    && (forall k :: k in props ==> Sound(props[k], lax))
    && (forall i :: 0 <= i < |required| && required[i].JString? ==>
          required[i].text in props && Notices(props[required[i].text], lax))
  }

  /** The validator of a property does not pass an absent key. */
  predicate Notices(node: Json, lax: bool)
    requires Shaped(node)
  {
    ShapedTranslates(node);
    !(lax && Translate(node).ZUnknown?)
  }

  lemma {:induction false} SoundAccepts(node: Json, v: Json, lax: bool)
    requires Shaped(node) && Sound(node, lax) && !Throws(node) && Accepts(Translate(node), v, lax)
    ensures Valid(node, v)
    decreases node, 1
  {
    if node.JObject? {
      var f := node.fields;
      if IsStringEnum(f) {
        EnumHolds(f["enum"].items, v);
        if "type" in f { TypeByKind(f["type"], v); }
      } else if TypeIs(f, "array") {
        if "items" in f {
          forall i | 0 <= i < |v.items| ensures Valid(f["items"], v.items[i]) {
            SoundAccepts(f["items"], v.items[i], lax);
          }
        }
      } else if TypeIs(f, "object") {
        SoundObjectAccepts(node, v, lax);
      } else if !(TypeIs(f, "string") || TypeIs(f, "number") || TypeIs(f, "boolean") || TypeIs(f, "null")) {
        UniversalAccepts(node, v);
      }
    }
  }

  lemma {:induction false} SoundObjectAccepts(node: Json, v: Json, lax: bool)
    requires node.JObject? && TypeIs(node.fields, "object") && !HasEnum(node.fields)
    requires ShapedObject(node) && SoundObject(node, lax) && !ShapeThrows(node)
    requires Accepts(ZObject(Shape(node)), v, lax)
    ensures Valid(node, v)
    decreases node, 0
  {
    var f := node.fields;
    var props, required := PropertiesOf(f), RequiredOf(f);
    ShapedObjectTranslates(node);
    forall k | k in props && k in v.fields ensures Valid(props[k], v.fields[k]) {
      assert k in Shape(node);
      ShapedTranslates(props[k]);
      SoundAccepts(props[k], v.fields[k], lax);
    }
    forall i | 0 <= i < |required| && required[i].JString? ensures required[i].text in v.fields {
      var key := required[i].text;
      assert required[i] == JString(key) && key in Shape(node) && IsRequired(f, key);
      ShapedTranslates(props[key]);
    }
  }

  // -- The converse ----------------------------------------------------------------------------------

  /** A schema that is not sound has a value its validator accepts and it does not, however deep the
      fault lies. */
  lemma {:induction false} Unsound(node: Json, lax: bool) returns (v: Json)
    requires Shaped(node) && !Sound(node, lax)
    ensures !Throws(node) && Accepts(Translate(node), v, lax) && !Valid(node, v)
    decreases node, 1
  {
    ShapedTranslates(node);
    v := JNull;
    if node.JObject? {
      var f := node.fields;
      if IsStringEnum(f) {
        v := f["enum"].items[0];
        EnumHolds(f["enum"].items, v);
        if TypeHolds(f["type"], v) { TypeOfStrings(f["type"], v.text); }
      } else if TypeIs(f, "string") {
        var n := LongText(f["enum"].items);
        v := JString(Xs(n));
      } else if TypeIs(f, "number") {
        var x := LargeNumber(f["enum"].items);
        v := JNumber(Finite(x));
      } else if TypeIs(f, "integer") {
        assert 0.5.Floor == 0;
        v := JNumber(Finite(0.5));
      } else if TypeIs(f, "boolean") {
        v := JBool(JBool(true) !in f["enum"].items);
      } else if TypeIs(f, "null") {
      } else if TypeIs(f, "array") {
        v := UnsoundArray(node, lax);
      } else if TypeIs(f, "object") {
        v := UnsoundObject(node, lax);
      } else {
        v := RefusedBy(node);
      }
    }
  }

  lemma TypeOfStrings(t: Json, s: string)
    requires TypeHolds(t, JString(s))
    ensures TypeHolds(t, JString(""))
  {
    if t.JArray? {
      var i :| 0 <= i < |t.items| && t.items[i].JString? && HasType(t.items[i].text, JString(s));
      assert HasType(t.items[i].text, JString(""));
    }
  }

  lemma {:induction false} UnsoundArray(node: Json, lax: bool) returns (v: Json)
    requires node.JObject? && TypeIs(node.fields, "array") && !IsStringEnum(node.fields) && Shaped(node)
    requires HasEnum(node.fields) || ("items" in node.fields && !Sound(node.fields["items"], lax))
    ensures !Throws(node) && Accepts(Translate(node), v, lax) && !Valid(node, v)
    decreases node, 0
  {
    var f := node.fields;
    ShapedTranslates(node);
    if HasEnum(f) {
      var n := LongArray(f["enum"].items);
      var w := JNull;
      if "items" in f {
        InhabitantIsAccepted(f["items"], lax);
        w := Inhabitant(Translate(f["items"]));
      }
      v := JArray(seq(n, i => w));
      assert v !in f["enum"].items;
    } else {
      var w := Unsound(f["items"], lax);
      v := JArray([w]);
      assert !Valid(f["items"], v.items[0]);
    }
  }

  lemma {:induction false} UnsoundObject(node: Json, lax: bool) returns (v: Json)
    requires node.JObject? && TypeIs(node.fields, "object") && !IsStringEnum(node.fields) && Shaped(node)
    requires HasEnum(node.fields) || !SoundObject(node, lax)
    ensures !Throws(node) && Accepts(Translate(node), v, lax) && !Valid(node, v)
    decreases node, 0
  {
    var f := node.fields;
    var props, required := PropertiesOf(f), RequiredOf(f);
    ShapedTranslates(node);
    ShapedObjectTranslates(node);
    hide Valid, Accepts, Inhabitant;
    if HasEnum(f) {
      v := OutsideEnum(node, lax);
    } else if k :| k in props && !Sound(props[k], lax) {
      var w := Unsound(props[k], lax);
      v := WithProperty(node, k, w, lax);
    } else {
      var i :| 0 <= i < |required| && required[i].JString?
        && !(required[i].text in props && Notices(props[required[i].text], lax));
      v := WithoutRequired(node, i, lax);
    }
  }

  /** An object with a key that none of the enum's has. */
  lemma OutsideEnum(node: Json, lax: bool) returns (v: Json)
    requires node.JObject? && HasEnum(node.fields) && ShapedObject(node)
    ensures !ShapeThrows(node) && Accepts(ZObject(Shape(node)), v, lax) && !Valid(node, v)
  {
    InhabitantOfShape(node, lax);
    var base := Inhabitant(ZObject(Shape(node))).fields;
    hide Inhabitant, Translate;
    var items := node.fields["enum"].items;
    var n := LongKeys(items);
    var m := LongKey(PropertiesOf(node.fields).Keys);
    var key := Xs(n + m);
    v := JObject(base[key := JNull]);
    assert key in v.fields && key !in PropertiesOf(node.fields);
    assert v !in items;
  }

  /** An object with one property its schema does not accept. */
  lemma WithProperty(node: Json, k: string, w: Json, lax: bool) returns (v: Json)
    requires node.JObject? && ShapedObject(node) && k in PropertiesOf(node.fields)
    requires !Throws(PropertiesOf(node.fields)[k]) && !Valid(PropertiesOf(node.fields)[k], w)
    requires Accepts(Translate(PropertiesOf(node.fields)[k]), w, lax)
    ensures !ShapeThrows(node) && Accepts(ZObject(Shape(node)), v, lax) && !Valid(node, v)
  {
    InhabitantOfShape(node, lax);
    ShapedObjectTranslates(node);
    var base := Inhabitant(ZObject(Shape(node))).fields;
    hide Inhabitant, Throws, Shaped;
    v := JObject(base[k := w]);
    assert !Valid(PropertiesOf(node.fields)[k], v.fields[k]);
  }

  /** An object without a required key that is not declared, or not noticed. */
  lemma WithoutRequired(node: Json, i: nat, lax: bool) returns (v: Json)
    requires node.JObject? && ShapedObject(node) && i < |RequiredOf(node.fields)| && RequiredOf(node.fields)[i].JString?
    requires var props, key := PropertiesOf(node.fields), RequiredOf(node.fields)[i].text;
      key !in props || !Notices(props[key], lax)
    ensures !ShapeThrows(node) && Accepts(ZObject(Shape(node)), v, lax) && !Valid(node, v)
  {
    InhabitantOfShape(node, lax);
    ShapedObjectTranslates(node);
    var base := Inhabitant(ZObject(Shape(node))).fields;
    hide Inhabitant;
    var key := RequiredOf(node.fields)[i].text;
    v := JObject(base - {key});
    assert !HasRequired(node.fields, v.fields);
  }

  /** The validator accepts nothing that the schema does not exactly when the schema is sound. */
  lemma SoundExactly(node: Json, lax: bool)
    requires Shaped(node)
    ensures !Throws(node)
    ensures (forall v :: Accepts(Translate(node), v, lax) ==> Valid(node, v)) <==> Sound(node, lax)
  {
    ShapedTranslates(node);
    if Sound(node, lax) {
      forall v | Accepts(Translate(node), v, lax) ensures Valid(node, v) {
        SoundAccepts(node, v, lax);
      }
    } else {
      var v := Unsound(node, lax);
    }
  }

  /** On a sound schema it accepts exactly the valid values without an overflow. */
  lemma Exact(node: Json, v: Json, lax: bool)
    requires Shaped(node) && Sound(node, lax)
    ensures !Throws(node)
    ensures Accepts(Translate(node), v, lax) <==> Valid(node, v) && !Overflows(node, v)
  {
    ShapedTranslates(node);
    if Valid(node, v) { Complete(node, v, lax); }
    if Accepts(Translate(node), v, lax) { SoundAccepts(node, v, lax); }
  }

  // -- The schemas tools use -------------------------------------------------------------------------

  /** No keyword constrains anything. */
  predicate Unconstrained(node: Json) {
    match node
    case JBool(allows) => allows
    case JObject(f) => f.Keys !! {"type", "enum", "required", "properties", "items"}
    case _ => false
  }

  /** Strings, numbers, booleans, nulls, arrays, objects and string enums, whose required keys are
      declared, and not without constraint. */
  predicate Plain(node: Json)
    decreases node, 1
  {
    || Unconstrained(node)
    || (node.JObject? &&
        var f := node.fields;
        if IsStringEnum(f) then "type" !in f || TypeIs(f, "string")
        else
          && "enum" !in f
          && (|| TypeIs(f, "string") || TypeIs(f, "number") || TypeIs(f, "boolean") || TypeIs(f, "null")
              || (TypeIs(f, "array") && ("items" in f ==> Plain(f["items"])))
              || (TypeIs(f, "object") && PlainObject(node))))
  }

  predicate PlainObject(node: Json)
    requires node.JObject?
    decreases node, 0
  {
    var f := node.fields;
    && ("properties" in f ==> f["properties"].JObject?)
    && (forall k :: k in PropertiesOf(f) ==> Plain(PropertiesOf(f)[k]))
    && ("required" in f ==> f["required"].JArray?)
    && (forall i :: 0 <= i < |RequiredOf(f)| ==> Declared(f, RequiredOf(f)[i]))
  }

  predicate Declared(f: map<string, Json>, key: Json) {
    key.JString? && key.text in PropertiesOf(f) && !Unconstrained(PropertiesOf(f)[key.text])
  }

  /** They are all sound. */
  lemma {:induction false} PlainIsSound(node: Json, lax: bool)
    requires Plain(node)
    ensures Shaped(node) && Sound(node, lax)
    ensures !Unconstrained(node) ==> !Throws(node) && !Translate(node).ZUnknown?
    decreases node, 1
  {
    if node.JObject? && !IsStringEnum(node.fields) {
      var f := node.fields;
      if TypeIs(f, "array") && "items" in f { PlainIsSound(f["items"], lax); }
      if TypeIs(f, "object") { PlainObjectIsSound(node, lax); }
    }
    ShapedTranslates(node);
  }

  lemma {:induction false} PlainObjectIsSound(node: Json, lax: bool)
    requires node.JObject? && PlainObject(node)
    ensures ShapedObject(node) && SoundObject(node, lax)
    decreases node, 0
  {
    var f := node.fields;
    forall k | k in PropertiesOf(f)
      ensures Shaped(PropertiesOf(f)[k]) && Sound(PropertiesOf(f)[k], lax)
      ensures !Unconstrained(PropertiesOf(f)[k]) ==> Notices(PropertiesOf(f)[k], lax)
    {
      PlainIsSound(PropertiesOf(f)[k], lax);
    }
    forall i | 0 <= i < |RequiredOf(f)| ensures Declared(f, RequiredOf(f)[i]) {}
  }

  // -- What is let through ---------------------------------------------------------------------------

  /** A number too large for a double is refused by the validator of a number. */
  lemma LargeNumberIsRefused(lax: bool)
    ensures var schema, large := JObject(map["type" := JString("number")]), JNumber(Infinite(false));
      Valid(schema, large) && !Throws(schema) && !Accepts(Translate(schema), large, lax)
  {
    var schema := JObject(map["type" := JString("number")]);
    assert Translate(schema) == ZNumber;
  }

  /** An integer schema lets fractions through. */
  lemma IntegerLetsFractionsThrough(lax: bool)
    ensures var schema, half := JObject(map["type" := JString("integer")]), JNumber(Finite(0.5));
      Shaped(schema) && !Throws(schema) && Accepts(Translate(schema), half, lax) && !Valid(schema, half)
  {
    var schema, half := JObject(map["type" := JString("integer")]), JNumber(Finite(0.5));
    assert 0.5.Floor == 0;
    assert !HasType("integer", half);
    assert Translate(schema) == ZNumber;
  }

  /** An enum of anything but strings lets everything through. */
  lemma NumberEnumLetsAllThrough(lax: bool)
    ensures var schema := JObject(map["enum" := JArray([JNumber(Finite(1.0))])]);
      Shaped(schema) && !Throws(schema) && Accepts(Translate(schema), JNull, lax) && !Valid(schema, JNull)
  {
    var schema := JObject(map["enum" := JArray([JNumber(Finite(1.0))])]);
    assert !schema.fields["enum"].items[0].JString?;
    assert Translate(schema) == ZUnknown;
  }

  /** So does a list of types. */
  lemma TypeListLetsAllThrough(lax: bool)
    ensures var schema := JObject(map["type" := JArray([JString("string"), JString("null")])]);
      Shaped(schema) && !Throws(schema) && Accepts(Translate(schema), JBool(true), lax) && !Valid(schema, JBool(true))
  {
    var names := [JString("string"), JString("null")];
    var schema := JObject(map["type" := JArray(names)]);
    assert forall i :: 0 <= i < 2 ==> !HasType(names[i].text, JBool(true));
    assert Translate(schema) == ZUnknown;
  }

  /** A required key that is not declared may be missing. */
  lemma UndeclaredKeyMayBeMissing(lax: bool)
    ensures var schema := JObject(map["type" := JString("object"), "required" := JArray([JString("x")])]);
      Shaped(schema) && !Throws(schema) && Accepts(Translate(schema), JObject(map[]), lax) && !Valid(schema, JObject(map[]))
  {
    var schema := JObject(map["type" := JString("object"), "required" := JArray([JString("x")])]);
    assert Translate(schema) == ZObject(Shape(schema)) && Shape(schema) == map[];
    assert RequiredOf(schema.fields)[0] == JString("x");
    assert !HasRequired(schema.fields, map[]);
  }

  /** An enum of strings forgets the type beside it. */
  lemma EnumForgetsType(lax: bool)
    ensures var schema := JObject(map["type" := JString("number"), "enum" := JArray([JString("a")])]);
      Shaped(schema) && !Throws(schema) && Accepts(Translate(schema), JString("a"), lax) && !Valid(schema, JString("a"))
  {
    var schema := JObject(map["type" := JString("number"), "enum" := JArray([JString("a")])]);
    assert !HasType("number", JString("a"));
    assert EnumValues([JString("a")])[0] == "a";
  }
}
