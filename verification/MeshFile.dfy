/** The mesh.json parser: a validating normaliser. */
module MeshFile {
  import opened Json
  import Options

  datatype Code = JsonInvalid | FlatArray | InvalidShape | NodeInvalid

  /** The node and field are named for an invalid node only; the field is empty when the node is no
      object. */
  datatype Error = Error(code: Code, node: string, field: string)

  datatype Result<T> = Ok(value: T) | Err(error: Error)

  // -- Field types -----------------------------------------------------------------------------------

  datatype Kind = AString | AFiniteNumber | AStringArray | APlainObject

  predicate IsStringArray(v: Json) {
    v.JArray? && forall i :: 0 <= i < |v.items| ==> v.items[i].JString?
  }

  predicate HasKind(v: Json, kind: Kind) {
    match kind
    case AString => v.JString?
    case AFiniteNumber => v.JNumber? && v.number.Finite?
    case AStringArray => IsStringArray(v)
    case APlainObject => v.JObject?
  }

  /** The known fields, in the order they are checked. */
  const CHECKS: seq<(string, Kind)> := [
    ("id", AString), ("name", AString), ("host", AString), ("port", AFiniteNumber), ("role", AString),
    ("status", AString), ("version", AString), ("sshUser", AString), ("installRoot", AString),
    ("platform", AString), ("lastSeen", AFiniteNumber), ("registeredAt", AFiniteNumber),
    ("agents", AStringArray), ("providers", AStringArray), ("models", AStringArray),
    ("capabilities", AStringArray), ("metadata", APlainObject)]

  predicate IsKnown(field: string) {
    exists i :: 0 <= i < |CHECKS| && CHECKS[i].0 == field
  }

  predicate PassesCheck(raw: map<string, Json>, i: int)
    requires 0 <= i < |CHECKS|
  {
    CHECKS[i].0 in raw ==> HasKind(raw[CHECKS[i].0], CHECKS[i].1)
  }

  /** Every known field that is present has its type. */
  predicate WellTyped(raw: map<string, Json>) {
    forall i :: 0 <= i < |CHECKS| ==> PassesCheck(raw, i)
  }

  // -- What a node becomes ---------------------------------------------------------------------------

  /** The fields every parsed node has, besides its id and name, and what they are when absent. */
  const DEFAULTS: map<string, Json> := map[
    "host" := JString(""), "port" := JNumber(Finite(0.0)), "agents" := JArray([]), "providers" := JArray([]),
    "models" := JArray([]), "capabilities" := JArray([]), "status" := JString("offline"),
    "lastSeen" := JNumber(Finite(0.0)), "registeredAt" := JNumber(Finite(0.0)), "version" := JString("")]

  /** A field that is a non-empty string, or else a fallback. */
  function NonEmpty(raw: map<string, Json>, field: string, fallback: string): string {
    if field in raw && raw[field].JString? && raw[field].text != "" then raw[field].text else fallback
  }

  /** The node under `key` with every field it had, the missing ones filled in. */
  function Normal(key: string, raw: map<string, Json>): map<string, Json> {
    var id := NonEmpty(raw, "id", key);
    (DEFAULTS + raw)["id" := JString(id)]["name" := JString(NonEmpty(raw, "name", id))]
  }

  /** The first check, from the `n`-th on, that fails. */
  function FirstBad(raw: map<string, Json>, n: nat): (r: nat)
    requires n <= |CHECKS|
    ensures n <= r <= |CHECKS|
    ensures forall i :: n <= i < r ==> PassesCheck(raw, i)
    ensures r < |CHECKS| ==> !PassesCheck(raw, r)
    decreases |CHECKS| - n
  {
    if n == |CHECKS| || !PassesCheck(raw, n) then n else FirstBad(raw, n + 1)
  }

  function NodeOutcome(key: string, raw: Json): Result<map<string, Json>> {
    if !raw.JObject? then Err(Error(NodeInvalid, key, ""))
    else
      var bad := FirstBad(raw.fields, 0);
      if bad < |CHECKS| then Err(Error(NodeInvalid, key, CHECKS[bad].0)) else Ok(Normal(key, raw.fields))
  }

  /** `parseMeshNode`. */
  method ParseMeshNode(key: string, raw: Json) returns (r: Result<map<string, Json>>)
    ensures r == NodeOutcome(key, raw)
  {
    if !raw.JObject? {
      return Err(Error(NodeInvalid, key, ""));
    }
    var fields := raw.fields;
    for i := 0 to |CHECKS|
      invariant FirstBad(fields, 0) == FirstBad(fields, i)
    {
      if CHECKS[i].0 in fields && !HasKind(fields[CHECKS[i].0], CHECKS[i].1) {
        return Err(Error(NodeInvalid, key, CHECKS[i].0));
      }
    }
    var node := KnownFields(fields);
    node := CopyUnknown(node, fields);
    var id := NonEmpty(fields, "id", key);
    r := Ok(node["id" := JString(id)]["name" := JString(NonEmpty(fields, "name", id))]);
  }

  /** What the node holds of a field. */
  function Filled(fields: map<string, Json>): map<string, Json> {
    DEFAULTS + fields
  }

  /** The known fields that are present, and the defaults of those that are not. */
  method KnownFields(fields: map<string, Json>) returns (node: map<string, Json>)
    ensures forall k :: k in node <==> IsKnown(k) && k in Filled(fields)
    ensures forall k :: k in node ==> node[k] == Filled(fields)[k]
  {
    node := map[];
    for i := 0 to |CHECKS|
      invariant forall k :: k in node <==> (exists j :: 0 <= j < i && CHECKS[j].0 == k) && k in Filled(fields)
      invariant forall k :: k in node ==> node[k] == Filled(fields)[k]
    {
      var field := CHECKS[i].0;
      if field in fields {
        node := node[field := fields[field]];
      } else if field in DEFAULTS {
        node := node[field := DEFAULTS[field]];
      }
    }
  }

  /** Unknown fields are copied verbatim, in whatever order the record enumerates them. */
  method CopyUnknown(known: map<string, Json>, fields: map<string, Json>) returns (node: map<string, Json>)
    requires forall k :: k in known <==> IsKnown(k) && k in Filled(fields)
    requires forall k :: k in known ==> known[k] == Filled(fields)[k]
    ensures node == Filled(fields)
  {
    DefaultsAreKnown();
    node := known;
    var todo := fields.Keys;
    while todo != {}
      invariant todo <= fields.Keys
      invariant forall k :: k in node <==> k in Filled(fields) && (IsKnown(k) || k !in todo)
      invariant forall k :: k in node ==> node[k] == Filled(fields)[k]
      decreases |todo|
    {
      var k :| k in todo;
      todo := todo - {k};
      if !IsKnown(k) {
        node := node[k := fields[k]];
      }
    }
  }

  lemma DefaultsAreKnown()
    ensures forall k :: k in DEFAULTS ==> IsKnown(k)
  {
    assert CHECKS[2].0 == "host" && CHECKS[3].0 == "port" && CHECKS[5].0 == "status" && CHECKS[6].0 == "version";
    assert CHECKS[10].0 == "lastSeen" && CHECKS[11].0 == "registeredAt" && CHECKS[12].0 == "agents";
    assert CHECKS[13].0 == "providers" && CHECKS[14].0 == "models" && CHECKS[15].0 == "capabilities";
  }

  // -- The file --------------------------------------------------------------------------------------

  /** Present, and not null. */
  predicate IsEntry(nodes: map<string, Json>, key: string) {
    key in nodes && nodes[key] != JNull
  }

  predicate Accepted(nodes: map<string, Json>, key: string) {
    IsEntry(nodes, key) && NodeOutcome(key, nodes[key]).Ok?
  }

  function NodesIn(root: map<string, Json>): map<string, Json> {
    if "nodes" in root && root["nodes"].JObject? then root["nodes"].fields else map[]
  }

  function NumberOr(root: map<string, Json>, field: string, fallback: real): Json {
    if field in root && HasKind(root[field], AFiniteNumber) then root[field] else JNumber(Finite(fallback))
  }

  /** The entries a node parser accepts, parsed. */
  function Kept(nodes: map<string, Json>): map<string, Json> {
    map k | k in nodes && Accepted(nodes, k) :: JObject(NodeOutcome(k, nodes[k]).value)
  }

  /** The root with its own fields and the three known ones. */
  function NormalRoot(root: map<string, Json>, nodes: map<string, Json>): map<string, Json> {
    root["version" := NumberOr(root, "version", 1.0)]["updatedAt" := NumberOr(root, "updatedAt", 0.0)]
        ["nodes" := JObject(nodes)]
  }

  /** The shape errors, which no option forgives. */
  function ShapeError(parsed: Json): Result<map<string, Json>> {
    if !parsed.JObject? then Err(Error(InvalidShape, "", ""))
    else if "nodes" in parsed.fields && parsed.fields["nodes"].JArray? then Err(Error(FlatArray, "", ""))
    else if "nodes" in parsed.fields && !parsed.fields["nodes"].JObject? then Err(Error(InvalidShape, "", ""))
    else Ok(parsed.fields)
  }

  /** What parsing a document may give. When several nodes are bad, which one is reported depends on the
      order of enumeration. */
  ghost predicate Outcome(parsed: Json, skip: bool, r: Result<map<string, Json>>) {
    var shape := ShapeError(parsed);
    if shape.Err? then r == shape
    else
      var nodes := NodesIn(shape.value);
      if skip || (forall k :: IsEntry(nodes, k) ==> Accepted(nodes, k)) then r == Ok(NormalRoot(shape.value, Kept(nodes)))
      else exists k :: IsEntry(nodes, k) && !Accepted(nodes, k) && r == NodeOutcome(k, nodes[k])
  }

  method ParseNodes(nodesIn: map<string, Json>, skip: bool) returns (r: Result<map<string, Json>>)
    ensures skip || (forall k :: IsEntry(nodesIn, k) ==> Accepted(nodesIn, k)) ==> r == Ok(Kept(nodesIn))
    ensures !(skip || (forall k :: IsEntry(nodesIn, k) ==> Accepted(nodesIn, k))) ==>
      exists k :: IsEntry(nodesIn, k) && !Accepted(nodesIn, k) && r == NodeOutcome(k, nodesIn[k])
  {
    hide NodeOutcome;
    var nodes: map<string, Json> := map[];
    var todo := nodesIn.Keys;
    while todo != {}
      invariant todo <= nodesIn.Keys
      invariant forall k :: k in nodes <==> k !in todo && Accepted(nodesIn, k)
      invariant forall k :: k in nodes ==> nodes[k] == JObject(NodeOutcome(k, nodesIn[k]).value)
      invariant skip || forall k :: k !in todo && IsEntry(nodesIn, k) ==> Accepted(nodesIn, k)
      decreases |todo|
    {
      var key :| key in todo;
      todo := todo - {key};
      if nodesIn[key] != JNull {
        var node := ParseMeshNode(key, nodesIn[key]);
        if node.Ok? {
          nodes := nodes[key := JObject(node.value)];
        } else if !skip {
          return Err(node.error);
        }
      }
    }
    assert nodes == Kept(nodesIn);
    r := Ok(nodes);
  }

  /** `assertRecordMeshFile`. */
  method AssertRecordMeshFile(parsed: Json, skip: bool) returns (r: Result<map<string, Json>>)
    ensures Outcome(parsed, skip, r)
  {
    if !parsed.JObject? {
      return Err(Error(InvalidShape, "", ""));
    }
    var root := parsed.fields;
    if "nodes" in root && root["nodes"].JArray? {
      return Err(Error(FlatArray, "", ""));
    }
    if "nodes" in root && !root["nodes"].JObject? {
      return Err(Error(InvalidShape, "", ""));
    }
    var nodes := ParseNodes(NodesIn(root), skip);
    if nodes.Err? {
      return Err(nodes.error);
    }
    var known := map["version" := NumberOr(root, "version", 1.0), "nodes" := JObject(nodes.value),
                     "updatedAt" := NumberOr(root, "updatedAt", 0.0)];
    var file := CopyRoot(known, root);
    RootForm(root, nodes.value);
    r := Ok(file);
  }

  lemma RootForm(root: map<string, Json>, nodes: map<string, Json>)
    ensures root + map["version" := NumberOr(root, "version", 1.0), "nodes" := JObject(nodes),
                       "updatedAt" := NumberOr(root, "updatedAt", 0.0)]
         == NormalRoot(root, nodes)
  {}

  const ROOT_KEYS := {"version", "nodes", "updatedAt"}

  method CopyRoot(known: map<string, Json>, root: map<string, Json>) returns (file: map<string, Json>)
    requires known.Keys == ROOT_KEYS
    ensures file == root + known
  {
    file := known;
    var todo := root.Keys;
    while todo != {}
      invariant todo <= root.Keys
      invariant forall k :: k in file <==> k in ROOT_KEYS || (k in root && k !in todo)
      invariant forall k :: k in file ==> file[k] == (root + known)[k]
      decreases |todo|
    {
      var k :| k in todo;
      todo := todo - {k};
      if k !in ROOT_KEYS {
        file := file[k := root[k]];
      }
    }
  }

  /** `parseMeshFile`: `document` is what `JSON.parse` makes of the text, nothing when it throws. */
  method ParseMeshFile(document: Options.Option<Json>, skip: bool) returns (r: Result<map<string, Json>>)
    ensures document.None? ==> r == Err(Error(JsonInvalid, "", ""))
    ensures document.Some? ==> Outcome(document.value, skip, r)
  {
    if document.None? {
      return Err(Error(JsonInvalid, "", ""));
    }
    r := AssertRecordMeshFile(document.value, skip);
  }

  // -- Nothing is lost, nothing changes twice --------------------------------------------------------

  /** A node is accepted exactly when it is an object whose known fields have their types. */
  lemma AcceptedWhenTyped(key: string, raw: Json)
    ensures NodeOutcome(key, raw).Ok? <==> raw.JObject? && WellTyped(raw.fields)
  {}

  const STRING_FIELDS: seq<string> :=
    ["id", "name", "host", "role", "status", "version", "sshUser", "installRoot", "platform"]

  const NUMBER_FIELDS: seq<string> := ["port", "lastSeen", "registeredAt"]

  const LIST_FIELDS: seq<string> := ["agents", "providers", "models", "capabilities"]

  /** What a field may hold. */
  predicate HasItsType(field: string, v: Json) {
    && (field in STRING_FIELDS ==> v.JString?)
    && (field in NUMBER_FIELDS ==> v.JNumber? && v.number.Finite?)
    && (field in LIST_FIELDS ==> v.JArray? && forall i :: 0 <= i < |v.items| ==> v.items[i].JString?)
    && (field == "metadata" ==> v.JObject?)
  }

  /** Every field is checked, each for one type. */
  lemma ChecksByKind(i: nat)
    requires i < |CHECKS|
    ensures CHECKS[i].1 == AString <==> CHECKS[i].0 in STRING_FIELDS
    ensures CHECKS[i].1 == AFiniteNumber <==> CHECKS[i].0 in NUMBER_FIELDS
    ensures CHECKS[i].1 == AStringArray <==> CHECKS[i].0 in LIST_FIELDS
    ensures CHECKS[i].1 == APlainObject <==> CHECKS[i].0 == "metadata"
  {
  }

  lemma KnownByKind(field: string)
    requires field in STRING_FIELDS + NUMBER_FIELDS + LIST_FIELDS + ["metadata"]
    ensures IsKnown(field)
  {
    assert CHECKS[0].0 == "id" && CHECKS[1].0 == "name" && CHECKS[2].0 == "host" && CHECKS[3].0 == "port";
    assert CHECKS[4].0 == "role" && CHECKS[5].0 == "status" && CHECKS[6].0 == "version" && CHECKS[7].0 == "sshUser";
    assert CHECKS[8].0 == "installRoot" && CHECKS[9].0 == "platform" && CHECKS[10].0 == "lastSeen";
    assert CHECKS[11].0 == "registeredAt" && CHECKS[12].0 == "agents" && CHECKS[13].0 == "providers";
    assert CHECKS[14].0 == "models" && CHECKS[15].0 == "capabilities" && CHECKS[16].0 == "metadata";
  }

  /** Those types, field by field. */
  lemma TypesOfFields(raw: map<string, Json>)
    ensures WellTyped(raw) <==> forall field :: field in raw ==> HasItsType(field, raw[field])
  {
    hide HasItsType, PassesCheck, IsKnown;
    if WellTyped(raw) {
      forall field | field in raw ensures HasItsType(field, raw[field]) {
        TypeOfField(raw, field);
      }
    }
    if forall field :: field in raw ==> HasItsType(field, raw[field]) {
      forall i: nat | i < |CHECKS| ensures PassesCheck(raw, i) {
        CheckOfType(raw, i);
      }
    }
  }

  lemma TypeOfField(raw: map<string, Json>, field: string)
    requires WellTyped(raw) && field in raw
    ensures HasItsType(field, raw[field])
  {
    if field in STRING_FIELDS + NUMBER_FIELDS + LIST_FIELDS + ["metadata"] {
      KnownByKind(field);
      var i: nat :| i < |CHECKS| && CHECKS[i].0 == field;
      assert PassesCheck(raw, i);
      ChecksByKind(i);
    }
  }

  lemma CheckOfType(raw: map<string, Json>, i: nat)
    requires i < |CHECKS| && (CHECKS[i].0 in raw ==> HasItsType(CHECKS[i].0, raw[CHECKS[i].0]))
    ensures PassesCheck(raw, i)
  {
    ChecksByKind(i);
  }

  /** Every field of a node survives verbatim, but for an id or name that is absent or empty; those are
      the key and the id. */
  lemma NodeIsLossless(key: string, raw: map<string, Json>, field: string)
    requires WellTyped(raw)
    ensures field in raw && field != "id" && field != "name" ==>
      field in Normal(key, raw) && Normal(key, raw)[field] == raw[field]
    ensures field in Normal(key, raw) && field !in raw ==> field in DEFAULTS || field == "id" || field == "name"
    ensures "id" in raw && raw["id"] != JString("") ==> Normal(key, raw)["id"] == raw["id"]
    ensures "name" in raw && raw["name"] != JString("") ==> Normal(key, raw)["name"] == raw["name"]
  {
    assert CHECKS[0] == ("id", AString) && CHECKS[1] == ("name", AString);
    assert PassesCheck(raw, 0) && PassesCheck(raw, 1);
  }

  /** A node without an id is named by its key, one without a name by its id. */
  lemma NamedByDefault(key: string, raw: map<string, Json>)
    requires WellTyped(raw)
    ensures "id" !in raw || raw["id"] == JString("") ==> Normal(key, raw)["id"] == JString(key)
    ensures "name" !in raw || raw["name"] == JString("") ==> Normal(key, raw)["name"] == Normal(key, raw)["id"]
  {
    assert CHECKS[0] == ("id", AString) && CHECKS[1] == ("name", AString);
    assert PassesCheck(raw, 0) && PassesCheck(raw, 1);
  }

  /** Of the other fields that are absent ten get a value: a text is empty, a status reads offline, a
      number is 0, a list is empty. */
  lemma AbsentField(key: string, raw: map<string, Json>, field: string)
    requires field !in raw && field != "id" && field != "name"
    ensures field in Normal(key, raw) <==> field in NUMBER_FIELDS + LIST_FIELDS + ["host", "version", "status"]
    ensures field in ["host", "version"] ==> Normal(key, raw)[field] == JString("")
    ensures field == "status" ==> Normal(key, raw)[field] == JString("offline")
    ensures field in NUMBER_FIELDS ==> Normal(key, raw)[field] == JNumber(Finite(0.0))
    ensures field in LIST_FIELDS ==> Normal(key, raw)[field] == JArray([])
  {
    assert field in Normal(key, raw) <==> field in DEFAULTS;
  }

  lemma NormalIsTyped(key: string, raw: map<string, Json>)
    requires WellTyped(raw)
    ensures WellTyped(Normal(key, raw))
  {
    var node := Normal(key, raw);
    forall i | 0 <= i < |CHECKS| ensures PassesCheck(node, i) {
      assert PassesCheck(raw, i);
      if CHECKS[i].0 in DEFAULTS { DefaultsPass(i); }
      if CHECKS[i].0 in {"id", "name"} { NamesAreStrings(i); }
    }
  }

  lemma DefaultsPass(i: nat)
    requires i < |CHECKS| && CHECKS[i].0 in DEFAULTS
    ensures HasKind(DEFAULTS[CHECKS[i].0], CHECKS[i].1)
  {}

  lemma NamesAreStrings(i: nat)
    requires i < |CHECKS| && CHECKS[i].0 in {"id", "name"}
    ensures CHECKS[i].1 == AString
  {}

  /** Parsing a parsed node changes nothing. */
  lemma NodeTwice(key: string, raw: map<string, Json>)
    requires WellTyped(raw)
    ensures NodeOutcome(key, JObject(Normal(key, raw))) == Ok(Normal(key, raw))
  {
    NormalIsTyped(key, raw);
    var node := Normal(key, raw);
    assert DEFAULTS + node == node;
    assert Normal(key, node) == node;
  }

  /** Parsing a parsed file changes nothing, under either policy. */
  lemma FileTwice(parsed: Json, skip: bool, file: map<string, Json>, again: bool, r: Result<map<string, Json>>)
    requires Outcome(parsed, skip, Ok(file)) && Outcome(JObject(file), again, r)
    ensures r == Ok(file)
  {
    var root := parsed.fields;
    var nodes := Kept(NodesIn(root));
    hide NodeOutcome, HasKind;
    KeptTwice(NodesIn(root));
    RootTwice(root, nodes);
  }

  lemma KeptTwice(nodes: map<string, Json>)
    ensures Kept(Kept(nodes)) == Kept(nodes)
    ensures forall k :: IsEntry(Kept(nodes), k) ==> Accepted(Kept(nodes), k)
  {
    hide NodeOutcome;
    var kept := Kept(nodes);
    forall k | k in kept ensures IsEntry(kept, k) && NodeOutcome(k, kept[k]) == NodeOutcome(k, nodes[k]) {
      OutcomeTwice(k, nodes[k]);
    }
    assert forall k :: k in kept ==> Accepted(kept, k);
  }

  lemma OutcomeTwice(key: string, raw: Json)
    requires NodeOutcome(key, raw).Ok?
    ensures NodeOutcome(key, JObject(NodeOutcome(key, raw).value)) == NodeOutcome(key, raw)
  {
    AcceptedWhenTyped(key, raw);
    NodeTwice(key, raw.fields);
  }

  lemma RootTwice(root: map<string, Json>, nodes: map<string, Json>)
    ensures var file := NormalRoot(root, nodes);
      && ShapeError(JObject(file)) == Ok(file) && NodesIn(file) == nodes && NormalRoot(file, nodes) == file
  {
    var file := NormalRoot(root, nodes);
    assert NormalRoot(file, nodes) == file;
  }

  /** Unknown root fields survive verbatim, and the three known ones are there. */
  lemma RootIsLossless(parsed: Json, skip: bool, file: map<string, Json>, field: string)
    requires Outcome(parsed, skip, Ok(file))
    ensures parsed.JObject? && file.Keys == parsed.fields.Keys + ROOT_KEYS
    ensures field in parsed.fields && field !in ROOT_KEYS ==> file[field] == parsed.fields[field]
  {}

  /** The version and the time of the last update are kept when they are numbers, and else 1 and 0. */
  lemma RootNumbers(parsed: Json, skip: bool, file: map<string, Json>, field: string)
    requires Outcome(parsed, skip, Ok(file)) && field in ["version", "updatedAt"]
    ensures parsed.JObject? && field in file
    ensures field in parsed.fields && parsed.fields[field].JNumber? && parsed.fields[field].number.Finite? ==>
      file[field] == parsed.fields[field]
    ensures field !in parsed.fields || !parsed.fields[field].JNumber? || !parsed.fields[field].number.Finite? ==>
      file[field] == JNumber(Finite(if field == "version" then 1.0 else 0.0))
  {}

  /** Throwing and skipping agree whenever throwing succeeds, which is when the shape is right and every
      entry is accepted. */
  lemma PoliciesAgree(parsed: Json, strict: Result<map<string, Json>>, lenient: Result<map<string, Json>>)
    requires Outcome(parsed, false, strict) && Outcome(parsed, true, lenient)
    ensures strict.Ok? <==>
      lenient.Ok? && forall k :: IsEntry(NodesIn(parsed.fields), k) ==> Accepted(NodesIn(parsed.fields), k)
    ensures strict.Ok? || lenient.Err? ==> strict == lenient
  {
    hide NodeOutcome;
  }

  /** Skipping keeps exactly the entries that a file of their own would pass with when throwing, and as
      they would be there. */
  lemma SkipKeepsTheGood(
      parsed: Json, file: map<string, Json>, key: string, alone: Result<map<string, Json>>)
    requires Outcome(parsed, true, Ok(file)) && IsEntry(NodesIn(parsed.fields), key)
    requires Outcome(JObject(map["nodes" := JObject(map[key := NodesIn(parsed.fields)[key]])]), false, alone)
    ensures key in NodesIn(file) <==> alone.Ok?
    ensures alone.Ok? ==> key in NodesIn(alone.value) && NodesIn(alone.value)[key] == NodesIn(file)[key]
  {
    hide NodeOutcome;
    var nodes := NodesIn(parsed.fields);
    var one := map[key := nodes[key]];
    var root := map["nodes" := JObject(one)];
    assert ShapeError(JObject(root)) == Ok(root) && NodesIn(root) == one;
    assert Accepted(nodes, key) <==> Accepted(one, key);
    RootTwice(parsed.fields, Kept(nodes));
    RootTwice(root, Kept(one));
    if Accepted(nodes, key) {
      assert forall k :: IsEntry(one, k) ==> k == key;
    }
  }

  /** An entry that is null is dropped under either policy. */
  lemma NullsVanish(parsed: Json, skip: bool, file: map<string, Json>, key: string)
    requires Outcome(parsed, skip, Ok(file)) && key in NodesIn(file)
    ensures IsEntry(NodesIn(parsed.fields), key) && Accepted(NodesIn(parsed.fields), key)
  {
    hide NodeOutcome;
    RootTwice(parsed.fields, Kept(NodesIn(parsed.fields)));
  }
}
