/**
 * Draft validation (schema.go): a JSON Schema relaxed so that a half-filled document passes. Validity is
 * given for the object, array and combinator keywords of JSON Schema 2020-12 that the claims are about.
 */
module Schema {
  import opened Basics

  datatype Json =
    | Null
    | Boolean(value: bool)
    | Number(number: int)
    | Text(text: string)
    | List(items: seq<Json>)
    | Object(members: map<string, Json>)

  const SCHEMA_VALUES: seq<string> := [
    "additionalItems", "additionalProperties", "contains", "contentSchema", "else", "if", "items", "not",
    "propertyNames", "then", "unevaluatedItems", "unevaluatedProperties"]

  const SCHEMA_MAPS: seq<string> := ["$defs", "definitions", "dependentSchemas", "patternProperties", "properties"]

  const SCHEMA_LISTS: seq<string> := ["allOf", "anyOf", "oneOf", "prefixItems"]

  const COMPLETENESS: seq<string> := ["dependentRequired", "minItems", "minProperties", "required"]

  /** `relaxSchema`: no completeness keyword survives at any depth a schema can stand. */
  function Relax(node: Json): Json
    decreases node, 0
  {
    match node
    case Object(m) => Object(map key | key in m && key !in COMPLETENESS :: RelaxUnder(key, m[key]))
    case _ => node
  }

  /** What a keyword's value becomes: schemas inside it are relaxed, anything else is kept. */
  function RelaxUnder(key: string, value: Json): Json
    decreases value, 1
  {
    if key in SCHEMA_VALUES then Relax(value)
    else if key in SCHEMA_MAPS then RelaxMap(value)
    else if key in SCHEMA_LISTS then RelaxList(value)
    else value
  }

  function RelaxMap(node: Json): Json
    decreases node, 0
  {
    match node
    case Object(m) => Object(map name | name in m :: Relax(m[name]))
    case _ => node
  }

  function RelaxList(node: Json): Json
    decreases node, 0
  {
    match node
    case List(xs) => List(seq(|xs|, i requires 0 <= i < |xs| => Relax(xs[i])))
    case _ => node
  }

  // ---------------------------------------------------------------- the walk

  /** The walk as it runs: a fresh map filled key by key. */
  method RelaxSchema(node: Json) returns (out: Json)
    ensures out == Relax(node)
    decreases node
  {
    if !node.Object? {
      return node;
    }
    var m, built := node.members, map[];
    var keys := m.Keys;
    while keys != {}
      invariant keys <= m.Keys
      invariant built == map key | key in m && key !in keys && key !in COMPLETENESS :: RelaxUnder(key, m[key])
    {
      var key :| key in keys;
      keys := keys - {key};
      if key in COMPLETENESS {
        continue;
      }
      var value := m[key];
      if key in SCHEMA_VALUES {
        value := RelaxSchema(m[key]);
      } else if key in SCHEMA_MAPS {
        value := RelaxSchemaMap(m[key]);
      } else if key in SCHEMA_LISTS {
        value := RelaxSchemaList(m[key]);
      }
      built := built[key := value];
    }
    return Object(built);
  }

  method RelaxSchemaMap(node: Json) returns (out: Json)
    ensures out == RelaxMap(node)
    decreases node
  {
    if !node.Object? {
      return node;
    }
    var m, built := node.members, map[];
    var names := m.Keys;
    while names != {}
      invariant names <= m.Keys
      invariant built == map name | name in m && name !in names :: Relax(m[name])
    {
      var name :| name in names;
      names := names - {name};
      var relaxed := RelaxSchema(m[name]);
      built := built[name := relaxed];
    }
    return Object(built);
  }

  method RelaxSchemaList(node: Json) returns (out: Json)
    ensures out == RelaxList(node)
    decreases node
  {
    if !node.List? {
      return node;
    }
    var built := [];
    for i := 0 to |node.items|
      invariant |built| == i && forall k :: 0 <= k < i ==> built[k] == Relax(node.items[k])
    {
      var relaxed := RelaxSchema(node.items[i]);
      built := built + [relaxed];
    }
    return List(built);
  }

  // ---------------------------------------------------------------- relaxation itself

  /** Relaxing twice is relaxing once. */
  lemma {:induction false} RelaxIdempotent(node: Json)
    ensures Relax(Relax(node)) == Relax(node)
    decreases node, 0
  {
    if node.Object? {
      var m := node.members;
      forall key | key in m && key !in COMPLETENESS ensures RelaxUnder(key, RelaxUnder(key, m[key])) == RelaxUnder(key, m[key]) {
        RelaxUnderIdempotent(key, m[key]);
      }
      assert Relax(Relax(node)).members == Relax(node).members;
    }
  }

  lemma {:induction false} RelaxUnderIdempotent(key: string, value: Json)
    ensures RelaxUnder(key, RelaxUnder(key, value)) == RelaxUnder(key, value)
    decreases value, 1
  {
    if key in SCHEMA_VALUES {
      RelaxIdempotent(value);
    } else if key in SCHEMA_MAPS && value.Object? {
      forall name | name in value.members ensures Relax(Relax(value.members[name])) == Relax(value.members[name]) {
        RelaxIdempotent(value.members[name]);
      }
      assert RelaxMap(RelaxMap(value)).members == RelaxMap(value).members;
    } else if key in SCHEMA_LISTS && value.List? {
      forall i | 0 <= i < |value.items| ensures Relax(Relax(value.items[i])) == Relax(value.items[i]) {
        RelaxIdempotent(value.items[i]);
      }
      assert RelaxList(RelaxList(value)).items == RelaxList(value).items;
    }
  }

  /** A property may be named like a keyword: none is lost, and each keeps its relaxed schema. */
  lemma PropertiesKept(node: Json, name: string)
    requires node.Object? && "properties" in node.members && node.members["properties"].Object?
    requires name in node.members["properties"].members
    ensures Relax(node).Object? && "properties" in Relax(node).members
    ensures Relax(node).members["properties"] == RelaxMap(node.members["properties"])
    ensures RelaxMap(node.members["properties"]).members.Keys == node.members["properties"].members.Keys
    ensures RelaxMap(node.members["properties"]).members[name] == Relax(node.members["properties"].members[name])
  {
    assert SCHEMA_MAPS[4] == "properties";
    Distinct("properties");
  }

  /** The keyword tables do not overlap at `properties`. */
  lemma Distinct(key: string)
    requires key == "properties"
    ensures key !in COMPLETENESS && key !in SCHEMA_VALUES && key in SCHEMA_MAPS
  {
    assert SCHEMA_MAPS[4] == key;
    assert forall i :: 0 <= i < |COMPLETENESS| ==> COMPLETENESS[i] != key;
    assert forall i :: 0 <= i < |SCHEMA_VALUES| ==> SCHEMA_VALUES[i] != key;
  }

  // ---------------------------------------------------------------- validity

  predicate HasType(d: Json, name: string) {
    match d
    case Null => name == "null"
    case Boolean(_) => name == "boolean"
    case Number(_) => name == "number" || name == "integer"
    case Text(_) => name == "string"
    case List(_) => name == "array"
    case Object(_) => name == "object"
  }

  predicate TypeAllows(t: Json, d: Json) {
    match t
    case Text(name) => HasType(d, name)
    case List(names) => exists i :: 0 <= i < |names| && names[i].Text? && HasType(d, names[i].text)
    case _ => false
  }

  predicate Names(list: Json, members: map<string, Json>) {
    list.List? ==> forall i :: 0 <= i < |list.items| && list.items[i].Text? ==> list.items[i].text in members
  }

  /** The four completeness keywords (sections 6.4.2, 6.5.2, 6.5.3 and 6.5.4 of JSON Schema Validation 2020-12). */
  predicate Complete(m: map<string, Json>, d: Json) {
    && ("required" in m && d.Object? ==> Names(m["required"], d.members))
    && ("minProperties" in m && m["minProperties"].Number? && d.Object? ==> m["minProperties"].number <= |d.members|)
    && ("minItems" in m && m["minItems"].Number? && d.List? ==> m["minItems"].number <= |d.items|)
    && ("dependentRequired" in m && m["dependentRequired"].Object? && d.Object? ==>
          forall k :: k in m["dependentRequired"].members && k in d.members ==> Names(m["dependentRequired"].members[k], d.members))
  }

  function Declared(m: map<string, Json>): map<string, Json> {
    if "properties" in m && m["properties"].Object? then m["properties"].members else map[]
  }

  function Listed(m: map<string, Json>, key: string): seq<Json> {
    if key in m && m[key].List? then m[key].items else []
  }

  /** Whether a document satisfies a schema made of these keywords. */
  predicate Valid(s: Json, d: Json)
    decreases s
  {
    match s
    case Boolean(b) => b
    case Object(m) =>
      && ("type" in m ==> TypeAllows(m["type"], d))
      && (d.Object? ==> forall k :: k in Declared(m) && k in d.members ==> Valid(Declared(m)[k], d.members[k]))
      && ("additionalProperties" in m && d.Object? ==>
            forall k :: k in d.members && k !in Declared(m) ==> Valid(m["additionalProperties"], d.members[k]))
      && ("items" in m && d.List? ==> forall i :: 0 <= i < |d.items| ==> Valid(m["items"], d.items[i]))
      && (forall i :: 0 <= i < |Listed(m, "allOf")| ==> Valid(Listed(m, "allOf")[i], d))
      && ("anyOf" in m ==> exists i :: 0 <= i < |Listed(m, "anyOf")| && Valid(Listed(m, "anyOf")[i], d))
      && ("not" in m ==> !Valid(m["not"], d))
      && Complete(m, d)
    case _ => false
  }

  const FRAGMENT: set<string> := {
    "type", "properties", "additionalProperties", "items", "allOf", "anyOf",
    "required", "minProperties", "minItems", "dependentRequired"}

  /** A schema built from those keywords, at every depth: no negation among them. */
  predicate InFragment(s: Json)
    decreases s
  {
    match s
    case Boolean(_) => true
    case Object(m) =>
      && m.Keys <= FRAGMENT
      && (forall k :: k in Declared(m) ==> InFragment(Declared(m)[k]))
      && ("additionalProperties" in m ==> InFragment(m["additionalProperties"]))
      && ("items" in m ==> InFragment(m["items"]))
      && (forall i :: 0 <= i < |Listed(m, "allOf")| ==> InFragment(Listed(m, "allOf")[i]))
      && (forall i :: 0 <= i < |Listed(m, "anyOf")| ==> InFragment(Listed(m, "anyOf")[i]))
    case _ => false
  }

  /** `part` is `whole` with object members deleted, at any depth. */
  predicate DeletedFrom(part: Json, whole: Json)
    decreases whole
  {
    match whole
    case Object(m) =>
      part.Object? && part.members.Keys <= m.Keys &&
      forall k :: k in part.members ==> k in m && DeletedFrom(part.members[k], m[k])
    case List(xs) =>
      part.List? && |part.items| == |xs| && forall i :: 0 <= i < |xs| ==> DeletedFrom(part.items[i], xs[i])
    case _ => part == whole
  }

  /** How the keywords of the fragment are classified. */
  lemma Completeness()
    ensures forall k :: k in {"required", "minProperties", "minItems", "dependentRequired"} ==> k in COMPLETENESS
    ensures forall k :: k in {"type", "properties", "additionalProperties", "items", "allOf", "anyOf"} ==> k !in COMPLETENESS
  {
    assert COMPLETENESS[0] == "dependentRequired" && COMPLETENESS[1] == "minItems" && COMPLETENESS[2] == "minProperties" && COMPLETENESS[3] == "required";
  }

  lemma TypeUnder(value: Json)
    ensures RelaxUnder("type", value) == value
  {
  }

  lemma PropertiesUnder(value: Json)
    ensures RelaxUnder("properties", value) == RelaxMap(value)
  {
    assert SCHEMA_MAPS[4] == "properties";
  }

  lemma SchemaUnder(key: string, value: Json)
    requires key == "additionalProperties" || key == "items"
    ensures RelaxUnder(key, value) == Relax(value)
  {
    assert SCHEMA_VALUES[1] == "additionalProperties" && SCHEMA_VALUES[6] == "items";
  }

  lemma ListUnder(key: string, value: Json)
    requires key == "allOf" || key == "anyOf"
    ensures RelaxUnder(key, value) == RelaxList(value)
  {
    assert SCHEMA_LISTS[0] == "allOf" && SCHEMA_LISTS[1] == "anyOf";
  }

  /** Relaxing keeps every other keyword, with its own schemas relaxed. */
  lemma RelaxedAt(m: map<string, Json>, key: string)
    ensures Relax(Object(m)).Object?
    ensures key in Relax(Object(m)).members <==> key in m && key !in COMPLETENESS
    ensures key in Relax(Object(m)).members ==> Relax(Object(m)).members[key] == RelaxUnder(key, m[key])
  {
  }

  lemma RelaxedDeclared(m: map<string, Json>)
    ensures Relax(Object(m)).Object? && Declared(Relax(Object(m)).members).Keys == Declared(m).Keys
    ensures forall k :: k in Declared(m) ==> Declared(Relax(Object(m)).members)[k] == Relax(Declared(m)[k])
  {
    Completeness();
    RelaxedAt(m, "properties");
    if "properties" in m {
      PropertiesUnder(m["properties"]);
    }
  }

  lemma RelaxedListed(m: map<string, Json>, key: string)
    requires key == "allOf" || key == "anyOf"
    ensures Relax(Object(m)).Object? && |Listed(Relax(Object(m)).members, key)| == |Listed(m, key)|
    ensures forall i :: 0 <= i < |Listed(m, key)| ==> Listed(Relax(Object(m)).members, key)[i] == Relax(Listed(m, key)[i])
  {
    Completeness();
    RelaxedAt(m, key);
    if key in m {
      ListUnder(key, m[key]);
    }
  }

  lemma RelaxedSchema(m: map<string, Json>, key: string)
    requires key == "additionalProperties" || key == "items"
    ensures Relax(Object(m)).Object? && (key in Relax(Object(m)).members ==> key in m && Relax(Object(m)).members[key] == Relax(m[key]))
  {
    RelaxedAt(m, key);
    if key in m {
      SchemaUnder(key, m[key]);
    }
  }

  lemma RelaxedComplete(m: map<string, Json>, d: Json)
    ensures Relax(Object(m)).Object? && Complete(Relax(Object(m)).members, d)
  {
    Completeness();
    RelaxedAt(m, "required");
    RelaxedAt(m, "minProperties");
    RelaxedAt(m, "minItems");
    RelaxedAt(m, "dependentRequired");
  }

  /** The relaxed schema demands nothing of completeness and negates nothing. */
  lemma RelaxedDemands(m: map<string, Json>, d: Json)
    requires InFragment(Object(m))
    ensures Relax(Object(m)).Object? && Complete(Relax(Object(m)).members, d) && "not" !in Relax(Object(m)).members
  {
    RelaxedComplete(m, d);
    RelaxedAt(m, "not");
    assert "not" !in FRAGMENT;
  }

  /** A document with members deleted is of the same type. */
  lemma SameType(part: Json, whole: Json, t: Json)
    requires DeletedFrom(part, whole) && TypeAllows(t, whole)
    ensures TypeAllows(t, part)
  {
    if t.List? {
      var i :| 0 <= i < |t.items| && t.items[i].Text? && HasType(whole, t.items[i].text);
      assert HasType(part, t.items[i].text);
    }
  }

  /**
   * On the fragment, deleting members at any depth from a document that satisfies a schema leaves one
   * that satisfies the relaxed schema: every draft on the way to a complete form can be saved.
   */
  lemma {:induction false} DraftsPass(s: Json, whole: Json, part: Json)
    requires InFragment(s) && Valid(s, whole) && DeletedFrom(part, whole)
    ensures Valid(Relax(s), part)
    decreases s
  {
    if s.Object? {
      var m, r := s.members, Relax(s).members;
      TypePasses(m, r, whole, part);
      PropertiesPass(m, r, whole, part);
      ItemsPass(m, r, whole, part);
      CombinatorsPass(m, r, whole, part);
      RelaxedDemands(m, part);
    }
  }

  lemma {:induction false} TypePasses(m: map<string, Json>, r: map<string, Json>, whole: Json, part: Json)
    requires Valid(Object(m), whole) && DeletedFrom(part, whole) && Relax(Object(m)) == Object(r)
    ensures "type" in r ==> TypeAllows(r["type"], part)
  {
    RelaxedAt(m, "type");
    if "type" in r {
      TypeUnder(m["type"]);
      SameType(part, whole, m["type"]);
    }
  }

  lemma {:induction false} PropertiesPass(m: map<string, Json>, r: map<string, Json>, whole: Json, part: Json)
    requires InFragment(Object(m)) && Valid(Object(m), whole) && DeletedFrom(part, whole)
    requires Relax(Object(m)) == Object(r)
    ensures part.Object? ==> forall k :: k in Declared(r) && k in part.members ==> Valid(Declared(r)[k], part.members[k])
    ensures "additionalProperties" in r && part.Object? ==>
              forall k :: k in part.members && k !in Declared(r) ==> Valid(r["additionalProperties"], part.members[k])
    decreases Object(m), 0
  {
    RelaxedDeclared(m);
    RelaxedSchema(m, "additionalProperties");
    if part.Object? {
      forall k | k in Declared(r) && k in part.members ensures Valid(Declared(r)[k], part.members[k]) {
        DraftsPass(Declared(m)[k], whole.members[k], part.members[k]);
      }
      if "additionalProperties" in r {
        forall k | k in part.members && k !in Declared(r) ensures Valid(r["additionalProperties"], part.members[k]) {
          DraftsPass(m["additionalProperties"], whole.members[k], part.members[k]);
        }
      }
    }
  }

  lemma {:induction false} ItemsPass(m: map<string, Json>, r: map<string, Json>, whole: Json, part: Json)
    requires InFragment(Object(m)) && Valid(Object(m), whole) && DeletedFrom(part, whole)
    requires Relax(Object(m)) == Object(r)
    ensures "items" in r && part.List? ==> forall i :: 0 <= i < |part.items| ==> Valid(r["items"], part.items[i])
    decreases Object(m), 0
  {
    RelaxedSchema(m, "items");
    if "items" in r && part.List? {
      forall i | 0 <= i < |part.items| ensures Valid(r["items"], part.items[i]) {
        DraftsPass(m["items"], whole.items[i], part.items[i]);
      }
    }
  }

  lemma {:induction false} CombinatorsPass(m: map<string, Json>, r: map<string, Json>, whole: Json, part: Json)
    requires InFragment(Object(m)) && Valid(Object(m), whole) && DeletedFrom(part, whole)
    requires Relax(Object(m)) == Object(r)
    ensures forall i :: 0 <= i < |Listed(r, "allOf")| ==> Valid(Listed(r, "allOf")[i], part)
    ensures "anyOf" in r ==> exists i :: 0 <= i < |Listed(r, "anyOf")| && Valid(Listed(r, "anyOf")[i], part)
    decreases Object(m), 0
  {
    RelaxedListed(m, "allOf");
    RelaxedListed(m, "anyOf");
    RelaxedAt(m, "anyOf");
    forall i | 0 <= i < |Listed(r, "allOf")| ensures Valid(Listed(r, "allOf")[i], part) {
      DraftsPass(Listed(m, "allOf")[i], whole, part);
    }
    if "anyOf" in r {
      var i :| 0 <= i < |Listed(m, "anyOf")| && Valid(Listed(m, "anyOf")[i], whole);
      DraftsPass(Listed(m, "anyOf")[i], whole, part);
      assert Valid(Listed(r, "anyOf")[i], part);
    }
  }
}
