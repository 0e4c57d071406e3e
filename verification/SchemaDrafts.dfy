/**
 * What a relaxed schema still demands (schema.go): everything the schema does except completeness, at
 * every depth, for every schema and document.
 */
module SchemaDrafts {
  import opened Schema
  import opened SchemaNegation

  /** Whether a document satisfies a schema but for what is missing from it. */
  predicate ValidDraft(s: Json, d: Json)
    decreases s
  {
    match s
    case Boolean(b) => b
    case Object(m) =>
      && ("type" in m ==> TypeAllows(m["type"], d))
      && (d.Object? ==> forall k :: k in Declared(m) && k in d.members ==> ValidDraft(Declared(m)[k], d.members[k]))
      && ("additionalProperties" in m && d.Object? ==>
            forall k :: k in d.members && k !in Declared(m) ==> ValidDraft(m["additionalProperties"], d.members[k]))
      && ("items" in m && d.List? ==> forall i :: 0 <= i < |d.items| ==> ValidDraft(m["items"], d.items[i]))
      && (forall i :: 0 <= i < |Listed(m, "allOf")| ==> ValidDraft(Listed(m, "allOf")[i], d))
      && ("anyOf" in m ==> exists i :: 0 <= i < |Listed(m, "anyOf")| && ValidDraft(Listed(m, "anyOf")[i], d))
      && ("not" in m ==> !ValidDraft(m["not"], d))
    case _ => false
  }

  // ---------------------------------------------------------------- keyword by keyword

  predicate TypeOk(m: map<string, Json>, d: Json) {
    "type" in m ==> TypeAllows(m["type"], d)
  }

  predicate PropertiesOk(m: map<string, Json>, d: Json, draft: bool) {
    d.Object? ==> forall k :: k in Declared(m) && k in d.members ==> Judged(Declared(m)[k], d.members[k], draft)
  }

  predicate OthersOk(m: map<string, Json>, d: Json, draft: bool) {
    "additionalProperties" in m && d.Object? ==>
      forall k :: k in d.members && k !in Declared(m) ==> Judged(m["additionalProperties"], d.members[k], draft)
  }

  predicate ItemsOk(m: map<string, Json>, d: Json, draft: bool) {
    "items" in m && d.List? ==> forall i :: 0 <= i < |d.items| ==> Judged(m["items"], d.items[i], draft)
  }

  predicate AllOk(m: map<string, Json>, d: Json, draft: bool) {
    forall i :: 0 <= i < |Listed(m, "allOf")| ==> Judged(Listed(m, "allOf")[i], d, draft)
  }

  predicate AnyOk(m: map<string, Json>, d: Json, draft: bool) {
    "anyOf" in m ==> exists i :: 0 <= i < |Listed(m, "anyOf")| && Judged(Listed(m, "anyOf")[i], d, draft)
  }

  predicate NotOk(m: map<string, Json>, d: Json, draft: bool) {
    "not" in m ==> !Judged(m["not"], d, draft)
  }

  /** As a draft, or in full. */
  predicate Judged(s: Json, d: Json, draft: bool) {
    if draft then ValidDraft(s, d) else Valid(s, d)
  }

  lemma ValidParts(m: map<string, Json>, d: Json)
    ensures Valid(Object(m), d) <==>
            && TypeOk(m, d) && PropertiesOk(m, d, false) && OthersOk(m, d, false) && ItemsOk(m, d, false)
            && AllOk(m, d, false) && AnyOk(m, d, false) && NotOk(m, d, false) && Complete(m, d)
  {
  }

  lemma DraftParts(m: map<string, Json>, d: Json)
    ensures ValidDraft(Object(m), d) <==>
            && TypeOk(m, d) && PropertiesOk(m, d, true) && OthersOk(m, d, true) && ItemsOk(m, d, true)
            && AllOk(m, d, true) && AnyOk(m, d, true) && NotOk(m, d, true)
  {
  }

  /** The relaxed schema accepts exactly the documents that are valid but for completeness. */
  lemma {:induction false} RelaxMeans(s: Json, d: Json)
    ensures Valid(Relax(s), d) <==> ValidDraft(s, d)
    decreases s, 1
  {
    if s.Object? {
      var m, r := s.members, Relax(s).members;
      ValidParts(r, d);
      DraftParts(m, d);
      TypeMeans(m, r, d);
      MembersMean(m, r, d);
      ItemsMean(m, r, d);
      AllMean(m, r, d);
      AnyMean(m, r, d);
      NotMeans(m, r, d);
      RelaxedComplete(m, d);
    }
  }

  lemma TypeMeans(m: map<string, Json>, r: map<string, Json>, d: Json)
    requires Relax(Object(m)) == Object(r)
    ensures TypeOk(r, d) <==> TypeOk(m, d)
  {
    Completeness();
    RelaxedAt(m, "type");
    if "type" in m {
      TypeUnder(m["type"]);
    }
  }

  lemma SchemaKept(m: map<string, Json>, r: map<string, Json>, key: string)
    requires Relax(Object(m)) == Object(r) && (key == "additionalProperties" || key == "items")
    ensures key in r <==> key in m
    ensures key in m ==> r[key] == Relax(m[key])
  {
    Completeness();
    RelaxedAt(m, key);
    RelaxedSchema(m, key);
  }

  lemma {:induction false} MembersMean(m: map<string, Json>, r: map<string, Json>, d: Json)
    requires Relax(Object(m)) == Object(r)
    ensures PropertiesOk(r, d, false) <==> PropertiesOk(m, d, true)
    ensures OthersOk(r, d, false) <==> OthersOk(m, d, true)
    decreases Object(m), 0
  {
    RelaxedDeclared(m);
    SchemaKept(m, r, "additionalProperties");
    if d.Object? {
      forall k | k in Declared(m) && k in d.members ensures Valid(Declared(r)[k], d.members[k]) <==> ValidDraft(Declared(m)[k], d.members[k]) {
        RelaxMeans(Declared(m)[k], d.members[k]);
      }
      if "additionalProperties" in m {
        forall k | k in d.members ensures Valid(r["additionalProperties"], d.members[k]) <==> ValidDraft(m["additionalProperties"], d.members[k]) {
          RelaxMeans(m["additionalProperties"], d.members[k]);
        }
      }
    }
  }

  lemma {:induction false} ItemsMean(m: map<string, Json>, r: map<string, Json>, d: Json)
    requires Relax(Object(m)) == Object(r)
    ensures ItemsOk(r, d, false) <==> ItemsOk(m, d, true)
    decreases Object(m), 0
  {
    SchemaKept(m, r, "items");
    if "items" in m && d.List? {
      forall i | 0 <= i < |d.items| ensures Valid(r["items"], d.items[i]) <==> ValidDraft(m["items"], d.items[i]) {
        RelaxMeans(m["items"], d.items[i]);
      }
    }
  }

  lemma {:induction false} AllMean(m: map<string, Json>, r: map<string, Json>, d: Json)
    requires Relax(Object(m)) == Object(r)
    ensures AllOk(r, d, false) <==> AllOk(m, d, true)
    decreases Object(m), 0
  {
    RelaxedListed(m, "allOf");
    forall i | 0 <= i < |Listed(m, "allOf")| ensures Valid(Listed(r, "allOf")[i], d) <==> ValidDraft(Listed(m, "allOf")[i], d) {
      RelaxMeans(Listed(m, "allOf")[i], d);
    }
  }

  lemma {:induction false} AnyMean(m: map<string, Json>, r: map<string, Json>, d: Json)
    requires Relax(Object(m)) == Object(r)
    ensures AnyOk(r, d, false) <==> AnyOk(m, d, true)
    decreases Object(m), 0
  {
    Completeness();
    RelaxedAt(m, "anyOf");
    RelaxedListed(m, "anyOf");
    forall i | 0 <= i < |Listed(m, "anyOf")| ensures Judged(Listed(r, "anyOf")[i], d, false) <==> Judged(Listed(m, "anyOf")[i], d, true) {
      RelaxMeans(Listed(m, "anyOf")[i], d);
    }
  }

  lemma {:induction false} NotMeans(m: map<string, Json>, r: map<string, Json>, d: Json)
    requires Relax(Object(m)) == Object(r)
    ensures NotOk(r, d, false) <==> NotOk(m, d, true)
    decreases Object(m), 0
  {
    RelaxedNegation(m);
    if "not" in m {
      RelaxMeans(m["not"], d);
    }
  }
}
