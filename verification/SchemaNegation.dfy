/**
 * Draft validation under negation, where relaxing a schema can tighten it (schema.go): exactly which
 * documents keep all their drafts.
 */
module SchemaNegation {
  import opened Schema

  /** The document with every member it can lose gone: what all its drafts have in common. */
  function Emptied(d: Json): Json {
    match d
    case Object(_) => Object(map[])
    case List(xs) => List(seq(|xs|, i requires 0 <= i < |xs| => Emptied(xs[i])))
    case _ => d
  }

  /** The emptied document is a draft of every draft. */
  lemma {:induction false} EmptiedDeleted(part: Json, whole: Json)
    requires DeletedFrom(part, whole)
    ensures DeletedFrom(Emptied(whole), part)
    decreases whole
  {
    if whole.List? {
      forall i | 0 <= i < |whole.items| ensures DeletedFrom(Emptied(whole.items[i]), part.items[i]) {
        EmptiedDeleted(part.items[i], whole.items[i]);
      }
    }
  }

  lemma {:induction false} DeletedSelf(d: Json)
    ensures DeletedFrom(d, d)
    decreases d
  {
    if d.Object? {
      forall k | k in d.members ensures DeletedFrom(d.members[k], d.members[k]) { DeletedSelf(d.members[k]); }
    } else if d.List? {
      forall i | 0 <= i < |d.items| ensures DeletedFrom(d.items[i], d.items[i]) { DeletedSelf(d.items[i]); }
    }
  }

  /** All drafts of the document satisfy the relaxed schema. */
  ghost predicate AllPass(s: Json, whole: Json) {
    forall part :: DeletedFrom(part, whole) ==> Valid(Relax(s), part)
  }

  // ---------------------------------------------------------------- one negation

  /** A relaxed schema of the fragment is in the fragment. */
  lemma {:induction false} RelaxedInFragment(s: Json)
    requires InFragment(s)
    ensures InFragment(Relax(s))
    decreases s
  {
    if s.Object? {
      var m, r := s.members, Relax(s).members;
      RelaxedDeclared(m);
      RelaxedSchema(m, "additionalProperties");
      RelaxedSchema(m, "items");
      RelaxedListed(m, "allOf");
      RelaxedListed(m, "anyOf");
      forall k | k in Declared(r) ensures InFragment(Declared(r)[k]) { RelaxedInFragment(Declared(m)[k]); }
      if "additionalProperties" in r { RelaxedInFragment(m["additionalProperties"]); }
      if "items" in r { RelaxedInFragment(m["items"]); }
      forall i | 0 <= i < |Listed(r, "allOf")| ensures InFragment(Listed(r, "allOf")[i]) { RelaxedInFragment(Listed(m, "allOf")[i]); }
      forall i | 0 <= i < |Listed(r, "anyOf")| ensures InFragment(Listed(r, "anyOf")[i]) { RelaxedInFragment(Listed(m, "anyOf")[i]); }
    }
  }

  /** What the relaxed schema refuses of the emptied document, it refuses of every draft. */
  lemma {:induction false} EmptiedRefused(s: Json, whole: Json, part: Json)
    requires InFragment(s) && DeletedFrom(part, whole) && !Valid(Relax(s), Emptied(whole))
    ensures !Valid(Relax(s), part)
  {
    if Valid(Relax(s), part) {
      RelaxedInFragment(s);
      EmptiedDeleted(part, whole);
      DraftsPass(Relax(s), part, Emptied(whole));
      RelaxIdempotent(s);
    }
  }

  function Not(s: Json): Json {
    Object(map["not" := s])
  }

  lemma NotValid(s: Json, d: Json)
    ensures Valid(Not(s), d) <==> !Valid(s, d)
  {
    assert Declared(Not(s).members) == map[] && Listed(Not(s).members, "allOf") == [];
  }

  lemma RelaxedNot(s: Json)
    ensures Relax(Not(s)) == Not(Relax(s))
  {
    assert SCHEMA_VALUES[7] == "not";
    RelaxedAt(Not(s).members, "not");
    assert Relax(Not(s)).members == Not(Relax(s)).members;
  }

  /** Under negation a draft passes exactly when the relaxed inner schema refuses it. */
  lemma NegationPasses(s: Json, d: Json)
    ensures Valid(Relax(Not(s)), d) <==> !Valid(Relax(s), d)
  {
    RelaxedNot(s);
    NotValid(Relax(s), d);
  }

  /**
   * Under a negation all drafts of a document pass if and only if the relaxed inner schema refuses the
   * emptied document.
   */
  lemma {:induction false} NegationExact(s: Json, whole: Json)
    requires InFragment(s)
    ensures AllPass(Not(s), whole) <==> !Valid(Relax(s), Emptied(whole))
  {
    DeletedSelf(whole);
    EmptiedDeleted(whole, whole);
    NegationPasses(s, Emptied(whole));
    if !Valid(Relax(s), Emptied(whole)) {
      forall part | DeletedFrom(part, whole) ensures Valid(Relax(Not(s)), part) {
        EmptiedRefused(s, whole, part);
        NegationPasses(s, part);
      }
    }
  }

  const REQUIRES_A := Object(map["required" := List([Text("a")])])
  const NOTHING := Object(map[])

  lemma RequiresAOfNothing()
    ensures !Valid(REQUIRES_A, NOTHING)
  {
    assert REQUIRES_A.members["required"].items[0] == Text("a");
    assert !Names(REQUIRES_A.members["required"], NOTHING.members);
  }

  lemma RelaxedRequiresA()
    ensures Relax(REQUIRES_A) == NOTHING && Valid(NOTHING, NOTHING)
  {
    Completeness();
    assert Relax(REQUIRES_A).members == map[];
  }

  /** So relaxing can tighten there: the empty document satisfies "not required a", but not its relaxed form. */
  lemma NegationTightens()
    ensures Valid(Not(REQUIRES_A), NOTHING) && !Valid(Relax(Not(REQUIRES_A)), NOTHING)
  {
    RequiresAOfNothing();
    NotValid(REQUIRES_A, NOTHING);
    RelaxedRequiresA();
    NegationPasses(REQUIRES_A, NOTHING);
  }

  // ---------------------------------------------------------------- negations at any depth

  /** The fragment with negations of it wherever a schema must hold: not inside a choice or another negation. */
  predicate Guarded(s: Json)
    decreases s
  {
    match s
    case Boolean(_) => true
    case Object(m) =>
      && m.Keys <= FRAGMENT + {"not"}
      && (forall k :: k in Declared(m) ==> Guarded(Declared(m)[k]))
      && ("additionalProperties" in m ==> Guarded(m["additionalProperties"]))
      && ("items" in m ==> Guarded(m["items"]))
      && (forall i :: 0 <= i < |Listed(m, "allOf")| ==> Guarded(Listed(m, "allOf")[i]))
      && (forall i :: 0 <= i < |Listed(m, "anyOf")| ==> InFragment(Listed(m, "anyOf")[i]))
      && ("not" in m ==> InFragment(m["not"]))
    case _ => false
  }

  /** Every negation, wherever it applies in the document, refuses the emptied part it applies to. */
  predicate Refusing(s: Json, d: Json)
    decreases s
  {
    s.Object? ==>
      var m := s.members;
      && (d.Object? ==> forall k :: k in Declared(m) && k in d.members ==> Refusing(Declared(m)[k], d.members[k]))
      && ("additionalProperties" in m && d.Object? ==>
            forall k :: k in d.members && k !in Declared(m) ==> Refusing(m["additionalProperties"], d.members[k]))
      && ("items" in m && d.List? ==> forall i :: 0 <= i < |d.items| ==> Refusing(m["items"], d.items[i]))
      && (forall i :: 0 <= i < |Listed(m, "allOf")| ==> Refusing(Listed(m, "allOf")[i], d))
      && ("not" in m ==> !Valid(Relax(m["not"]), Emptied(d)))
  }

  /**
   * Of a document that satisfies a schema with such negations, all drafts can be saved if and only if
   * each negation, relaxed, refuses the emptied part of the document it applies to.
   */
  lemma {:induction false} DraftsPassExactly(s: Json, whole: Json)
    requires Guarded(s) && Valid(s, whole)
    ensures AllPass(s, whole) <==> Refusing(s, whole)
  {
    if Refusing(s, whole) {
      forall part | DeletedFrom(part, whole) ensures Valid(Relax(s), part) { RefusingPasses(s, whole, part); }
    }
    if AllPass(s, whole) {
      PassingRefuses(s, whole);
    }
  }

  lemma RelaxedNegation(m: map<string, Json>)
    ensures Relax(Object(m)).Object?
    ensures "not" in Relax(Object(m)).members <==> "not" in m
    ensures "not" in m ==> Relax(Object(m)).members["not"] == Relax(m["not"])
  {
    assert SCHEMA_VALUES[7] == "not";
    assert forall i :: 0 <= i < |COMPLETENESS| ==> COMPLETENESS[i] != "not";
    RelaxedAt(m, "not");
  }

  lemma {:induction false} RefusingPasses(s: Json, whole: Json, part: Json)
    requires Guarded(s) && Valid(s, whole) && Refusing(s, whole) && DeletedFrom(part, whole)
    ensures Valid(Relax(s), part)
    decreases s, 1
  {
    if s.Object? {
      var m, r := s.members, Relax(s).members;
      TypePasses(m, r, whole, part);
      RefusingMembers(m, r, whole, part);
      RefusingItems(m, r, whole, part);
      RefusingAll(m, r, whole, part);
      RefusingAny(m, r, whole, part);
      RelaxedComplete(m, part);
      RelaxedNegation(m);
      if "not" in m {
        EmptiedRefused(m["not"], whole, part);
      }
    }
  }

  lemma {:induction false} RefusingMembers(m: map<string, Json>, r: map<string, Json>, whole: Json, part: Json)
    requires Guarded(Object(m)) && Valid(Object(m), whole) && Refusing(Object(m), whole) && DeletedFrom(part, whole)
    requires Relax(Object(m)) == Object(r)
    ensures part.Object? ==> forall k :: k in Declared(r) && k in part.members ==> Valid(Declared(r)[k], part.members[k])
    ensures "additionalProperties" in r && part.Object? ==>
              forall k :: k in part.members && k !in Declared(r) ==> Valid(r["additionalProperties"], part.members[k])
    decreases Object(m), 0
  {
    RelaxedDeclared(m);
    RelaxedSchema(m, "additionalProperties");
    if part.Object? {
      forall k | k in Declared(r) && k in part.members ensures Valid(Declared(r)[k], part.members[k]) {
        RefusingPasses(Declared(m)[k], whole.members[k], part.members[k]);
      }
      if "additionalProperties" in r {
        forall k | k in part.members && k !in Declared(r) ensures Valid(r["additionalProperties"], part.members[k]) {
          RefusingPasses(m["additionalProperties"], whole.members[k], part.members[k]);
        }
      }
    }
  }

  lemma {:induction false} RefusingItems(m: map<string, Json>, r: map<string, Json>, whole: Json, part: Json)
    requires Guarded(Object(m)) && Valid(Object(m), whole) && Refusing(Object(m), whole) && DeletedFrom(part, whole)
    requires Relax(Object(m)) == Object(r)
    ensures "items" in r && part.List? ==> forall i :: 0 <= i < |part.items| ==> Valid(r["items"], part.items[i])
    decreases Object(m), 0
  {
    RelaxedSchema(m, "items");
    if "items" in r && part.List? {
      forall i | 0 <= i < |part.items| ensures Valid(r["items"], part.items[i]) {
        RefusingPasses(m["items"], whole.items[i], part.items[i]);
      }
    }
  }

  lemma {:induction false} RefusingAll(m: map<string, Json>, r: map<string, Json>, whole: Json, part: Json)
    requires Guarded(Object(m)) && Valid(Object(m), whole) && Refusing(Object(m), whole) && DeletedFrom(part, whole)
    requires Relax(Object(m)) == Object(r)
    ensures forall i :: 0 <= i < |Listed(r, "allOf")| ==> Valid(Listed(r, "allOf")[i], part)
    decreases Object(m), 0
  {
    RelaxedListed(m, "allOf");
    forall i | 0 <= i < |Listed(r, "allOf")| ensures Valid(Listed(r, "allOf")[i], part) {
      RefusingPasses(Listed(m, "allOf")[i], whole, part);
    }
  }

  lemma {:induction false} RefusingAny(m: map<string, Json>, r: map<string, Json>, whole: Json, part: Json)
    requires Guarded(Object(m)) && Valid(Object(m), whole) && DeletedFrom(part, whole) && Relax(Object(m)) == Object(r)
    ensures "anyOf" in r ==> exists i :: 0 <= i < |Listed(r, "anyOf")| && Valid(Listed(r, "anyOf")[i], part)
  {
    RelaxedListed(m, "anyOf");
    RelaxedAt(m, "anyOf");
    if "anyOf" in r {
      var i :| 0 <= i < |Listed(m, "anyOf")| && Valid(Listed(m, "anyOf")[i], whole);
      DraftsPass(Listed(m, "anyOf")[i], whole, part);
      assert Valid(Listed(r, "anyOf")[i], part);
    }
  }

  // A draft of one part of a document, put back in its place, is a draft of the document.

  lemma {:induction false} MemberReplaced(whole: Json, k: string, part: Json)
    requires whole.Object? && k in whole.members && DeletedFrom(part, whole.members[k])
    ensures DeletedFrom(Object(whole.members[k := part]), whole)
  {
    forall j | j in whole.members ensures DeletedFrom(whole.members[j], whole.members[j]) { DeletedSelf(whole.members[j]); }
  }

  lemma {:induction false} ItemReplaced(whole: Json, i: nat, part: Json)
    requires whole.List? && i < |whole.items| && DeletedFrom(part, whole.items[i])
    ensures DeletedFrom(List(whole.items[i := part]), whole)
  {
    forall j | 0 <= j < |whole.items| ensures DeletedFrom(whole.items[j], whole.items[j]) { DeletedSelf(whole.items[j]); }
  }

  lemma {:induction false} PassingRefuses(s: Json, whole: Json)
    requires AllPass(s, whole)
    ensures Refusing(s, whole)
    decreases s, 1
  {
    if s.Object? {
      var m := s.members;
      PassingMembers(m, whole);
      PassingItems(m, whole);
      PassingAll(m, whole);
      RelaxedNegation(m);
      DeletedSelf(whole);
      EmptiedDeleted(whole, whole);
      assert Valid(Relax(s), Emptied(whole));
    }
  }

  lemma {:induction false} PassingMembers(m: map<string, Json>, whole: Json)
    requires AllPass(Object(m), whole)
    ensures whole.Object? ==> forall k :: k in Declared(m) && k in whole.members ==> Refusing(Declared(m)[k], whole.members[k])
    ensures "additionalProperties" in m && whole.Object? ==>
              forall k :: k in whole.members && k !in Declared(m) ==> Refusing(m["additionalProperties"], whole.members[k])
    decreases Object(m), 0
  {
    if whole.Object? {
      forall k | k in Declared(m) && k in whole.members ensures Refusing(Declared(m)[k], whole.members[k]) {
        forall part | DeletedFrom(part, whole.members[k]) ensures Valid(Relax(Declared(m)[k]), part) {
          MemberPasses(m, whole, k, part);
        }
        PassingRefuses(Declared(m)[k], whole.members[k]);
      }
      if "additionalProperties" in m {
        forall k | k in whole.members && k !in Declared(m) ensures Refusing(m["additionalProperties"], whole.members[k]) {
          forall part | DeletedFrom(part, whole.members[k]) ensures Valid(Relax(m["additionalProperties"]), part) {
            MemberPasses(m, whole, k, part);
          }
          PassingRefuses(m["additionalProperties"], whole.members[k]);
        }
      }
    }
  }

  lemma {:induction false} MemberPasses(m: map<string, Json>, whole: Json, k: string, part: Json)
    requires AllPass(Object(m), whole) && whole.Object? && k in whole.members && DeletedFrom(part, whole.members[k])
    ensures k in Declared(m) ==> Valid(Relax(Declared(m)[k]), part)
    ensures k !in Declared(m) && "additionalProperties" in m ==> Valid(Relax(m["additionalProperties"]), part)
  {
    MemberReplaced(whole, k, part);
    var d := Object(whole.members[k := part]);
    assert Valid(Relax(Object(m)), d) && d.members[k] == part;
    RelaxedDeclared(m);
    Completeness();
    RelaxedAt(m, "additionalProperties");
    RelaxedSchema(m, "additionalProperties");
  }

  lemma {:induction false} PassingItems(m: map<string, Json>, whole: Json)
    requires AllPass(Object(m), whole)
    ensures "items" in m && whole.List? ==> forall i :: 0 <= i < |whole.items| ==> Refusing(m["items"], whole.items[i])
    decreases Object(m), 0
  {
    if "items" in m && whole.List? {
      forall i | 0 <= i < |whole.items| ensures Refusing(m["items"], whole.items[i]) {
        forall part | DeletedFrom(part, whole.items[i]) ensures Valid(Relax(m["items"]), part) {
          ItemPasses(m, whole, i, part);
        }
        PassingRefuses(m["items"], whole.items[i]);
      }
    }
  }

  lemma {:induction false} ItemPasses(m: map<string, Json>, whole: Json, i: nat, part: Json)
    requires AllPass(Object(m), whole) && whole.List? && i < |whole.items| && DeletedFrom(part, whole.items[i]) && "items" in m
    ensures Valid(Relax(m["items"]), part)
  {
    ItemReplaced(whole, i, part);
    var d := List(whole.items[i := part]);
    assert Valid(Relax(Object(m)), d) && d.items[i] == part;
    Completeness();
    RelaxedAt(m, "items");
    RelaxedSchema(m, "items");
  }

  lemma {:induction false} PassingAll(m: map<string, Json>, whole: Json)
    requires AllPass(Object(m), whole)
    ensures forall i :: 0 <= i < |Listed(m, "allOf")| ==> Refusing(Listed(m, "allOf")[i], whole)
    decreases Object(m), 0
  {
    RelaxedListed(m, "allOf");
    forall i | 0 <= i < |Listed(m, "allOf")| ensures Refusing(Listed(m, "allOf")[i], whole) {
      forall part | DeletedFrom(part, whole) ensures Valid(Relax(Listed(m, "allOf")[i]), part) {
        assert Valid(Relax(Object(m)), part);
        assert Valid(Listed(Relax(Object(m)).members, "allOf")[i], part);
      }
      PassingRefuses(Listed(m, "allOf")[i], whole);
    }
  }
}
