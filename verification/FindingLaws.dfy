/** When the analyser's recursions answer yes: every way there is, and no other, told by the keywords as they stand. */
module FindingLaws {
  import opened Text
  import opened JsonDocument
  import opened SchemaKeywords
  import opened Acceptance
  import opened KeywordReaders
  import opened ConstraintSearch

  // ---- The search for a constraint ----

  /** Evidence on the object itself: enum, const, or a keyword that names schemes, hosts or roots. */
  predicate Evident(obj: Keywords, kind: Kind) {
    || "const" in obj || ("enum" in obj && obj["enum"].Array? && obj["enum"].elems != [])
    || (kind.Url?
        && !(obj.Keys !! {"scheme", "schemes", "host", "hostname", "hosts", "allowedHosts",
                          "allowed_hosts", "allowedSchemes", "allowed_schemes", "x-allowed-hosts",
                          "x-allowed-schemes", "x-scheme", "x-host"}))
    || (kind.Path?
        && !(obj.Keys !! {"root", "roots", "basePath", "base_path", "allowedRoots", "allowed_roots", "x-root",
                          "x-allowed-roots", "sandboxRoot", "sandbox_root"}))
  }

  /** A conjunct beside the others that forces arrays, or the object itself does. */
  ghost predicate ConjunctsForceArrays(doc: Document, obj: Keywords, vacuous: bool) {
    OnlyArrays(obj) || exists b :: Lists(obj, "allOf", b) && Forces(doc, b, vacuous)
  }

  ghost predicate FoundInConjunct(doc: Document, obj: Keywords, kind: Kind, arrayCtx: bool, vacuous: bool) {
    exists b :: Lists(obj, "allOf", b)
                && Finds(doc, b, kind, arrayCtx || ConjunctsForceArrays(doc, obj, vacuous), vacuous)
  }

  /** A branch that contributes nothing that carries a string, or no array where only arrays matter. */
  ghost predicate BranchIsIdle(doc: Document, b: Schema, arrayCtx: bool) {
    Barren(doc, b) || (arrayCtx && b.Node? && NoArrays(KeywordsOf(doc, b.id)))
  }

  ghost predicate FoundInDisjuncts(doc: Document, obj: Keywords, key: string, kind: Kind, arrayCtx: bool,
                                   vacuous: bool) {
    var ctx := arrayCtx || OnlyArrays(obj);
    && (exists b :: Lists(obj, key, b))
    && forall b | Lists(obj, key, b) :: BranchIsIdle(doc, b, ctx) || Finds(doc, b, kind, ctx, vacuous)
  }

  /** Item keywords count where the object lets nothing but arrays through, or where only arrays reach it and it lets
      them through. */
  ghost predicate ItemsCount(obj: Keywords, arrayCtx: bool) {
    OnlyArrays(obj) || (arrayCtx && (NamesType(obj, "array") || !Typed(obj)))
  }

  /** No position is left open, and each is governed by schemas of the given sort. */
  ghost predicate EveryPosition(obj: Keywords, ok: Json -> bool) {
    && ("prefixItems" in obj && obj["prefixItems"].Array? ==> forall e | e in obj["prefixItems"].elems :: ok(e))
    && "items" in obj && !obj["items"].Null?
    && (if obj["items"].Array?
        then (forall e | e in obj["items"].elems :: ok(e)) && "additionalItems" in obj && ok(obj["additionalItems"])
        else ok(obj["items"]))
  }

  ghost function FoundOrBarren(doc: Document, kind: Kind, vacuous: bool): Json -> bool {
    e => !AsSchema(e).Invalid? && (Barren(doc, AsSchema(e)) || Finds(doc, AsSchema(e), kind, false, vacuous))
  }

  lemma EvidenceExactly(obj: Keywords, kind: Kind)
    ensures Direct(obj, kind) <==> Evident(obj, kind)
  {
  }

  lemma ElementsExactly(obj: Keywords, ok: Json -> bool)
    requires !ok(Null)
    ensures EveryPosition(obj, ok) <==>
            ElementSchemas(obj).Some? && forall e | e in ElementSchemas(obj).value :: ok(e)
  {
  }

  lemma BranchesForAll(obj: Keywords, key: string)
    ensures Branches(obj, key) != [] <==> exists b :: Lists(obj, key, b)
    ensures forall b :: b in Branches(obj, key) <==> Lists(obj, key, b)
  {
    SomeBranch(obj, key);
    forall b ensures b in Branches(obj, key) <==> Lists(obj, key, b) {
      BranchesExactly(obj, key, b);
    }
  }

  lemma IdleExactly(doc: Document, b: Schema, arrayCtx: bool)
    ensures Skipped(doc, b, arrayCtx) <==> BranchIsIdle(doc, b, arrayCtx)
  {
    if b.Node? { BranchReadersExactly(doc, b.id); }
  }

  lemma ConjunctsExactly(doc: Document, obj: Keywords, kind: Kind, arrayCtx: bool, vacuous: bool)
    ensures FindsSome(doc, Branches(obj, "allOf"), kind, arrayCtx || AllOfForces(doc, obj, vacuous), vacuous) <==>
            FoundInConjunct(doc, obj, kind, arrayCtx, vacuous)
  {
    BranchesForAll(obj, "allOf");
    TypeReadersExactly(obj);
    assert AllOfForces(doc, obj, vacuous) <==> ConjunctsForceArrays(doc, obj, vacuous);
  }

  lemma DisjunctsExactly(doc: Document, obj: Keywords, key: string, kind: Kind, arrayCtx: bool, vacuous: bool)
    ensures FindsEvery(doc, Branches(obj, key), kind, arrayCtx || DeclaresArrayOnly(obj), vacuous) <==>
            FoundInDisjuncts(doc, obj, key, kind, arrayCtx, vacuous)
  {
    BranchesForAll(obj, key);
    TypeReadersExactly(obj);
    forall b, ctx ensures Skipped(doc, b, ctx) <==> BranchIsIdle(doc, b, ctx) {
      IdleExactly(doc, b, ctx);
    }
  }

  lemma ItemsExactly(doc: Document, obj: Keywords, kind: Kind, arrayCtx: bool, vacuous: bool)
    ensures ArrayConstraintApplies(obj, arrayCtx) && FindsElements(doc, ElementSchemas(obj), kind, vacuous) <==>
            ItemsCount(obj, arrayCtx) && EveryPosition(obj, FoundOrBarren(doc, kind, vacuous))
  {
    TypesExactly(obj);
    TypeReadersExactly(obj);
    ElementsExactly(obj, FoundOrBarren(doc, kind, vacuous));
  }

  /** The ways in which a constraint is found for an object, and there is no other: evidence, the schema referred to,
      some conjunct, every disjunct that matters, the schemas of all positions. */
  lemma FindsExactly(doc: Document, id: ObjectId, obj: Keywords, kind: Kind, arrayCtx: bool, vacuous: bool)
    requires obj == KeywordsOf(doc, id)
    ensures Finds(doc, Node(id), kind, arrayCtx, vacuous) <==>
            || Evident(obj, kind)
            || (exists t :: RefersTo(doc, obj, t) && Finds(doc, t, kind, arrayCtx, vacuous))
            || FoundInConjunct(doc, obj, kind, arrayCtx, vacuous)
            || FoundInDisjuncts(doc, obj, "anyOf", kind, arrayCtx, vacuous)
            || FoundInDisjuncts(doc, obj, "oneOf", kind, arrayCtx, vacuous)
            || (ItemsCount(obj, arrayCtx) && EveryPosition(obj, FoundOrBarren(doc, kind, vacuous)))
  {
    EvidenceExactly(obj, kind);
    RefersExactly(doc, obj, RefTarget(doc, obj));
    ConjunctsExactly(doc, obj, kind, arrayCtx, vacuous);
    DisjunctsExactly(doc, obj, "anyOf", kind, arrayCtx, vacuous);
    DisjunctsExactly(doc, obj, "oneOf", kind, arrayCtx, vacuous);
    ItemsExactly(doc, obj, kind, arrayCtx, vacuous);
  }

  /** Items beside a conjunct that forces arrays: an object without a type, each of whose positions is governed by a
      schema that is found or lets nothing through, makes the conjunction found, wherever it is asked about. */
  lemma ItemsUnderForcing(doc: Document, id: ObjectId, forcing: Schema, untyped: ObjectId, kind: Kind, arrayCtx: bool)
    requires Lists(KeywordsOf(doc, id), "allOf", forcing) && Forces(doc, forcing, false)
    requires Lists(KeywordsOf(doc, id), "allOf", Node(untyped)) && !Typed(KeywordsOf(doc, untyped))
    requires EveryPosition(KeywordsOf(doc, untyped), FoundOrBarren(doc, kind, false))
    ensures Finds(doc, Node(id), kind, arrayCtx, false)
  {
    FindsExactly(doc, untyped, KeywordsOf(doc, untyped), kind, true, false);
    assert ConjunctsForceArrays(doc, KeywordsOf(doc, id), false);
    FindsExactly(doc, id, KeywordsOf(doc, id), kind, arrayCtx, false);
  }

  // ---- Viability ----

  ghost predicate BarrenDisjuncts(doc: Document, obj: Keywords, key: string) {
    (exists b :: Lists(obj, key, b)) && forall b | Lists(obj, key, b) :: Barren(doc, b)
  }

  ghost function BarrenSchema(doc: Document): Json -> bool {
    e => !AsSchema(e).Invalid? && Barren(doc, AsSchema(e))
  }

  /** The ways in which an object is judged to let nothing through that carries a string: its types, some conjunct,
      every disjunct, the schema referred to, the schemas of all positions where it lets only arrays through. */
  lemma BarrenExactly(doc: Document, id: ObjectId, obj: Keywords)
    requires obj == KeywordsOf(doc, id)
    ensures Barren(doc, Node(id)) <==>
            || (Typed(obj) && TypesWithin(obj, SCALARS))
            || (exists b :: Lists(obj, "allOf", b) && Barren(doc, b))
            || BarrenDisjuncts(doc, obj, "anyOf")
            || BarrenDisjuncts(doc, obj, "oneOf")
            || (exists t :: RefersTo(doc, obj, t) && Barren(doc, t))
            || (OnlyArrays(obj) && ("prefixItems" in obj ==> obj["prefixItems"].Array?)
                && EveryPosition(obj, BarrenSchema(doc)))
  {
    TypesExactly(obj);
    TypeReadersExactly(obj);
    BranchesForAll(obj, "allOf");
    BranchesForAll(obj, "anyOf");
    BranchesForAll(obj, "oneOf");
    RefersExactly(doc, obj, RefTarget(doc, obj));
    ElementsExactly(obj, BarrenSchema(doc));
  }

  // ---- Array forcing ----

  /** Some branch matters, and each that does forces arrays. */
  ghost predicate ForcingDisjuncts(doc: Document, obj: Keywords, key: string) {
    && (exists b :: Lists(obj, key, b) && !Barren(doc, b))
    && forall b | Lists(obj, key, b) && !Barren(doc, b) :: Forces(doc, b, false)
  }

  /** The ways in which an object forces arrays. */
  lemma ForcesExactly(doc: Document, id: ObjectId, obj: Keywords)
    requires obj == KeywordsOf(doc, id)
    ensures Forces(doc, Node(id), false) <==>
            || OnlyArrays(obj)
            || (exists b :: Lists(obj, "allOf", b) && Forces(doc, b, false))
            || ForcingDisjuncts(doc, obj, "anyOf")
            || ForcingDisjuncts(doc, obj, "oneOf")
            || (exists t :: RefersTo(doc, obj, t) && Forces(doc, t, false))
  {
    TypeReadersExactly(obj);
    BranchesForAll(obj, "allOf");
    BranchesForAll(obj, "anyOf");
    BranchesForAll(obj, "oneOf");
    RefersExactly(doc, obj, RefTarget(doc, obj));
  }

  // ---- Properties ----

  /** The ways in which an object forbids a property: it says nothing about it, and either allows no further
      properties, or refers to a schema or has a conjunct that forbids it. */
  lemma ForbiddenExactly(doc: Document, id: ObjectId, obj: Keywords, name: string)
    requires obj == KeywordsOf(doc, id)
    ensures Forbidden(doc, Node(id), name) <==>
            && !Mentions(doc, obj, name)
            && (|| ("additionalProperties" in obj && obj["additionalProperties"] == Bool(false))
                || (exists t :: RefersTo(doc, obj, t) && Forbidden(doc, t, name))
                || (exists b :: Lists(obj, "allOf", b) && Forbidden(doc, b, name)))
  {
    MentionsExactly(doc, obj, name);
    BranchesForAll(obj, "allOf");
    RefersExactly(doc, obj, RefTarget(doc, obj));
  }

  /** A dependent schema whose trigger is a required name. */
  ghost predicate Depends(doc: Document, obj: Keywords, b: Schema) {
    && !b.Invalid? && "required" in obj && obj["required"].Array?
    && exists name, v :: name != "" && String(name) in obj["required"].elems
                         && Holds(doc, obj, "dependentSchemas", name, v) && AsSchema(v) == b
  }

  lemma DependsExactly(doc: Document, obj: Keywords)
    ensures forall b :: b in RequiredDependents(doc, obj) <==> Depends(doc, obj, b)
  {
    forall b ensures b in RequiredDependents(doc, obj) <==> Depends(doc, obj, b) {
      DependentsExactly(doc, obj, b);
      forall name ensures name in RequiredNames(obj) <==>
                          name != "" && "required" in obj && obj["required"].Array?
                          && String(name) in obj["required"].elems
      {
        RequiredExactly(obj, name);
      }
    }
  }

  /** A branch with no object that has the property: it forbids it, or cannot be an object where only objects pass. */
  ghost predicate BranchIsClosed(doc: Document, obj: Keywords, b: Schema, name: string) {
    Forbidden(doc, b, name) || (OnlyObjects(obj) && b.Node? && NoObjects(KeywordsOf(doc, b.id)))
  }

  lemma ClosedExactly(doc: Document, obj: Keywords, name: string)
    ensures forall b :: Closed(doc, obj, b, name) <==> BranchIsClosed(doc, obj, b, name)
  {
    TypeReadersExactly(obj);
    forall b ensures Closed(doc, obj, b, name) <==> BranchIsClosed(doc, obj, b, name) {
      if b.Node? { BranchReadersExactly(doc, b.id); }
    }
  }

  ghost predicate AppliesInDisjunct(doc: Document, obj: Keywords, key: string, name: string) {
    exists b :: Lists(obj, key, b) && !BranchIsClosed(doc, obj, b, name) && Applies(doc, b, name)
  }

  /** The ways in which an object has something to say about a property. */
  lemma AppliesExactly(doc: Document, id: ObjectId, obj: Keywords, name: string)
    requires obj == KeywordsOf(doc, id)
    ensures Applies(doc, Node(id), name) <==>
            || Mentions(doc, obj, name) || "additionalProperties" in obj
            || (exists t :: RefersTo(doc, obj, t) && Applies(doc, t, name))
            || (exists b :: Lists(obj, "allOf", b) && Applies(doc, b, name))
            || (exists b :: Depends(doc, obj, b) && Applies(doc, b, name))
            || AppliesInDisjunct(doc, obj, "anyOf", name)
            || AppliesInDisjunct(doc, obj, "oneOf", name)
  {
    MentionsExactly(doc, obj, name);
    RefersExactly(doc, obj, RefTarget(doc, obj));
    BranchesForAll(obj, "allOf");
    BranchesForAll(obj, "anyOf");
    BranchesForAll(obj, "oneOf");
    DependsExactly(doc, obj);
    ClosedExactly(doc, obj, name);
  }

  /** The value under the keyword that governs the property holds a constraint for it. */
  ghost predicate FoundUnderKeyword(doc: Document, obj: Keywords, name: string, kind: Kind, vacuous: bool) {
    || (exists v :: Holds(doc, obj, "properties", name, v) && Finds(doc, AsSchema(v), kind, false, vacuous))
    || (exists p, v :: Holds(doc, obj, "patternProperties", p, v) && doc.matches(p, name)
                       && Finds(doc, AsSchema(v), kind, false, vacuous))
    || (!Mentions(doc, obj, name) && "additionalProperties" in obj
        && Finds(doc, AsSchema(obj["additionalProperties"]), kind, false, vacuous))
  }

  lemma KeywordsExactly(doc: Document, obj: Keywords, name: string, kind: Kind, vacuous: bool)
    ensures DirectPropertyFinds(doc, obj, name, kind, vacuous) <==> FoundUnderKeyword(doc, obj, name, kind, vacuous)
  {
    MentionsExactly(doc, obj, name);
    if DirectPropertyFinds(doc, obj, name, kind, vacuous) {
      var child :| Governs(doc, obj, name, child) && Finds(doc, AsSchema(child), kind, false, vacuous);
      if Holds(doc, obj, "properties", name, child) {
      } else if p :| Holds(doc, obj, "patternProperties", p, child) && doc.matches(p, name) {
      }
    }
    if v :| Holds(doc, obj, "properties", name, v) && Finds(doc, AsSchema(v), kind, false, vacuous) {
      assert Governs(doc, obj, name, v);
    } else if p, v :| Holds(doc, obj, "patternProperties", p, v) && doc.matches(p, name)
                      && Finds(doc, AsSchema(v), kind, false, vacuous) {
      assert Governs(doc, obj, name, v);
    } else if FoundUnderKeyword(doc, obj, name, kind, vacuous) {
      assert Governs(doc, obj, name, obj["additionalProperties"]);
    }
  }

  /** Some branch has objects with the property, and each that does constrains it. */
  ghost predicate PropertyInDisjuncts(doc: Document, obj: Keywords, key: string, name: string, kind: Kind) {
    && (exists b :: Lists(obj, key, b) && !BranchIsClosed(doc, obj, b, name))
    && forall b | Lists(obj, key, b) && !BranchIsClosed(doc, obj, b, name) :: PropertyFinds(doc, b, name, kind, false)
  }

  lemma PropertyPartsExactly(doc: Document, obj: Keywords, key: string, name: string, kind: Kind)
    ensures PropertyFindsSome(doc, Branches(obj, key), name, kind, false) <==>
            exists b :: Lists(obj, key, b) && PropertyFinds(doc, b, name, kind, false)
    ensures PropertyFindsEvery(doc, obj, Branches(obj, key), name, kind, false) <==>
            PropertyInDisjuncts(doc, obj, key, name, kind)
  {
    BranchesForAll(obj, key);
    ClosedExactly(doc, obj, name);
  }

  lemma PropertyDependentsExactly(doc: Document, obj: Keywords, name: string, kind: Kind)
    ensures PropertyFindsSome(doc, RequiredDependents(doc, obj), name, kind, false) <==>
            exists b :: Depends(doc, obj, b) && PropertyFinds(doc, b, name, kind, false)
  {
    DependsExactly(doc, obj);
  }

  /** The ways in which a constraint is found for a property of an object. */
  lemma PropertyFindsExactly(doc: Document, id: ObjectId, obj: Keywords, name: string, kind: Kind)
    requires obj == KeywordsOf(doc, id)
    ensures PropertyFinds(doc, Node(id), name, kind, false) <==>
            || FoundUnderKeyword(doc, obj, name, kind, false)
            || (exists t :: RefersTo(doc, obj, t) && PropertyFinds(doc, t, name, kind, false))
            || (exists b :: Lists(obj, "allOf", b) && PropertyFinds(doc, b, name, kind, false))
            || (exists b :: Depends(doc, obj, b) && PropertyFinds(doc, b, name, kind, false))
            || PropertyInDisjuncts(doc, obj, "anyOf", name, kind)
            || PropertyInDisjuncts(doc, obj, "oneOf", name, kind)
  {
    KeywordsExactly(doc, obj, name, kind, false);
    RefersExactly(doc, obj, RefTarget(doc, obj));
    PropertyPartsExactly(doc, obj, "allOf", name, kind);
    PropertyDependentsExactly(doc, obj, name, kind);
    PropertyPartsExactly(doc, obj, "anyOf", name, kind);
    PropertyPartsExactly(doc, obj, "oneOf", name, kind);
  }

  // ---- The answer ----

  /** A property declared with a constrained schema by the instance is constrained, whatever its frame's origin. */
  lemma DeclaredPropertyAnswers(doc: Document, node: Schema, origin: Schema, id: ObjectId, obj: Keywords, name: string,
                                v: Json, kind: Kind)
    requires obj == KeywordsOf(doc, id) && name != "" && Holds(doc, obj, "properties", name, v)
    requires Finds(doc, AsSchema(v), kind, false, false)
    ensures Constrained(doc, node, origin, Node(id), name, kind)
  {
    AppliesExactly(doc, id, obj, name);
    PropertyFindsExactly(doc, id, obj, name, kind);
  }

  /** The keywords by which an instance has a say about its properties. */
  const PROPERTY_KEYWORDS: set<string> :=
    {"properties", "patternProperties", "additionalProperties", "$ref", "allOf", "anyOf", "oneOf", "required"}

  /** An instance with none of them leaves the answer to the origin. */
  lemma SilentInstanceAnswers(doc: Document, node: Schema, origin: Schema, id: ObjectId, obj: Keywords, name: string,
                              kind: Kind)
    requires obj == KeywordsOf(doc, id) && obj.Keys !! PROPERTY_KEYWORDS
    ensures Constrained(doc, node, origin, Node(id), name, kind) <==>
            Barren(doc, origin) || Barren(doc, node) || Finds(doc, origin, kind, false, false)
  {
    assert forall k | k in PROPERTY_KEYWORDS :: k !in obj;
    ForbiddenExactly(doc, id, obj, name);
    AppliesExactly(doc, id, obj, name);
  }
}
