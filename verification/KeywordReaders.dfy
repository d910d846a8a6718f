/** What the analyser reads off an object is what its keywords say: every reader against the object as it stands. */
module KeywordReaders {
  import opened Text
  import opened JsonDocument
  import opened SchemaKeywords
  import opened Acceptance

  lemma {:induction false} TypeNamesExactly(elems: seq<Json>, t: string)
    ensures t in TypeNames(elems) <==> t != "" && String(t) in elems
  {
    if elems != [] {
      TypeNamesExactly(elems[1..], t);
      assert elems == [elems[0]] + elems[1..];
    }
  }

  /** declaredTypes reads every name in the type keyword. */
  lemma DeclaredTypesExactly(obj: Keywords, t: string)
    ensures t in DeclaredTypes(obj) <==> NamesType(obj, t)
  {
    if "type" in obj && obj["type"].Array? {
      TypeNamesExactly(obj["type"].elems, t);
    }
  }

  /** requiredPropertyNames reads every name in the required list. */
  lemma RequiredExactly(obj: Keywords, name: string)
    ensures name in RequiredNames(obj) <==>
            name != "" && "required" in obj && obj["required"].Array? && String(name) in obj["required"].elems
  {
    if "required" in obj && obj["required"].Array? {
      TypeNamesExactly(obj["required"].elems, name);
    }
  }

  lemma {:induction false} SchemasExactly(elems: seq<Json>, b: Schema)
    ensures b in Schemas(elems) <==>
            || (b == Always && Bool(true) in elems) || (b == Never && Bool(false) in elems)
            || (b.Node? && b.id.At? && Object(b.id.index) in elems)
  {
    if elems != [] {
      SchemasExactly(elems[1..], b);
      assert elems == [elems[0]] + elems[1..];
    }
  }

  /** schemaBranches keeps every entry of the list that is a schema. */
  lemma BranchesExactly(obj: Keywords, key: string, b: Schema)
    ensures b in Branches(obj, key) <==> Lists(obj, key, b)
  {
    if key in obj && obj[key].Array? {
      SchemasExactly(obj[key].elems, b);
    }
  }

  lemma SomeBranch(obj: Keywords, key: string)
    ensures Branches(obj, key) != [] <==> exists b :: Lists(obj, key, b)
  {
    forall b ensures b in Branches(obj, key) <==> Lists(obj, key, b) {
      BranchesExactly(obj, key, b);
    }
    if Branches(obj, key) != [] {
      assert Lists(obj, key, Branches(obj, key)[0]);
    }
  }

  lemma SomeType(obj: Keywords)
    ensures DeclaredTypes(obj) != [] <==> exists t :: NamesType(obj, t)
  {
    forall t ensures t in DeclaredTypes(obj) <==> NamesType(obj, t) {
      DeclaredTypesExactly(obj, t);
    }
    if DeclaredTypes(obj) != [] {
      assert NamesType(obj, DeclaredTypes(obj)[0]);
    }
  }

  // ---- What the declared types say ----

  ghost predicate Typed(obj: Keywords) { exists t :: NamesType(obj, t) }

  ghost predicate TypesWithin(obj: Keywords, allowed: set<string>) { forall t | NamesType(obj, t) :: t in allowed }

  /** Values of these types carry no string. */
  const SCALARS: set<string> := {"null", "boolean", "number", "integer"}

  /** Arrays, and beside them nothing that carries a string. */
  ghost predicate OnlyArrays(obj: Keywords) { NamesType(obj, "array") && TypesWithin(obj, SCALARS + {"array"}) }

  /** Types that are known, and arrays not among them. */
  ghost predicate NoArrays(obj: Keywords) { Typed(obj) && TypesWithin(obj, SCALARS + {"string", "object"}) }

  ghost predicate OnlyObjects(obj: Keywords) { NamesType(obj, "object") && TypesWithin(obj, {"object", "null"}) }

  ghost predicate NoObjects(obj: Keywords) { Typed(obj) && !NamesType(obj, "object") }

  lemma TypesExactly(obj: Keywords)
    ensures DeclaredTypes(obj) != [] <==> Typed(obj)
    ensures forall t :: t in DeclaredTypes(obj) <==> NamesType(obj, t)
  {
    SomeType(obj);
    forall t ensures t in DeclaredTypes(obj) <==> NamesType(obj, t) {
      DeclaredTypesExactly(obj, t);
    }
  }

  /** acceptsStringLikeValue, declaresArrayOnly, branchExcludedByArrayParent, declaresObjectOnly and
      declaresNonObjectOnly, each by the names it lets pass. */
  lemma TypeReadersExactly(obj: Keywords)
    ensures AcceptsStringLike(DeclaredTypes(obj)) <==> !TypesWithin(obj, SCALARS)
    ensures DeclaresArrayOnly(obj) <==> OnlyArrays(obj)
    ensures DeclaresObjectOnly(obj) <==> OnlyObjects(obj)
  {
    TypesExactly(obj);
  }

  lemma BranchReadersExactly(doc: Document, id: ObjectId)
    ensures ExcludedByArrayParent(doc, Node(id)) <==> NoArrays(KeywordsOf(doc, id))
    ensures DeclaresNonObjectOnly(doc, Node(id)) <==> NoObjects(KeywordsOf(doc, id))
  {
    TypesExactly(KeywordsOf(doc, id));
  }

  // ---- Maps and references ----

  lemma MentionsExactly(doc: Document, obj: Keywords, name: string)
    ensures Mentions(doc, obj, name) <==> PropertyDeclared(doc, obj, name) || PatternMatches(doc, obj, name)
  {
    var props, patterns := PropertySchemas(doc, obj), PatternSchemas(doc, obj);
    if PropertyDeclared(doc, obj, name) {
      assert Holds(doc, obj, "properties", name, props[name]);
    }
    if PatternMatches(doc, obj, name) {
      var p :| p in patterns && doc.matches(p, name);
      assert Holds(doc, obj, "patternProperties", p, patterns[p]);
    }
  }

  lemma RefersExactly(doc: Document, obj: Keywords, t: Schema)
    ensures RefersTo(doc, obj, t) <==> !t.Invalid? && RefTarget(doc, obj) == t
  {
  }

  /** The list holds the schemas of the patterns that match the name: each of them, and no other. */
  ghost predicate ListsMatches(doc: Document, obj: Keywords, name: string, elems: seq<Json>) {
    forall v :: v in elems <==>
      AsSchema(v) != Invalid && exists p :: doc.matches(p, name) && Holds(doc, obj, "patternProperties", p, v)
  }

  /** schemaForUndeclaredProperty, by the schemas of the matching patterns: a lone one; the one under
      additionalProperties where there is none; otherwise an object of its own, with all of them under allOf. */
  lemma UndeclaredExactly(doc: Document, owner: nat, name: string, matched: seq<Json>)
    requires matched == UndeclaredCandidates(doc, HeapObject(doc, owner), name)
    ensures ListsMatches(doc, HeapObject(doc, owner), name, matched)
    ensures var obj, s := HeapObject(doc, owner), UndeclaredSchema(doc, owner, name);
            if |matched| == 1 then s == AsSchema(matched[0])
            else if |matched| == 0 && "additionalProperties" in obj && AsSchema(obj["additionalProperties"]) != Invalid
            then s == AsSchema(obj["additionalProperties"])
            else s.Node? && KeywordsOf(doc, s.id) == if |matched| == 0 then map[] else map["allOf" := Array(matched)]
  {
    var obj := HeapObject(doc, owner);
    var patterns := AsObject(doc, Get(obj, "patternProperties"));
    forall v ensures v in matched <==>
      AsSchema(v) != Invalid && exists p :: doc.matches(p, name) && Holds(doc, obj, "patternProperties", p, v)
    {
      MatchedExactly(doc, patterns, Sorted(patterns.Keys), name, v);
      if v in matched {
        var p :| p in Sorted(patterns.Keys) && doc.matches(p, name) && patterns[p] == v;
        assert Holds(doc, obj, "patternProperties", p, v);
      }
    }
  }

  lemma {:induction false} SelectExactly(deps: Keywords, names: seq<string>, required: seq<string>, b: Schema)
    requires forall k | k in names :: k in deps
    ensures b in SelectDependents(deps, names, required) <==>
            !b.Invalid? && exists k | k in names :: k in required && AsSchema(deps[k]) == b
  {
    if names != [] {
      SelectExactly(deps, names[1..], required, b);
    }
  }

  /** requiredDependentSchemas: the schemas whose trigger is a required name, all of them. */
  lemma DependentsExactly(doc: Document, obj: Keywords, b: Schema)
    ensures b in RequiredDependents(doc, obj) <==>
            !b.Invalid? && exists name, v :: name in RequiredNames(obj) && Holds(doc, obj, "dependentSchemas", name, v)
                                             && AsSchema(v) == b
  {
    var deps := AsObject(doc, Get(obj, "dependentSchemas"));
    SelectExactly(deps, Sorted(deps.Keys), RequiredNames(obj), b);
    if b in RequiredDependents(doc, obj) {
      var k :| k in deps && k in RequiredNames(obj) && AsSchema(deps[k]) == b;
      assert Holds(doc, obj, "dependentSchemas", k, deps[k]);
    }
  }
}
