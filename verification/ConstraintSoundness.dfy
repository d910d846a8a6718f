/** The analyser never claims a constraint that the schema does not impose. Every result is for
    all documents, all acceptance relations and all values. */
module ConstraintSoundness {
  import opened Text
  import opened JsonDocument
  import opened SchemaKeywords
  import opened Acceptance
  import opened ConstraintSearch
  import opened KeywordReaders

  // ---- What acceptance gives, one keyword at a time ----

  lemma AcceptedIsAdmitted(doc: Document, accepts: Relation, s: Schema, v: Value)
    requires IsAcceptance(doc, accepts) && accepts(s, v)
    ensures Admits(doc, accepts, s, v)
  {
  }

  ghost predicate SomeAccepts(accepts: Relation, branches: seq<Schema>, v: Value) {
    exists b | b in branches :: accepts(b, v)
  }

  ghost predicate AllAccept(accepts: Relation, branches: seq<Schema>, v: Value) {
    forall b | b in branches :: accepts(b, v)
  }

  ghost predicate SomeElementAccepts(accepts: Relation, elements: seq<Json>, x: Value) {
    exists e | e in elements :: AcceptsIfSchema(accepts, e, x)
  }

  ghost predicate ElementsAccepted(accepts: Relation, elements: seq<Json>, v: Value) {
    v.VArray? ==> forall i | 0 <= i < |v.elems| :: SomeElementAccepts(accepts, elements, v.elems[i])
  }

  lemma AcceptedParts(doc: Document, accepts: Relation, id: ObjectId, v: Value)
    requires IsAcceptance(doc, accepts) && accepts(Node(id), v)
    ensures var obj := KeywordsOf(doc, id);
            && (DeclaredTypes(obj) != [] && !AcceptsStringLike(DeclaredTypes(obj)) ==> !Carries(v))
            && (DeclaresArrayOnly(obj) ==> ArrayOrInert(v))
            && AllAccept(accepts, Branches(obj, "allOf"), v)
            && (Branches(obj, "anyOf") != [] ==> SomeAccepts(accepts, Branches(obj, "anyOf"), v))
            && (Branches(obj, "oneOf") != [] ==> SomeAccepts(accepts, Branches(obj, "oneOf"), v))
            && (!RefTarget(doc, obj).Invalid? ==> accepts(RefTarget(doc, obj), v))
  {
    AcceptedIsAdmitted(doc, accepts, Node(id), v);
    var obj := KeywordsOf(doc, id);
    if DeclaredTypes(obj) != [] { AcceptedType(doc, accepts, id, v); }
    forall b | b in Branches(obj, "allOf") ensures accepts(b, v) {
      BranchesExactly(obj, "allOf", b);
    }
    AdmittedBySome(accepts, obj, "anyOf", v);
    AdmittedBySome(accepts, obj, "oneOf", v);
    RefersExactly(doc, obj, RefTarget(doc, obj));
  }

  /** The value has one of the declared types. */
  lemma AcceptedType(doc: Document, accepts: Relation, id: ObjectId, v: Value)
    requires IsAcceptance(doc, accepts) && accepts(Node(id), v)
    requires DeclaredTypes(KeywordsOf(doc, id)) != []
    ensures exists t | t in DeclaredTypes(KeywordsOf(doc, id)) :: HasType(v, t)
  {
    AcceptedIsAdmitted(doc, accepts, Node(id), v);
    var obj := KeywordsOf(doc, id);
    SomeType(obj);
    var t :| NamesType(obj, t) && HasType(v, t);
    DeclaredTypesExactly(obj, t);
  }

  lemma AdmittedBySome(accepts: Relation, obj: Keywords, key: string, v: Value)
    requires (exists b :: Lists(obj, key, b)) ==> exists b :: Lists(obj, key, b) && accepts(b, v)
    ensures Branches(obj, key) != [] ==> SomeAccepts(accepts, Branches(obj, key), v)
  {
    SomeBranch(obj, key);
    if Branches(obj, key) != [] {
      var b :| Lists(obj, key, b) && accepts(b, v);
      BranchesExactly(obj, key, b);
    }
  }

  lemma OnlyNodesAndAlwaysAccept(doc: Document, accepts: Relation, s: Schema, v: Value)
    requires IsAcceptance(doc, accepts) && accepts(s, v)
    ensures s.Node? || s.Always?
  {
    AcceptedIsAdmitted(doc, accepts, s, v);
  }

  /** When the item keywords leave no position open, each element is governed by one of their schemas. */
  lemma AcceptedElements(doc: Document, accepts: Relation, id: ObjectId, v: Value)
    requires IsAcceptance(doc, accepts) && accepts(Node(id), v)
    requires ElementSchemas(KeywordsOf(doc, id)).Some?
    ensures ElementsAccepted(accepts, ElementSchemas(KeywordsOf(doc, id)).value, v)
  {
    AcceptedIsAdmitted(doc, accepts, Node(id), v);
    if v.VArray? {
      var obj := KeywordsOf(doc, id);
      var elements := ElementSchemas(obj).value;
      var prefix, items := PrefixItems(obj), Get(obj, "items");
      forall i | 0 <= i < |v.elems| ensures SomeElementAccepts(accepts, elements, v.elems[i]) {
        assert AdmitsElement(accepts, obj, i, v.elems[i]);
        if items.Array? {
          var at := |prefix| + if i < |items.elems| then i else |items.elems|;
          assert elements[at] in elements && AcceptsIfSchema(accepts, elements[at], v.elems[i]);
        } else {
          var at := if i < |prefix| then i else |prefix|;
          assert elements[at] in elements && AcceptsIfSchema(accepts, elements[at], v.elems[i]);
        }
      }
    }
  }

  // ---- Viability ----

  least lemma {:induction false} BarrenInduction[nat](doc: Document, s: Schema, accepts: Relation, v: Value)
    requires Barren(doc, s)
    requires IsAcceptance(doc, accepts)
    ensures accepts(s, v) ==> !Carries(v)
  {
    if accepts(s, v) {
      OnlyNodesAndAlwaysAccept(doc, accepts, s, v);
      AcceptedParts(doc, accepts, s.id, v);
      var obj := KeywordsOf(doc, s.id);
      if BarrenSome#[_k - 1](doc, Branches(obj, "allOf")) {
        BarrenSomeInduction(doc, Branches(obj, "allOf"), accepts, v);
      } else if BarrenEvery#[_k - 1](doc, Branches(obj, "anyOf")) {
        BarrenEveryInduction(doc, Branches(obj, "anyOf"), accepts, v);
      } else if BarrenEvery#[_k - 1](doc, Branches(obj, "oneOf")) {
        BarrenEveryInduction(doc, Branches(obj, "oneOf"), accepts, v);
      } else if !RefTarget(doc, obj).Invalid? && Barren#[_k - 1](doc, RefTarget(doc, obj)) {
        BarrenInduction(doc, RefTarget(doc, obj), accepts, v);
      } else if BarrenElements#[_k - 1](doc, ElementSchemas(obj)) && ElementSchemas(obj).Some? {
        AcceptedElements(doc, accepts, s.id, v);
        BarrenElementsInduction(doc, ElementSchemas(obj), accepts, v);
      }
    }
  }

  least lemma {:induction false} BarrenSomeInduction[nat](doc: Document, branches: seq<Schema>, accepts: Relation,
                                                          v: Value)
    requires BarrenSome(doc, branches)
    requires IsAcceptance(doc, accepts)
    ensures AllAccept(accepts, branches, v) ==> !Carries(v)
  {
    var b :| b in branches && Barren#[_k - 1](doc, b);
    BarrenInduction(doc, b, accepts, v);
  }

  least lemma {:induction false} BarrenEveryInduction[nat](doc: Document, branches: seq<Schema>, accepts: Relation,
                                                           v: Value)
    requires BarrenEvery(doc, branches)
    requires IsAcceptance(doc, accepts)
    ensures branches != []
    ensures SomeAccepts(accepts, branches, v) ==> !Carries(v)
  {
    if SomeAccepts(accepts, branches, v) {
      var b :| b in branches && accepts(b, v);
      BarrenInduction(doc, b, accepts, v);
    }
  }

  least lemma {:induction false} BarrenElementsInduction[nat](doc: Document, elements: Option<seq<Json>>,
                                                              accepts: Relation, v: Value)
    requires BarrenElements(doc, elements)
    requires IsAcceptance(doc, accepts)
    ensures elements.Some? && (ElementsAccepted(accepts, elements.value, v) && ArrayOrInert(v) ==> !Carries(v))
  {
    if ElementsAccepted(accepts, elements.value, v) && v.VArray? {
      forall i | 0 <= i < |v.elems| ensures !Carries(v.elems[i]) {
        assert SomeElementAccepts(accepts, elements.value, v.elems[i]);
        var e :| e in elements.value && AcceptsIfSchema(accepts, e, v.elems[i]);
        BarrenInduction(doc, AsSchema(e), accepts, v.elems[i]);
      }
    }
  }

  /** A schema judged not viable accepts nothing that carries a string, tuples and closed tails included. */
  lemma BarrenSound(doc: Document, s: Schema, accepts: Relation, v: Value)
    requires Barren(doc, s) && IsAcceptance(doc, accepts) && accepts(s, v)
    ensures !Carries(v)
  {
    BarrenInduction(doc, s, accepts, v);
  }

  // ---- Array forcing ----

  least lemma {:induction false} ForcesInduction[nat](doc: Document, s: Schema, vacuous: bool, accepts: Relation,
                                                      v: Value)
    requires Forces(doc, s, vacuous)
    requires IsAcceptance(doc, accepts)
    ensures accepts(s, v) ==> ArrayOrInert(v)
  {
    if accepts(s, v) {
      AcceptedParts(doc, accepts, s.id, v);
      var obj := KeywordsOf(doc, s.id);
      if ForcesSome#[_k - 1](doc, Branches(obj, "allOf"), vacuous) {
        ForcesSomeInduction(doc, Branches(obj, "allOf"), vacuous, accepts, v);
      } else if ForcesEvery#[_k - 1](doc, Branches(obj, "anyOf"), vacuous) {
        ForcesEveryInduction(doc, Branches(obj, "anyOf"), vacuous, accepts, v);
      } else if ForcesEvery#[_k - 1](doc, Branches(obj, "oneOf"), vacuous) {
        ForcesEveryInduction(doc, Branches(obj, "oneOf"), vacuous, accepts, v);
      } else if !RefTarget(doc, obj).Invalid? && Forces#[_k - 1](doc, RefTarget(doc, obj), vacuous) {
        ForcesInduction(doc, RefTarget(doc, obj), vacuous, accepts, v);
      }
    }
  }

  least lemma {:induction false} ForcesSomeInduction[nat](doc: Document, branches: seq<Schema>, vacuous: bool,
                                                          accepts: Relation, v: Value)
    requires ForcesSome(doc, branches, vacuous)
    requires IsAcceptance(doc, accepts)
    ensures AllAccept(accepts, branches, v) ==> ArrayOrInert(v)
  {
    var b :| b in branches && Forces#[_k - 1](doc, b, vacuous);
    ForcesInduction(doc, b, vacuous, accepts, v);
  }

  least lemma {:induction false} ForcesEveryInduction[nat](doc: Document, branches: seq<Schema>, vacuous: bool,
                                                           accepts: Relation, v: Value)
    requires ForcesEvery(doc, branches, vacuous)
    requires IsAcceptance(doc, accepts)
    ensures branches != []
    ensures SomeAccepts(accepts, branches, v) ==> ArrayOrInert(v)
  {
    if SomeAccepts(accepts, branches, v) {
      var b :| b in branches && accepts(b, v);
      if Barren(doc, b) {
        BarrenSound(doc, b, accepts, v);
      } else {
        ForcesInduction(doc, b, vacuous, accepts, v);
      }
    }
  }

  /** A branch judged to force arrays accepts only arrays and values that carry no string. */
  lemma ForcesSound(doc: Document, s: Schema, vacuous: bool, accepts: Relation, v: Value)
    requires Forces(doc, s, vacuous) && IsAcceptance(doc, accepts) && accepts(s, v)
    ensures ArrayOrInert(v)
  {
    ForcesInduction(doc, s, vacuous, accepts, v);
  }

  lemma AllOfForcesSound(doc: Document, id: ObjectId, vacuous: bool, accepts: Relation, v: Value)
    requires AllOfForces(doc, KeywordsOf(doc, id), vacuous)
    requires IsAcceptance(doc, accepts) && accepts(Node(id), v)
    ensures ArrayOrInert(v)
  {
    AcceptedParts(doc, accepts, id, v);
    if ForcesSome(doc, Branches(KeywordsOf(doc, id), "allOf"), vacuous) {
      ForcesSomeInduction(doc, Branches(KeywordsOf(doc, id), "allOf"), vacuous, accepts, v);
    }
  }

  // ---- The search ----

  /** Under array typing, a branch that declares only non-array types accepts no array; a barren one nothing. */
  lemma SkippedBranchIsInert(doc: Document, b: Schema, arrayCtx: bool, accepts: Relation, v: Value)
    requires Skipped(doc, b, arrayCtx) && IsAcceptance(doc, accepts) && accepts(b, v)
    requires arrayCtx ==> ArrayOrInert(v)
    ensures !Carries(v)
  {
    if Barren(doc, b) {
      BarrenSound(doc, b, accepts, v);
    } else {
      AcceptedType(doc, accepts, b.id, v);
    }
  }

  ghost predicate InContext(arrayCtx: bool, v: Value) { arrayCtx ==> ArrayOrInert(v) }

  least lemma {:induction false} FindsInduction[nat](doc: Document, s: Schema, kind: Kind, arrayCtx: bool,
                                                     vacuous: bool, accepts: Relation, v: Value)
    requires Finds(doc, s, kind, arrayCtx, vacuous)
    requires IsAcceptance(doc, accepts)
    ensures accepts(s, v) && InContext(arrayCtx, v) ==> Covered(doc, accepts, kind, v)
  {
    if accepts(s, v) && InContext(arrayCtx, v) {
      OnlyNodesAndAlwaysAccept(doc, accepts, s, v);
      AcceptedParts(doc, accepts, s.id, v);
      var obj := KeywordsOf(doc, s.id);
      var allCtx, anyCtx := arrayCtx || AllOfForces(doc, obj, vacuous), arrayCtx || DeclaresArrayOnly(obj);
      if Direct(obj, kind) {
        assert DirectlyCovered(doc, accepts, kind, v);
      } else if !RefTarget(doc, obj).Invalid? && Finds#[_k - 1](doc, RefTarget(doc, obj), kind, arrayCtx, vacuous) {
        FindsInduction(doc, RefTarget(doc, obj), kind, arrayCtx, vacuous, accepts, v);
      } else if FindsSome#[_k - 1](doc, Branches(obj, "allOf"), kind, allCtx, vacuous) {
        if !arrayCtx && allCtx { AllOfForcesSound(doc, s.id, vacuous, accepts, v); }
        FindsSomeInduction(doc, Branches(obj, "allOf"), kind, allCtx, vacuous, accepts, v);
      } else if FindsEvery#[_k - 1](doc, Branches(obj, "anyOf"), kind, anyCtx, vacuous) {
        FindsEveryInduction(doc, Branches(obj, "anyOf"), kind, anyCtx, vacuous, accepts, v);
      } else if FindsEvery#[_k - 1](doc, Branches(obj, "oneOf"), kind, anyCtx, vacuous) {
        FindsEveryInduction(doc, Branches(obj, "oneOf"), kind, anyCtx, vacuous, accepts, v);
      } else {
        FindsElementsInduction(doc, ElementSchemas(obj), kind, vacuous, accepts, v);
        AcceptedElements(doc, accepts, s.id, v);
      }
    }
  }

  least lemma {:induction false} FindsSomeInduction[nat](doc: Document, branches: seq<Schema>, kind: Kind,
                                                         arrayCtx: bool, vacuous: bool, accepts: Relation, v: Value)
    requires FindsSome(doc, branches, kind, arrayCtx, vacuous)
    requires IsAcceptance(doc, accepts)
    ensures AllAccept(accepts, branches, v) && InContext(arrayCtx, v) ==> Covered(doc, accepts, kind, v)
  {
    var b :| b in branches && Finds#[_k - 1](doc, b, kind, arrayCtx, vacuous);
    FindsInduction(doc, b, kind, arrayCtx, vacuous, accepts, v);
  }

  least lemma {:induction false} FindsEveryInduction[nat](doc: Document, branches: seq<Schema>, kind: Kind,
                                                          arrayCtx: bool, vacuous: bool, accepts: Relation, v: Value)
    requires FindsEvery(doc, branches, kind, arrayCtx, vacuous)
    requires IsAcceptance(doc, accepts)
    ensures branches != []
    ensures SomeAccepts(accepts, branches, v) && InContext(arrayCtx, v) ==> Covered(doc, accepts, kind, v)
  {
    if SomeAccepts(accepts, branches, v) && InContext(arrayCtx, v) {
      var b :| b in branches && accepts(b, v);
      if Skipped(doc, b, arrayCtx) {
        SkippedBranchIsInert(doc, b, arrayCtx, accepts, v);
      } else {
        FindsInduction(doc, b, kind, arrayCtx, vacuous, accepts, v);
      }
    }
  }

  least lemma {:induction false} FindsElementsInduction[nat](doc: Document, elements: Option<seq<Json>>, kind: Kind,
                                                             vacuous: bool, accepts: Relation, v: Value)
    requires FindsElements(doc, elements, kind, vacuous)
    requires IsAcceptance(doc, accepts)
    ensures elements.Some?
    ensures ElementsAccepted(accepts, elements.value, v) && ArrayOrInert(v) ==> Covered(doc, accepts, kind, v)
  {
    if ElementsAccepted(accepts, elements.value, v) && v.VArray? {
      forall i | 0 <= i < |v.elems| ensures Covered(doc, accepts, kind, v.elems[i]) {
        var e :| e in elements.value && AcceptsIfSchema(accepts, e, v.elems[i]);
        if Barren(doc, AsSchema(e)) {
          BarrenSound(doc, AsSchema(e), accepts, v.elems[i]);
        } else {
          FindsInduction(doc, AsSchema(e), kind, false, vacuous, accepts, v.elems[i]);
        }
      }
    }
  }

  /** Whatever the search finds a constraint for is constrained: every accepted value (in array context,
      every accepted value that is an array or inert) is covered. */
  lemma SearchSound(doc: Document, s: Schema, kind: Kind, arrayCtx: bool, vacuous: bool, accepts: Relation, v: Value)
    requires Finds(doc, s, kind, arrayCtx, vacuous) && IsAcceptance(doc, accepts) && accepts(s, v)
    requires arrayCtx ==> ArrayOrInert(v)
    ensures Covered(doc, accepts, kind, v)
  {
    FindsInduction(doc, s, kind, arrayCtx, vacuous, accepts, v);
  }
}
