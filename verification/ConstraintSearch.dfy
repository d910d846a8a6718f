/** The analyser's recursion as least fixpoints: what it can establish in finitely many steps,
    with no memo, cycle guard, depth bound or node budget. */
module ConstraintSearch {
  import opened Text
  import opened JsonDocument
  import opened SchemaKeywords

  // ---- viableForKind answers false: nothing the schema accepts carries a string ----

  least predicate Barren[nat](doc: Document, s: Schema) {
    match s
    case Always => false
    case Never => true
    case Invalid => true
    case Node(id) =>
      var obj := KeywordsOf(doc, id);
      || (DeclaredTypes(obj) != [] && !AcceptsStringLike(DeclaredTypes(obj)))
      || BarrenSome(doc, Branches(obj, "allOf"))
      || BarrenEvery(doc, Branches(obj, "anyOf"))
      || BarrenEvery(doc, Branches(obj, "oneOf"))
      || (!RefTarget(doc, obj).Invalid? && Barren(doc, RefTarget(doc, obj)))
      || (ElementsGated(obj) && BarrenElements(doc, ElementSchemas(obj)))
  }

  least predicate BarrenSome[nat](doc: Document, branches: seq<Schema>) {
    exists b | b in branches :: Barren(doc, b)
  }

  least predicate BarrenEvery[nat](doc: Document, branches: seq<Schema>) {
    branches != [] && forall b | b in branches :: Barren(doc, b)
  }

  /** Arrays whose every position is governed by a schema that accepts nothing carrying. */
  least predicate BarrenElements[nat](doc: Document, elements: Option<seq<Json>>) {
    elements.Some? && forall e | e in elements.value :: !AsSchema(e).Invalid? && Barren(doc, AsSchema(e))
  }

  // ---- branchForcesArray answers true. With vacuous set, a disjunction none of whose branches
  // is viable also counts; the program asks for at least one viable branch. ----

  least predicate Forces[nat](doc: Document, s: Schema, vacuous: bool) {
    s.Node? &&
    var obj := KeywordsOf(doc, s.id);
    || DeclaresArrayOnly(obj)
    || ForcesSome(doc, Branches(obj, "allOf"), vacuous)
    || ForcesEvery(doc, Branches(obj, "anyOf"), vacuous)
    || ForcesEvery(doc, Branches(obj, "oneOf"), vacuous)
    || (!RefTarget(doc, obj).Invalid? && Forces(doc, RefTarget(doc, obj), vacuous))
  }

  least predicate ForcesSome[nat](doc: Document, branches: seq<Schema>, vacuous: bool) {
    exists b | b in branches :: Forces(doc, b, vacuous)
  }

  least predicate ForcesEvery[nat](doc: Document, branches: seq<Schema>, vacuous: bool) {
    && branches != []
    && (vacuous || exists b | b in branches :: !Barren(doc, b))
    && forall b | b in branches :: Barren(doc, b) || Forces(doc, b, vacuous)
  }

  /** allOfForcesArray. */
  ghost predicate AllOfForces(doc: Document, obj: Keywords, vacuous: bool) {
    DeclaresArrayOnly(obj) || ForcesSome(doc, Branches(obj, "allOf"), vacuous)
  }

  // ---- searchCtx answers true: a constraint of this kind governs every carrying value ----

  least predicate Finds[nat](doc: Document, s: Schema, kind: Kind, arrayCtx: bool, vacuous: bool) {
    match s
    case Always => false
    case Never => true
    case Invalid => false
    case Node(id) =>
      var obj := KeywordsOf(doc, id);
      var anyCtx := arrayCtx || DeclaresArrayOnly(obj);
      || Direct(obj, kind)
      || (!RefTarget(doc, obj).Invalid? && Finds(doc, RefTarget(doc, obj), kind, arrayCtx, vacuous))
      || FindsSome(doc, Branches(obj, "allOf"), kind, arrayCtx || AllOfForces(doc, obj, vacuous), vacuous)
      || FindsEvery(doc, Branches(obj, "anyOf"), kind, anyCtx, vacuous)
      || FindsEvery(doc, Branches(obj, "oneOf"), kind, anyCtx, vacuous)
      || (ArrayConstraintApplies(obj, arrayCtx) && FindsElements(doc, ElementSchemas(obj), kind, vacuous))
  }

  least predicate FindsSome[nat](doc: Document, branches: seq<Schema>, kind: Kind, arrayCtx: bool, vacuous: bool) {
    exists b | b in branches :: Finds(doc, b, kind, arrayCtx, vacuous)
  }

  ghost predicate Skipped(doc: Document, b: Schema, arrayCtx: bool) {
    (arrayCtx && ExcludedByArrayParent(doc, b)) || Barren(doc, b)
  }

  least predicate FindsEvery[nat](doc: Document, branches: seq<Schema>, kind: Kind, arrayCtx: bool, vacuous: bool) {
    && branches != []
    && forall b | b in branches :: Skipped(doc, b, arrayCtx) || Finds(doc, b, kind, arrayCtx, vacuous)
  }

  least predicate FindsElements[nat](doc: Document, elements: Option<seq<Json>>, kind: Kind, vacuous: bool) {
    elements.Some? && forall e | e in elements.value ::
      !AsSchema(e).Invalid? && (Barren(doc, AsSchema(e)) || Finds(doc, AsSchema(e), kind, false, vacuous))
  }

  // ---- propertyForbidden answers true: no accepted object has the property ----

  least predicate Forbidden[nat](doc: Document, s: Schema, name: string) {
    match s
    case Always => false
    case Never => true
    case Invalid => false
    case Node(id) =>
      var obj := KeywordsOf(doc, id);
      && !PropertyDeclared(doc, obj, name)
      && !PatternMatches(doc, obj, name)
      && (|| Get(obj, "additionalProperties") == Bool(false)
          || (!RefTarget(doc, obj).Invalid? && Forbidden(doc, RefTarget(doc, obj), name))
          || ForbiddenSome(doc, Branches(obj, "allOf"), name))
  }

  least predicate ForbiddenSome[nat](doc: Document, branches: seq<Schema>, name: string) {
    exists b | b in branches :: Forbidden(doc, b, name)
  }

  /** A disjunct that contributes no object having the property. */
  ghost predicate Closed(doc: Document, obj: Keywords, b: Schema, name: string) {
    Forbidden(doc, b, name) || ObjectBranchExcluded(doc, obj, b)
  }

  // ---- propertyApplies answers true: some keyword speaks about the property ----

  least predicate Applies[nat](doc: Document, s: Schema, name: string) {
    s.Node? &&
    var obj := KeywordsOf(doc, s.id);
    || PropertyDeclared(doc, obj, name)
    || PatternMatches(doc, obj, name)
    || "additionalProperties" in obj
    || (!RefTarget(doc, obj).Invalid? && Applies(doc, RefTarget(doc, obj), name))
    || AppliesSome(doc, Branches(obj, "allOf"), name)
    || AppliesSome(doc, RequiredDependents(doc, obj), name)
    || AppliesOpen(doc, obj, Branches(obj, "anyOf"), name)
    || AppliesOpen(doc, obj, Branches(obj, "oneOf"), name)
  }

  least predicate AppliesSome[nat](doc: Document, branches: seq<Schema>, name: string) {
    exists b | b in branches :: Applies(doc, b, name)
  }

  least predicate AppliesOpen[nat](doc: Document, obj: Keywords, branches: seq<Schema>, name: string) {
    exists b | b in branches :: !Closed(doc, obj, b, name) && Applies(doc, b, name)
  }

  // ---- propertyHas answers true: the property's value is constrained in every accepted object ----

  /** obj applies the schema child directly to the named property. */
  ghost predicate Governs(doc: Document, obj: Keywords, name: string, child: Json) {
    var props, patterns := PropertySchemas(doc, obj), PatternSchemas(doc, obj);
    || (name in props && props[name] == child)
    || (exists p | p in patterns :: doc.matches(p, name) && patterns[p] == child)
    || (name !in props && !PatternMatches(doc, obj, name)
        && "additionalProperties" in obj && obj["additionalProperties"] == child)
  }

  ghost predicate DirectPropertyFinds(doc: Document, obj: Keywords, name: string, kind: Kind, vacuous: bool) {
    exists child :: Governs(doc, obj, name, child) && Finds(doc, AsSchema(child), kind, false, vacuous)
  }

  least predicate PropertyFinds[nat](doc: Document, s: Schema, name: string, kind: Kind, vacuous: bool) {
    match s
    case Always => false
    case Never => true
    case Invalid => false
    case Node(id) =>
      var obj := KeywordsOf(doc, id);
      || DirectPropertyFinds(doc, obj, name, kind, vacuous)
      || (!RefTarget(doc, obj).Invalid? && PropertyFinds(doc, RefTarget(doc, obj), name, kind, vacuous))
      || PropertyFindsSome(doc, Branches(obj, "allOf"), name, kind, vacuous)
      || PropertyFindsSome(doc, RequiredDependents(doc, obj), name, kind, vacuous)
      || PropertyFindsEvery(doc, obj, Branches(obj, "anyOf"), name, kind, vacuous)
      || PropertyFindsEvery(doc, obj, Branches(obj, "oneOf"), name, kind, vacuous)
  }

  least predicate PropertyFindsSome[nat](doc: Document, branches: seq<Schema>, name: string, kind: Kind,
                                         vacuous: bool) {
    exists b | b in branches :: PropertyFinds(doc, b, name, kind, vacuous)
  }

  least predicate PropertyFindsEvery[nat](doc: Document, obj: Keywords, branches: seq<Schema>, name: string,
                                          kind: Kind, vacuous: bool) {
    && branches != []
    && (vacuous || exists b | b in branches :: !Closed(doc, obj, b, name))
    && forall b | b in branches :: Closed(doc, obj, b, name) || PropertyFinds(doc, b, name, kind, vacuous)
  }

  /** The constraint is found by asking the instance schema about the property where it has something to say
      about it, and otherwise the origin. */
  ghost predicate FoundAround(doc: Document, origin: Schema, instance: Schema, name: string, kind: Kind) {
    if !instance.Invalid? && name != "" && (Forbidden(doc, instance, name) || Applies(doc, instance, name))
    then Forbidden(doc, instance, name) || PropertyFinds(doc, instance, name, kind, false)
    else Finds(doc, origin, kind, false, false)
  }

  /** unconstrained answers false, on the answers of the unbounded recursion. */
  ghost predicate Constrained(doc: Document, node: Schema, origin: Schema, instance: Schema, name: string, kind: Kind) {
    Barren(doc, origin) || Barren(doc, node) || FoundAround(doc, origin, instance, name, kind)
  }

  /** What shows that the values of a node and its origin are constrained without a look at the object around. */
  ghost predicate ConstrainedItself(doc: Document, node: Schema, origin: Schema, kind: Kind) {
    Barren(doc, origin) || Barren(doc, node) || Finds(doc, origin, kind, false, true)
  }

  /** Does some keyword the property search looks at, or could look at, speak about the property? */
  least predicate Speaks[nat](doc: Document, s: Schema, name: string) {
    s.Node? &&
    var obj := KeywordsOf(doc, s.id);
    || PropertyDeclared(doc, obj, name)
    || PatternMatches(doc, obj, name)
    || "additionalProperties" in obj
    || (!RefTarget(doc, obj).Invalid? && Speaks(doc, RefTarget(doc, obj), name))
    || SpeaksSome(doc, Branches(obj, "allOf"), name)
    || SpeaksSome(doc, RequiredDependents(doc, obj), name)
    || SpeaksSome(doc, Branches(obj, "anyOf"), name)
    || SpeaksSome(doc, Branches(obj, "oneOf"), name)
  }

  least predicate SpeaksSome[nat](doc: Document, branches: seq<Schema>, name: string) {
    exists b | b in branches :: Speaks(doc, b, name)
  }

  /** The schema itself forbids the property: no guard can keep the program from seeing that. */
  predicate ForbidsItself(doc: Document, s: Schema, name: string) {
    || s.Never?
    || (s.Node? && var obj := KeywordsOf(doc, s.id);
        && !PropertyDeclared(doc, obj, name) && !PatternMatches(doc, obj, name)
        && AsSchema(Get(obj, "additionalProperties")).Never?)
  }

  /** The question is answered "constrained" whatever the guards do. */
  predicate SurelySilent(doc: Document, instance: Schema, name: string) {
    name != "" && ForbidsItself(doc, instance, name)
  }

  /** Is the instance schema asked about the property? */
  ghost predicate AsksInstance(doc: Document, instance: Schema, name: string) {
    !instance.Invalid? && name != "" && (Forbidden(doc, instance, name) || Speaks(doc, instance, name))
  }

  ghost predicate FoundAroundAtMost(doc: Document, origin: Schema, instance: Schema, name: string, kind: Kind) {
    || Finds(doc, origin, kind, false, true)
    || (AsksInstance(doc, instance, name)
        && (Forbidden(doc, instance, name) || PropertyFinds(doc, instance, name, kind, true)))
  }

  /** All that unconstrained may claim when a guard cut some question short. */
  ghost predicate ConstrainedAtMost(doc: Document, node: Schema, origin: Schema, instance: Schema, name: string,
                                    kind: Kind) {
    Barren(doc, origin) || Barren(doc, node) || FoundAroundAtMost(doc, origin, instance, name, kind)
  }

  // ---- Array context and vacuous disjunctions only ever add to what is found ----

  // Inside a least lemma, Forces and Finds denote the previous stage; these name the fixpoint itself.

  ghost predicate IsForced(doc: Document, s: Schema, vacuous: bool) { Forces(doc, s, vacuous) }

  ghost predicate IsFound(doc: Document, s: Schema, kind: Kind, arrayCtx: bool, vacuous: bool) {
    Finds(doc, s, kind, arrayCtx, vacuous)
  }

  least lemma {:induction false} ForcesMonotone[nat](doc: Document, s: Schema, vacuous: bool)
    requires Forces(doc, s, vacuous)
    ensures Forces(doc, s, true)
  {
    var obj := KeywordsOf(doc, s.id);
    if ForcesSome#[_k - 1](doc, Branches(obj, "allOf"), vacuous) {
      ForcesSomeMonotone(doc, Branches(obj, "allOf"), vacuous);
    } else if ForcesEvery#[_k - 1](doc, Branches(obj, "anyOf"), vacuous) {
      ForcesEveryMonotone(doc, Branches(obj, "anyOf"), vacuous);
    } else if ForcesEvery#[_k - 1](doc, Branches(obj, "oneOf"), vacuous) {
      ForcesEveryMonotone(doc, Branches(obj, "oneOf"), vacuous);
    } else if !RefTarget(doc, obj).Invalid? && Forces#[_k - 1](doc, RefTarget(doc, obj), vacuous) {
      ForcesMonotone(doc, RefTarget(doc, obj), vacuous);
    }
  }

  least lemma {:induction false} ForcesSomeMonotone[nat](doc: Document, branches: seq<Schema>, vacuous: bool)
    requires ForcesSome(doc, branches, vacuous)
    ensures ForcesSome(doc, branches, true)
  {
    var b :| b in branches && Forces#[_k - 1](doc, b, vacuous);
    ForcesMonotone(doc, b, vacuous);
  }

  least lemma {:induction false} ForcesEveryMonotone[nat](doc: Document, branches: seq<Schema>, vacuous: bool)
    requires ForcesEvery(doc, branches, vacuous)
    ensures ForcesEvery(doc, branches, true)
  {
    forall b | b in branches ensures Barren(doc, b) || IsForced(doc, b, true) {
      if !Barren(doc, b) {
        ForcesMonotone(doc, b, vacuous);
      }
    }
  }

  lemma AllOfForcesMonotone(doc: Document, obj: Keywords, vacuous: bool, vacuous': bool)
    requires AllOfForces(doc, obj, vacuous) && (vacuous ==> vacuous')
    ensures AllOfForces(doc, obj, vacuous')
  {
    if ForcesSome(doc, Branches(obj, "allOf"), vacuous) {
      ForcesSomeMonotone(doc, Branches(obj, "allOf"), vacuous);
    }
  }

  /** The order in which one pair of search flags asks for less than another. */
  predicate Weaker(ctx: bool, vacuous: bool, ctx': bool, vacuous': bool) {
    (ctx ==> ctx') && (vacuous ==> vacuous')
  }

  least lemma {:induction false} FindsMonotone[nat](doc: Document, s: Schema, kind: Kind, ctx: bool, vacuous: bool,
                                                    ctx': bool, vacuous': bool)
    requires Finds(doc, s, kind, ctx, vacuous)
    requires Weaker(ctx, vacuous, ctx', vacuous')
    ensures Finds(doc, s, kind, ctx', vacuous')
  {
    if s.Node? {
      var obj := KeywordsOf(doc, s.id);
      assert ArrayConstraintApplies(obj, ctx) ==> ArrayConstraintApplies(obj, ctx');
      var all, all' := ctx || AllOfForces(doc, obj, vacuous), ctx' || AllOfForces(doc, obj, vacuous');
      var any, any' := ctx || DeclaresArrayOnly(obj), ctx' || DeclaresArrayOnly(obj);
      if !RefTarget(doc, obj).Invalid? && Finds#[_k - 1](doc, RefTarget(doc, obj), kind, ctx, vacuous) {
        FindsMonotone(doc, RefTarget(doc, obj), kind, ctx, vacuous, ctx', vacuous');
      } else if FindsSome#[_k - 1](doc, Branches(obj, "allOf"), kind, all, vacuous) {
        if AllOfForces(doc, obj, vacuous) { AllOfForcesMonotone(doc, obj, vacuous, vacuous'); }
        FindsSomeMonotone(doc, Branches(obj, "allOf"), kind, all, vacuous, all', vacuous');
      } else if FindsEvery#[_k - 1](doc, Branches(obj, "anyOf"), kind, any, vacuous) {
        FindsEveryMonotone(doc, Branches(obj, "anyOf"), kind, any, vacuous, any', vacuous');
      } else if FindsEvery#[_k - 1](doc, Branches(obj, "oneOf"), kind, any, vacuous) {
        FindsEveryMonotone(doc, Branches(obj, "oneOf"), kind, any, vacuous, any', vacuous');
      } else if FindsElements#[_k - 1](doc, ElementSchemas(obj), kind, vacuous) {
        FindsElementsMonotone(doc, ElementSchemas(obj), kind, vacuous, vacuous');
      }
    }
  }

  least lemma {:induction false} FindsSomeMonotone[nat](doc: Document, branches: seq<Schema>, kind: Kind, ctx: bool,
                                                        vacuous: bool, ctx': bool, vacuous': bool)
    requires FindsSome(doc, branches, kind, ctx, vacuous)
    requires Weaker(ctx, vacuous, ctx', vacuous')
    ensures FindsSome(doc, branches, kind, ctx', vacuous')
  {
    var b :| b in branches && Finds#[_k - 1](doc, b, kind, ctx, vacuous);
    FindsMonotone(doc, b, kind, ctx, vacuous, ctx', vacuous');
  }

  least lemma {:induction false} FindsEveryMonotone[nat](doc: Document, branches: seq<Schema>, kind: Kind, ctx: bool,
                                                         vacuous: bool, ctx': bool, vacuous': bool)
    requires FindsEvery(doc, branches, kind, ctx, vacuous)
    requires Weaker(ctx, vacuous, ctx', vacuous')
    ensures FindsEvery(doc, branches, kind, ctx', vacuous')
  {
    forall b | b in branches ensures Skipped(doc, b, ctx') || IsFound(doc, b, kind, ctx', vacuous') {
      if !Skipped(doc, b, ctx) {
        FindsMonotone(doc, b, kind, ctx, vacuous, ctx', vacuous');
      }
    }
  }

  least lemma {:induction false} FindsElementsMonotone[nat](doc: Document, elements: Option<seq<Json>>, kind: Kind,
                                                            vacuous: bool, vacuous': bool)
    requires FindsElements(doc, elements, kind, vacuous)
    requires vacuous ==> vacuous'
    ensures FindsElements(doc, elements, kind, vacuous')
  {
    forall e | e in elements.value
      ensures Barren(doc, AsSchema(e)) || IsFound(doc, AsSchema(e), kind, false, vacuous')
    {
      if !Barren(doc, AsSchema(e)) {
        FindsMonotone(doc, AsSchema(e), kind, false, vacuous, false, vacuous');
      }
    }
  }
}
