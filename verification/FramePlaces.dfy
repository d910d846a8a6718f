/** What a frame of the walk stands for: the values at one place of the documents the root accepts. Every step
    of the walk leads from a place to places inside it, and the schemas a frame is reported with, its node, its
    origin and its instance, keep their relation to the place all along. */
module FramePlaces {
  import opened Text
  import opened JsonDocument
  import opened SchemaKeywords
  import opened SchemaWalk
  import opened Acceptance
  import opened ConstraintSoundness
  import opened PropertySoundness

  /** walkSchema's first frame: the root is not reported itself. */
  function RootEntry(loc: string): Entry {
    Entry(Frame(Node(ROOT), Invalid, Node(ROOT), loc, "", 0, false, "", ""), false)
  }

  // ---- From a place to the places inside it ----

  /** A property of the value, entered under its name, declared or only required. */
  ghost predicate ToProperty(doc: Document, e: Entry, id: ObjectId, obj: Keywords, p: Place, c: Entry, q: Place) {
    var name := c.frame.propName;
    && (c in EnterDeclared(doc, e.frame, obj) || c in EnterUndeclared(doc, e.frame, id, RequiredOnly(doc, obj)))
    && HasProperty(p.value, name) && q == Place(p.value.fields[name], p.value, [])
  }

  /** Any property that a pattern matches. */
  ghost predicate ToMatch(doc: Document, e: Entry, obj: Keywords, p: Place, c: Entry, q: Place) {
    && c in EnterPatterns(doc, e.frame, obj) && p.value.VObject?
    && exists name | name in p.value.fields ::
         doc.matches(c.frame.propName, name) && q == Place(p.value.fields[name], p.value, [])
  }

  /** Any property neither declared nor matched. */
  ghost predicate ToAdditional(doc: Document, e: Entry, obj: Keywords, p: Place, c: Entry, q: Place) {
    && c in EnterAdditional(e.frame, obj) && p.value.VObject?
    && exists name | name in p.value.fields ::
         && !PropertyDeclared(doc, obj, name) && !PatternMatches(doc, obj, name)
         && q == Place(p.value.fields[name], p.value, [])
  }

  ghost predicate ToElement(e: Entry, obj: Keywords, p: Place, c: Entry, q: Place) {
    && c in EnterItems(e.frame, obj)
    && ElementOf(q.value, p.value) && q == p.(value := q.value, arrays := p.arrays + [p.value])
  }

  /** Conjuncts, disjuncts and the target of a reference speak about the same value. */
  ghost predicate ToSame(doc: Document, e: Entry, obj: Keywords, p: Place, c: Entry, q: Place) {
    && q == p
    && (c in EnterCompositions(e, obj) || (!RefTarget(doc, obj).Invalid? && c == RefEntry(e, RefTarget(doc, obj))))
  }

  /** So do conditional subschemas, but they are entered with the instance for an origin. */
  ghost predicate ToCondition(doc: Document, e: Entry, obj: Keywords, p: Place, c: Entry, q: Place) {
    c in EnterConditionals(doc, e.frame, obj) && q == p.(arrays := [])
  }

  /** The program takes the empty name for no name at all; a named step does not lead to a property of that name. */
  ghost predicate StepTo(doc: Document, named: bool, e: Entry, id: ObjectId, p: Place, c: Entry, q: Place) {
    var obj := KeywordsOf(doc, id);
    || (ToProperty(doc, e, id, obj, p, c, q) && (named ==> c.frame.propName != ""))
    || ToMatch(doc, e, obj, p, c, q) || ToAdditional(doc, e, obj, p, c, q)
    || ToElement(e, obj, p, c, q) || ToSame(doc, e, obj, p, c, q) || ToCondition(doc, e, obj, p, c, q)
  }

  ghost predicate Taken(accepts: Relation, e: Entry, p: Place) { accepts(e.frame.node, p.value) }

  /** The frame stands for the value at p in document v: it is the root's, or it was entered from a frame whose
      node accepts the value at the place that one stands for; by named steps only, or by any. */
  least predicate Stands[nat](doc: Document, accepts: Relation, loc: string, v: Value, named: bool, c: Entry,
                              q: Place) {
    || (c == RootEntry(loc) && q == Place(v, v, []))
    || exists e, p :: Stands(doc, accepts, loc, v, named, e, p) && e.frame.node.Node? && Taken(accepts, e, p)
                      && StepTo(doc, named, e, e.frame.node.id, p, c, q)
  }

  ghost predicate StandsAnyhow(doc: Document, accepts: Relation, loc: string, v: Value, c: Entry, q: Place) {
    Stands(doc, accepts, loc, v, false, c, q)
  }

  least lemma {:induction false} NamedStands[nat](doc: Document, accepts: Relation, loc: string, v: Value, c: Entry,
                                                  q: Place)
    requires Stands(doc, accepts, loc, v, true, c, q)
    ensures StandsAnyhow(doc, accepts, loc, v, c, q)
  {
    if !(c == RootEntry(loc) && q == Place(v, v, [])) {
      var e, p :| Stands#[_k - 1](doc, accepts, loc, v, true, e, p) && e.frame.node.Node? && Taken(accepts, e, p)
                  && StepTo(doc, true, e, e.frame.node.id, p, c, q);
      NamedStands(doc, accepts, loc, v, e, p);
      StandsOn(doc, accepts, loc, v, false, e, e.frame.node.id, p, c, q);
    }
  }

  lemma StandsOn(doc: Document, accepts: Relation, loc: string, v: Value, named: bool, e: Entry, id: ObjectId, p: Place,
                 c: Entry, q: Place)
    requires e.frame.node == Node(id) && Stands(doc, accepts, loc, v, named, e, p) && Taken(accepts, e, p)
    requires StepTo(doc, named, e, id, p, c, q)
    ensures Stands(doc, accepts, loc, v, named, c, q)
  {
  }

  // ---- What the schemas of a frame have to do with its place ----

  ghost predicate FrameOk(accepts: Relation, f: Frame, p: Place) {
    && Chained(p)
    && (if f.origin.Invalid? then p.arrays == [] else accepts(f.origin, Top(p)))
    && (if f.propName == "" then UnnamedOk(accepts, f, p) else AsProperty(accepts, f.instance, f.propName, p))
    && (f.inspect ==> f.propName == "" && !f.instance.Invalid?)
  }

  /** A frame without a name has its value's own schema for an instance, if it has one. */
  ghost predicate UnnamedOk(accepts: Relation, f: Frame, p: Place) {
    if f.instance.Invalid? then p.arrays == [] else accepts(f.instance, p.value)
  }

  lemma ConstraintHolds(accepts: Relation, e: Entry, p: Place)
    requires FrameOk(accepts, e.frame, p) && Taken(accepts, e, p)
    ensures accepts(Constraint(e.frame), Top(p))
  {
  }

  lemma NestedHolds(accepts: Relation, e: Entry, p: Place)
    requires FrameOk(accepts, e.frame, p) && Taken(accepts, e, p)
    ensures accepts(Nested(e.frame), p.value)
  {
  }

  lemma {:induction false} MapEntry(schemas: Keywords, names: seq<string>, base: string, origin: Schema,
                                    instance: Schema, depth: nat, named: bool, c: Entry)
    requires forall name | name in names :: name in schemas
    requires c in EnterMap(schemas, names, base, origin, instance, depth, named)
    ensures exists k | k in names ::
              c == Entry(Child(AsSchema(schemas[k]), origin, instance, base + k, if named then k else "", depth), named)
  {
    var rest := EnterMap(schemas, names[1..], base, origin, instance, depth, named);
    assert names[0] in names;
    if c in rest {
      MapEntry(schemas, names[1..], base, origin, instance, depth, named, c);
    }
  }

  lemma {:induction false} UndeclaredEntry(doc: Document, f: Frame, id: ObjectId, names: seq<string>, c: Entry)
    requires c in EnterUndeclared(doc, f, id, names)
    ensures id.At?
    ensures exists k | k in names ::
              c == Entry(Child(UndeclaredSchema(doc, id.index, k), Invalid, Nested(f), f.loc + ".properties." + k, k,
                               f.depth + 1), true)
  {
    assert names[0] in names;
    if c in EnterUndeclared(doc, f, id, names[1..]) {
      UndeclaredEntry(doc, f, id, names[1..], c);
    }
  }

  lemma {:induction false} ListEntry(elems: seq<Json>, i: nat, loc: string, origin: Schema, depth: nat, c: Entry)
    requires c in EnterList(elems, i, loc, origin, depth)
    ensures c.frame.origin == origin && c.frame.instance == Invalid && c.frame.propName == "items" && !c.frame.inspect
              && c.visit
    decreases |elems| - i
  {
    if c in EnterList(elems, i + 1, loc, origin, depth) {
      ListEntry(elems, i + 1, loc, origin, depth, c);
    }
  }

  lemma {:induction false} BranchEntry(elems: seq<Json>, i: nat, loc: string, common: Frame, c: Entry)
    requires c in EnterBranches(elems, i, loc, common)
    ensures !c.visit && c.frame == common.(node := c.frame.node, loc := c.frame.loc)
    decreases |elems| - i
  {
    if c in EnterBranches(elems, i + 1, loc, common) {
      BranchEntry(elems, i + 1, loc, common, c);
    }
  }

  ghost predicate PropertyFrame(f: Frame, c: Entry) {
    c.visit && !c.frame.inspect && c.frame.origin == Invalid && c.frame.instance == Nested(f)
  }

  lemma PropertyEntry(doc: Document, f: Frame, id: ObjectId, obj: Keywords, c: Entry)
    requires c in EnterDeclared(doc, f, obj) || c in EnterUndeclared(doc, f, id, RequiredOnly(doc, obj))
    ensures PropertyFrame(f, c)
  {
    if c in EnterDeclared(doc, f, obj) {
      var declared := PropertySchemas(doc, obj);
      MapEntry(declared, Sorted(declared.Keys), f.loc + ".properties.", Invalid, Nested(f), f.depth + 1, true, c);
    } else {
      UndeclaredEntry(doc, f, id, RequiredOnly(doc, obj), c);
    }
  }

  /** The frame of a pattern, or of the additional properties: asked about on its own. */
  ghost predicate LoneFrame(c: Entry) {
    c.visit && !c.frame.inspect && c.frame.origin == Invalid && c.frame.instance == Invalid
  }

  lemma LoneEntry(doc: Document, f: Frame, obj: Keywords, c: Entry)
    requires c in EnterPatterns(doc, f, obj) || c in EnterAdditional(f, obj)
    ensures LoneFrame(c)
  {
    if c in EnterPatterns(doc, f, obj) {
      var patterns := PatternSchemas(doc, obj);
      MapEntry(patterns, Sorted(patterns.Keys), f.loc + ".patternProperties.", Invalid, Invalid, f.depth + 1, true, c);
    }
  }

  ghost predicate ElementFrame(f: Frame, c: Entry) {
    c.visit && !c.frame.inspect && c.frame.origin == Constraint(f) && c.frame.instance == Invalid
        && c.frame.propName == "items"
  }

  lemma ElementEntry(f: Frame, obj: Keywords, c: Entry)
    requires c in EnterItems(f, obj)
    ensures ElementFrame(f, c)
  {
    var items, prefix := Get(obj, "items"), ListOf(obj, "prefixItems");
    if c in EnterList(prefix, 0, f.loc + ".prefixItems", Constraint(f), f.depth + 1) {
      ListEntry(prefix, 0, f.loc + ".prefixItems", Constraint(f), f.depth + 1, c);
    } else if items.Array? && c in EnterItemsKeyword(f, items) {
      ListEntry(items.elems, 0, f.loc + ".items", Constraint(f), f.depth + 1, c);
    }
  }

  /** The frame of a disjunct or conjunct: where it is looked at depends on how its parent was. */
  ghost predicate BranchFrame(e: Entry, c: Entry) {
    var f := e.frame;
    && !c.visit && c.frame.inspect == (e.visit || f.inspect)
    && c.frame.origin == Constraint(f) && c.frame.instance == Nested(f) && c.frame.propName == ""
  }

  lemma BranchEntryOf(e: Entry, obj: Keywords, key: string, c: Entry)
    requires c in EnterComposition(e, obj, key)
    ensures BranchFrame(e, c)
  {
    var f := e.frame;
    var own := f.inspect && f.cueLoc != "";
    BranchEntry(ListOf(obj, key), 0, f.loc + "." + key,
                Frame(Invalid, Constraint(f), Nested(f), "", "", f.depth + 1, e.visit || f.inspect,
                      if own then f.cueLoc else f.loc, if own then f.cueName else f.propName), c);
  }

  lemma CompositionEntry(e: Entry, obj: Keywords, c: Entry)
    requires c in EnterCompositions(e, obj)
    ensures BranchFrame(e, c)
  {
    if c in EnterComposition(e, obj, "allOf") {
      BranchEntryOf(e, obj, "allOf", c);
    } else if c in EnterComposition(e, obj, "anyOf") {
      BranchEntryOf(e, obj, "anyOf", c);
    } else {
      BranchEntryOf(e, obj, "oneOf", c);
    }
  }

  ghost predicate ConditionFrame(f: Frame, c: Entry) {
    && !c.visit && !c.frame.inspect
    && c.frame.origin == Nested(f) && c.frame.instance == Nested(f) && c.frame.propName == ""
  }

  lemma DependentEntry(doc: Document, f: Frame, obj: Keywords, c: Entry)
    requires c in EnterDependents(doc, f, obj)
    ensures ConditionFrame(f, c)
  {
    var deps := AsObject(doc, Get(obj, "dependentSchemas"));
    MapEntry(deps, Sorted(deps.Keys), f.loc + ".dependentSchemas.", Nested(f), Nested(f), f.depth + 1, false, c);
  }

  lemma ConditionEntry(doc: Document, f: Frame, obj: Keywords, c: Entry)
    requires c in EnterConditionals(doc, f, obj)
    ensures ConditionFrame(f, c)
  {
    if c in EnterDependents(doc, f, obj) {
      DependentEntry(doc, f, obj, c);
    }
  }

  // ---- Every step keeps it ----

  lemma ElementChained(p: Place, q: Place)
    requires Chained(p) && ElementOf(q.value, p.value) && q == p.(value := q.value, arrays := p.arrays + [p.value])
    ensures Chained(q) && Top(q) == Top(p)
  {
    forall i | 0 <= i < |q.arrays| - 1 ensures ElementOf(q.arrays[i + 1], q.arrays[i]) {
      if i < |p.arrays| - 1 {
        assert ElementOf(p.arrays[i + 1], p.arrays[i]);
      }
    }
  }

  lemma PropertyKeepsFrame(doc: Document, accepts: Relation, e: Entry, id: ObjectId, obj: Keywords, p: Place, c: Entry,
                           q: Place)
    requires FrameOk(accepts, e.frame, p) && Taken(accepts, e, p)
    requires ToProperty(doc, e, id, obj, p, c, q) && c.frame.propName != ""
    ensures FrameOk(accepts, c.frame, q)
  {
    NestedHolds(accepts, e, p);
    PropertyEntry(doc, e.frame, id, obj, c);
  }

  lemma StepKeepsFrame(doc: Document, accepts: Relation, e: Entry, id: ObjectId, p: Place, c: Entry, q: Place)
    requires e.frame.node == Node(id) && FrameOk(accepts, e.frame, p) && Taken(accepts, e, p)
    requires StepTo(doc, true, e, id, p, c, q)
    ensures FrameOk(accepts, c.frame, q)
  {
    var f, obj := e.frame, KeywordsOf(doc, id);
    ConstraintHolds(accepts, e, p);
    NestedHolds(accepts, e, p);
    if ToProperty(doc, e, id, obj, p, c, q) && c.frame.propName != "" {
      PropertyKeepsFrame(doc, accepts, e, id, obj, p, c, q);
    } else if ToMatch(doc, e, obj, p, c, q) || ToAdditional(doc, e, obj, p, c, q) {
      LoneEntry(doc, f, obj, c);
    } else if ToElement(e, obj, p, c, q) {
      ElementEntry(f, obj, c);
      ElementChained(p, q);
    } else if ToCondition(doc, e, obj, p, c, q) {
      ConditionEntry(doc, f, obj, c);
    } else if c in EnterCompositions(e, obj) {
      CompositionEntry(e, obj, c);
    }
  }

  least lemma {:induction false} StandsInduction[nat](doc: Document, accepts: Relation, loc: string, v: Value,
                                                      c: Entry, q: Place)
    requires Stands(doc, accepts, loc, v, true, c, q)
    requires accepts(Node(ROOT), v)
    ensures FrameOk(accepts, c.frame, q)
  {
    if !(c == RootEntry(loc) && q == Place(v, v, [])) {
      var e, p :| Stands#[_k - 1](doc, accepts, loc, v, true, e, p) && e.frame.node.Node? && Taken(accepts, e, p)
                  && StepTo(doc, true, e, e.frame.node.id, p, c, q);
      StandsInduction(doc, accepts, loc, v, e, p);
      StepKeepsFrame(doc, accepts, e, e.frame.node.id, p, c, q);
    }
  }

  /** The frame invariant: whatever a frame stands for by named steps in a document the root accepts, its origin
      accepts that value or the outermost array around it, and its instance accepts the object the value is a property
      of under the frame's name, or the value itself where the frame has none. */
  lemma FrameInvariant(doc: Document, accepts: Relation, loc: string, v: Value, c: Entry, q: Place)
    requires Stands(doc, accepts, loc, v, true, c, q) && accepts(Node(ROOT), v)
    ensures FrameOk(accepts, c.frame, q)
  {
    StandsInduction(doc, accepts, loc, v, c, q);
  }

  // ---- What is left of it below a property without a name ----

  /** Some value of the document v that x is inside of, maybe x itself, is accepted by s. */
  ghost predicate AcceptedAround(accepts: Relation, s: Schema, v: Value, x: Value) {
    exists y :: IsInside(x, y) && IsInside(y, v) && accepts(s, y)
  }

  ghost predicate LooseOk(accepts: Relation, v: Value, f: Frame, p: Place) {
    && IsInside(p.value, v)
    && (f.origin.Invalid? || AcceptedAround(accepts, f.origin, v, p.value))
    && (f.instance.Invalid? || AcceptedAround(accepts, f.instance, v, p.value))
  }

  lemma LooseSchemas(accepts: Relation, v: Value, e: Entry, p: Place)
    requires LooseOk(accepts, v, e.frame, p) && Taken(accepts, e, p)
    ensures AcceptedAround(accepts, Constraint(e.frame), v, p.value)
    ensures AcceptedAround(accepts, Nested(e.frame), v, p.value)
  {
    assert IsInside(p.value, p.value);
    assert AcceptedAround(accepts, e.frame.node, v, p.value);
  }

  ghost predicate SameOrPart(x: Value, z: Value) { x == z || ElementOf(x, z) || FieldOf(x, z) }

  lemma AroundPart(accepts: Relation, s: Schema, v: Value, z: Value, x: Value)
    requires AcceptedAround(accepts, s, v, z) && SameOrPart(x, z)
    ensures AcceptedAround(accepts, s, v, x)
  {
    var y :| IsInside(z, y) && IsInside(y, v) && accepts(s, y);
    assert IsInside(x, y);
  }

  lemma StepGoesInside(doc: Document, named: bool, e: Entry, id: ObjectId, p: Place, c: Entry, q: Place)
    requires StepTo(doc, named, e, id, p, c, q)
    ensures SameOrPart(q.value, p.value)
  {
    var obj := KeywordsOf(doc, id);
    if ToProperty(doc, e, id, obj, p, c, q) || ToMatch(doc, e, obj, p, c, q) || ToAdditional(doc, e, obj, p, c, q) {
      assert FieldOf(q.value, p.value);
    }
  }

  /** The schemas of a frame below are an earlier frame's constraint and instance, if not the node's own. */
  lemma StepSchemas(doc: Document, named: bool, e: Entry, id: ObjectId, p: Place, c: Entry, q: Place)
    requires e.frame.node == Node(id) && StepTo(doc, named, e, id, p, c, q)
    ensures c.frame.origin in {Invalid, Constraint(e.frame), Nested(e.frame)}
    ensures c.frame.instance in {Invalid, e.frame.instance, Nested(e.frame)}
  {
    var f, obj := e.frame, KeywordsOf(doc, id);
    if ToProperty(doc, e, id, obj, p, c, q) {
      PropertyEntry(doc, f, id, obj, c);
    } else if ToMatch(doc, e, obj, p, c, q) || ToAdditional(doc, e, obj, p, c, q) {
      LoneEntry(doc, f, obj, c);
    } else if ToElement(e, obj, p, c, q) {
      ElementEntry(f, obj, c);
    } else if ToCondition(doc, e, obj, p, c, q) {
      ConditionEntry(doc, f, obj, c);
    } else if c in EnterCompositions(e, obj) {
      CompositionEntry(e, obj, c);
    }
  }

  lemma LooseBelow(accepts: Relation, v: Value, f: Frame, p: Place, c: Frame, q: Place, constraint: Schema,
                   nested: Schema)
    requires LooseOk(accepts, v, f, p) && SameOrPart(q.value, p.value)
    requires AcceptedAround(accepts, constraint, v, p.value) && AcceptedAround(accepts, nested, v, p.value)
    requires c.origin in {Invalid, constraint, nested} && c.instance in {Invalid, f.instance, nested}
    ensures LooseOk(accepts, v, c, q)
  {
    AroundPart(accepts, constraint, v, p.value, q.value);
    AroundPart(accepts, nested, v, p.value, q.value);
    if !f.instance.Invalid? { AroundPart(accepts, f.instance, v, p.value, q.value); }
  }

  lemma StepKeepsLoose(doc: Document, accepts: Relation, v: Value, named: bool, e: Entry, id: ObjectId, p: Place,
                       c: Entry, q: Place)
    requires e.frame.node == Node(id) && LooseOk(accepts, v, e.frame, p) && Taken(accepts, e, p)
    requires StepTo(doc, named, e, id, p, c, q)
    ensures LooseOk(accepts, v, c.frame, q)
  {
    StepSchemas(doc, named, e, id, p, c, q);
    StepGoesInside(doc, named, e, id, p, c, q);
    LooseSchemas(accepts, v, e, p);
    LooseBelow(accepts, v, e.frame, p, c.frame, q, Constraint(e.frame), Nested(e.frame));
  }

  least lemma {:induction false} LooseInduction[nat](doc: Document, accepts: Relation, loc: string, v: Value,
                                                     named: bool, c: Entry, q: Place)
    requires Stands(doc, accepts, loc, v, named, c, q)
    requires accepts(Node(ROOT), v)
    ensures LooseOk(accepts, v, c.frame, q)
  {
    if !(c == RootEntry(loc) && q == Place(v, v, [])) {
      var e, p :| Stands#[_k - 1](doc, accepts, loc, v, named, e, p) && e.frame.node.Node? && Taken(accepts, e, p)
                  && StepTo(doc, named, e, e.frame.node.id, p, c, q);
      LooseInduction(doc, accepts, loc, v, named, e, p);
      StepKeepsLoose(doc, accepts, v, named, e, e.frame.node.id, p, c, q);
    } else {
      assert IsInside(v, v);
      assert AcceptedAround(accepts, Node(ROOT), v, v);
    }
  }

  /** What holds of every frame, whatever the names on the way: its origin and its instance, where it has one, each
      accept some value of the document around the one the frame stands for. */
  lemma LooseInvariant(doc: Document, accepts: Relation, loc: string, v: Value, named: bool, c: Entry, q: Place)
    requires Stands(doc, accepts, loc, v, named, c, q) && accepts(Node(ROOT), v)
    ensures LooseOk(accepts, v, c.frame, q)
  {
    LooseInduction(doc, accepts, loc, v, named, c, q);
  }

  // ---- Which children are taken ----

  /** An object the program builds accepts what all the schemas it puts under allOf accept. */
  ghost predicate StandInsAccept(doc: Document, accepts: Relation) {
    forall owner, name, x :: AllAccept(accepts, Branches(KeywordsOf(doc, Undeclared(owner, name)), "allOf"), x)
                             ==> accepts(Node(Undeclared(owner, name)), x)
  }

  /** The patterns that match the name hold schemas. */
  ghost predicate PatternsAreSchemas(doc: Document, obj: Keywords, name: string) {
    forall k | k in PatternSchemas(doc, obj) && doc.matches(k, name) :: !AsSchema(PatternSchemas(doc, obj)[k]).Invalid?
  }

  lemma CandidatesAccept(doc: Document, accepts: Relation, obj: Keywords, name: string, x: Value, j: Json)
    requires AdmitsField(doc, accepts, obj, name, x) && j in UndeclaredCandidates(doc, obj, name)
    ensures !AsSchema(j).Invalid? && accepts(AsSchema(j), x)
  {
    var patterns := PatternSchemas(doc, obj);
    MatchedExactly(doc, patterns, Sorted(patterns.Keys), name, j);
    var k :| k in patterns && doc.matches(k, name) && patterns[k] == j;
    assert Holds(doc, obj, "patternProperties", k, j) && AcceptsIfSchema(accepts, j, x);
  }

  lemma NoCandidates(doc: Document, obj: Keywords, name: string)
    requires UndeclaredCandidates(doc, obj, name) == [] && PatternsAreSchemas(doc, obj, name)
    ensures !PatternMatches(doc, obj, name)
  {
    var patterns := PatternSchemas(doc, obj);
    forall k | k in patterns ensures !doc.matches(k, name) {
      MatchedExactly(doc, patterns, Sorted(patterns.Keys), name, patterns[k]);
    }
  }

  lemma {:induction false} SchemasAccept(accepts: Relation, elems: seq<Json>, x: Value)
    requires forall j | j in elems :: !AsSchema(j).Invalid? && accepts(AsSchema(j), x)
    ensures AllAccept(accepts, Schemas(elems), x)
  {
    if elems != [] {
      assert elems[0] in elems;
      SchemasAccept(accepts, elems[1..], x);
    }
  }

  /** What an accepted object holds under a required, undeclared name is accepted by the schema that is entered
      for the name. */
  lemma RequiredAccepts(doc: Document, accepts: Relation, i: nat, name: string, v: Value)
    requires IsAcceptance(doc, accepts) && StandInsAccept(doc, accepts)
    requires accepts(Node(At(i)), v) && HasProperty(v, name)
    requires !PropertyDeclared(doc, HeapObject(doc, i), name) && PatternsAreSchemas(doc, HeapObject(doc, i), name)
    ensures accepts(UndeclaredSchema(doc, i, name), v.fields[name])
  {
    var obj, x := HeapObject(doc, i), v.fields[name];
    AcceptedField(doc, accepts, At(i), v, name);
    var matched := UndeclaredCandidates(doc, obj, name);
    forall j | j in matched ensures !AsSchema(j).Invalid? && accepts(AsSchema(j), x) {
      CandidatesAccept(doc, accepts, obj, name, x, j);
    }
    if matched == [] {
      NoCandidates(doc, obj, name);
    } else {
      assert matched[0] in matched;
    }
    if |matched| >= 2 {
      SchemasAccept(accepts, matched, x);
      assert AllAccept(accepts, Branches(KeywordsOf(doc, Undeclared(i, name)), "allOf"), x);
    } else {
      assert matched == [] ==> KeywordsOf(doc, Undeclared(i, name)) == map[];
      assert matched == [] ==> AllAccept(accepts, Branches(KeywordsOf(doc, Undeclared(i, name)), "allOf"), x);
    }
  }

  lemma DeclaredAccepts(doc: Document, accepts: Relation, obj: Keywords, name: string, x: Value)
    requires AdmitsField(doc, accepts, obj, name, x) && PropertyDeclared(doc, obj, name)
    requires !AsSchema(PropertySchemas(doc, obj)[name]).Invalid?
    ensures accepts(AsSchema(PropertySchemas(doc, obj)[name]), x)
  {
    var v := PropertySchemas(doc, obj)[name];
    assert Holds(doc, obj, "properties", name, v) && AcceptsIfSchema(accepts, v, x);
  }

  /** The child frame of a declared property is taken; so is that of a required one. */
  lemma PropertyTaken(doc: Document, accepts: Relation, e: Entry, id: ObjectId, p: Place, c: Entry, q: Place)
    requires IsAcceptance(doc, accepts) && StandInsAccept(doc, accepts)
    requires e.frame.node == Node(id) && Taken(accepts, e, p) && ToProperty(doc, e, id, KeywordsOf(doc, id), p, c, q)
    requires PatternsAreSchemas(doc, KeywordsOf(doc, id), c.frame.propName)
    ensures Taken(accepts, c, q)
  {
    var f, obj, name := e.frame, KeywordsOf(doc, id), c.frame.propName;
    AcceptedField(doc, accepts, id, p.value, name);
    if c in EnterDeclared(doc, f, obj) {
      DeclaredNode(doc, f, obj, c);
      DeclaredAccepts(doc, accepts, obj, name, p.value.fields[name]);
    } else {
      UndeclaredNode(doc, f, id, obj, c);
      RequiredAccepts(doc, accepts, id.index, name, p.value);
    }
  }

  lemma DeclaredNode(doc: Document, f: Frame, obj: Keywords, c: Entry)
    requires c in EnterDeclared(doc, f, obj)
    ensures var declared := PropertySchemas(doc, obj);
            c.frame.propName in declared && c.frame.node == AsSchema(declared[c.frame.propName])
                && !c.frame.node.Invalid?
  {
    var declared := PropertySchemas(doc, obj);
    MapEntry(declared, Sorted(declared.Keys), f.loc + ".properties.", Invalid, Nested(f), f.depth + 1, true, c);
    assert Descends(c, f.depth + 1, false);
  }

  lemma UndeclaredNode(doc: Document, f: Frame, id: ObjectId, obj: Keywords, c: Entry)
    requires c in EnterUndeclared(doc, f, id, RequiredOnly(doc, obj))
    ensures id.At? && c.frame.node == UndeclaredSchema(doc, id.index, c.frame.propName)
    ensures !PropertyDeclared(doc, obj, c.frame.propName)
  {
    UndeclaredEntry(doc, f, id, RequiredOnly(doc, obj), c);
  }
}
