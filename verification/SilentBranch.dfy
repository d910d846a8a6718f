/** A schema where the review is silent about an unconstrained string. A property has a branch with a cue, and its
    schema allows no properties at all, which binds only objects. Asked about a property of the property's own name
    inside the value, that schema forbids it, and the branch is taken to be constrained. */
module SilentBranch {
  import opened Text
  import opened JsonDocument
  import opened SchemaKeywords
  import opened SchemaWalk
  import opened SchemaGraph
  import opened SchemaWalkers
  import opened SchemaReview
  import opened FramePlaces
  import opened Silence
  import opened Acceptance
  import opened ConstraintSearch

  // ---- How a frame gets into the walk ----

  lemma {:induction false} MapHas(schemas: Keywords, names: seq<string>, base: string, origin: Schema,
                                  instance: Schema, depth: nat, named: bool, k: string)
    requires forall name | name in names :: name in schemas
    requires k in names && !AsSchema(schemas[k]).Invalid?
    ensures Entry(Child(AsSchema(schemas[k]), origin, instance, base + k, if named then k else "", depth), named)
            in EnterMap(schemas, names, base, origin, instance, depth, named)
  {
    if names[0] != k {
      MapHas(schemas, names[1..], base, origin, instance, depth, named, k);
    }
  }

  lemma DeclaredIsEntered(doc: Document, e: Entry, id: ObjectId, name: string)
    requires e.frame.node == Node(id)
    requires var declared := PropertySchemas(doc, KeywordsOf(doc, id));
             name in declared && !AsSchema(declared[name]).Invalid?
    ensures PropertyEntryOf(doc, e, KeywordsOf(doc, id), name) in Applicators(doc, e)
  {
    var obj := KeywordsOf(doc, id);
    DeclaredEntry(doc, e, obj, name);
    SectionsAreEntered(doc, e, id, obj, PropertyEntryOf(doc, e, obj, name));
  }

  lemma DeclaredHas(doc: Document, f: Frame, obj: Keywords, declared: Keywords, name: string)
    requires declared == PropertySchemas(doc, obj) && name in declared && !AsSchema(declared[name]).Invalid?
    ensures Entry(Child(AsSchema(declared[name]), Invalid, Nested(f), f.loc + ".properties." + name, name,
                        f.depth + 1), true) in EnterDeclared(doc, f, obj)
  {
    MapHas(declared, Sorted(declared.Keys), f.loc + ".properties.", Invalid, Nested(f), f.depth + 1, true, name);
  }

  lemma DeclaredEntry(doc: Document, e: Entry, obj: Keywords, name: string)
    requires name in PropertySchemas(doc, obj) && !AsSchema(PropertySchemas(doc, obj)[name]).Invalid?
    ensures PropertyEntryOf(doc, e, obj, name) in EnterDeclared(doc, e.frame, obj)
  {
    DeclaredHas(doc, e.frame, obj, PropertySchemas(doc, obj), name);
  }

  /** The entry of a declared property. */
  function PropertyEntryOf(doc: Document, e: Entry, obj: Keywords, name: string): Entry {
    var declared := PropertySchemas(doc, obj);
    Entry(Child(if name in declared then AsSchema(declared[name]) else Invalid, Invalid, Nested(e.frame),
                e.frame.loc + ".properties." + name, name, e.frame.depth + 1), true)
  }

  lemma SectionsAreEntered(doc: Document, e: Entry, id: ObjectId, obj: Keywords, c: Entry)
    requires e.frame.node == Node(id) && obj == KeywordsOf(doc, id)
    requires c in EnterDeclared(doc, e.frame, obj) || c in EnterComposition(e, obj, "anyOf")
    ensures c in Applicators(doc, e)
  {
    if c in EnterDeclared(doc, e.frame, obj) {
      assert c in EnterProperties(doc, e.frame, id, obj, RequiredOnly(doc, obj));
    } else {
      assert c in EnterCompositions(e, obj);
      assert c in EnterRest(doc, e, obj);
    }
  }

  lemma {:induction false} WalkAllHas(g: Graph, entries: seq<Entry>, c: Entry, active: set<ObjectId>,
                                      refs: set<string>, a: Attempt)
    requires Sound(g) && c in entries && a in Walk(g, c, active, refs)
    ensures a in WalkAll(g, entries, active, refs)
  {
    if c != entries[0] {
      WalkAllHas(g, entries[1..], c, active, refs, a);
    }
  }

  /** What the walk from a child of an object attempts, the walk from the object attempts. */
  lemma WalkGoesOn(g: Graph, e: Entry, id: ObjectId, c: Entry, active: set<ObjectId>, refs: set<string>, a: Attempt)
    requires Sound(g) && e.frame.node == Node(id) && id !in active
    requires c in g.children(e) && a in Walk(g, c, active + {id}, refs)
    ensures a in Walk(g, e, active, refs)
  {
    LessRoom(g, e, id, active);
    WalkAllHas(g, g.children(e), c, active + {id}, refs, a);
    assert a in Below(g, e, id, active + {id}, refs);
  }

  lemma WalkStartsAt(g: Graph, e: Entry, id: ObjectId, active: set<ObjectId>, refs: set<string>)
    requires Sound(g) && e.frame.node == Node(id) && id !in active
    ensures Attempt(e, true) in Walk(g, e, active, refs)
  {
    assert Walk(g, e, active, refs)[0] == Attempt(e, true);
  }

  lemma {:induction false} EnteredMember(t: seq<Attempt>, e: Entry)
    requires Attempt(e, true) in t
    ensures e in Entered(t)
  {
    var last := t[|t| - 1];
    assert t == t[..|t| - 1] + [last];
    if Attempt(e, true) in t[..|t| - 1] {
      EnteredMember(t[..|t| - 1], e);
    }
  }

  // ---- The schema ----

  const LOC := "inputSchema"

  /** {"type": "object", "properties": {"target":
        {"anyOf": [{"type": "string", "format": "uri"}], "additionalProperties": false}}} */
  const EXAMPLE := Document(
    [map["type" := String("object"), "properties" := Object(1)],
     map["target" := Object(2)],
     map["anyOf" := Array([Object(3)]), "additionalProperties" := Bool(false)],
     map["type" := String("string"), "format" := String("uri")]],
    (pattern, name) => false)

  const TARGET: Entry :=
    Entry(Child(Node(At(2)), Invalid, Node(ROOT), LOC + ".properties." + "target", "target", 1), true)

  const BRANCH: Entry :=
    Entry(Frame(Node(At(3)), Node(At(2)), Node(At(2)),
                LOC + ".properties." + "target" + "." + "anyOf" + "[" + Decimal(0) + "]", "",
                2, true, LOC + ".properties." + "target", "target"), false)

  lemma TargetIsEntered()
    ensures TARGET in Applicators(EXAMPLE, RootEntry(LOC))
  {
    var obj := KeywordsOf(EXAMPLE, ROOT);
    assert PropertySchemas(EXAMPLE, obj) == EXAMPLE.heap[1];
    DeclaredIsEntered(EXAMPLE, RootEntry(LOC), ROOT, "target");
    assert PropertyEntryOf(EXAMPLE, RootEntry(LOC), obj, "target") == TARGET;
  }

  lemma BranchIsEntered()
    ensures BRANCH in Applicators(EXAMPLE, TARGET)
  {
    var obj := KeywordsOf(EXAMPLE, At(2));
    assert ListOf(obj, "anyOf") == [Object(3)];
    assert BRANCH in EnterComposition(TARGET, obj, "anyOf");
    SectionsAreEntered(EXAMPLE, TARGET, At(2), obj, BRANCH);
  }

  lemma BranchIsWalked(g: Graph, root: Entry)
    requires Sound(g) && root.frame.node == Node(ROOT) && TARGET in g.children(root) && BRANCH in g.children(TARGET)
    ensures Attempt(BRANCH, true) in Walk(g, root, {}, {})
  {
    WalkStartsAt(g, BRANCH, At(3), {ROOT} + {At(2)}, {});
    WalkGoesOn(g, TARGET, At(2), BRANCH, {ROOT}, {}, Attempt(BRANCH, true));
    assert {} + {ROOT} == {ROOT};
    WalkGoesOn(g, root, ROOT, TARGET, {}, {}, Attempt(BRANCH, true));
  }

  lemma BranchIsReported()
    ensures BRANCH in Entered(FullWalk(EXAMPLE, LOC))
  {
    GraphDescribes(EXAMPLE);
    TargetIsEntered();
    BranchIsEntered();
    ChildrenOf(EXAMPLE, GraphOf(EXAMPLE), RootEntry(LOC));
    ChildrenOf(EXAMPLE, GraphOf(EXAMPLE), TARGET);
    BranchIsWalked(GraphOf(EXAMPLE), RootEntry(LOC));
    EnteredMember(FullWalk(EXAMPLE, LOC), BRANCH);
  }

  // ---- What it accepts ----

  const TEXT: Value := VString("http://anywhere")
  const ARGUMENTS: Value := VObject(map["target" := TEXT])

  function ExampleAccepts(): Relation {
    (s, v) => (s == Node(At(0)) && v == ARGUMENTS) || (s in {Node(At(2)), Node(At(3))} && v == TEXT)
  }

  lemma ExampleIsAcceptance()
    ensures IsAcceptance(EXAMPLE, ExampleAccepts())
  {
    var accepts := ExampleAccepts();
    forall s, v | accepts(s, v) ensures Admits(EXAMPLE, accepts, s, v) {
      if s == Node(At(0)) {
        RootAdmits();
      } else if s == Node(At(2)) {
        TargetAdmits();
      } else {
        BranchAdmits();
      }
    }
  }

  /** What an object without allOf, oneOf and $ref asks of a value that is no array. */
  lemma NodeAdmits(doc: Document, accepts: Relation, id: ObjectId, obj: Keywords, v: Value)
    requires obj == KeywordsOf(doc, id) && !v.VArray?
    requires "allOf" !in obj && "oneOf" !in obj && "$ref" !in obj
    requires "type" in obj ==> exists t :: NamesType(obj, t) && HasType(v, t)
    requires "anyOf" in obj ==> exists b :: Lists(obj, "anyOf", b) && accepts(b, v)
    requires v.VObject? ==> AdmitsObject(doc, accepts, obj, v)
    ensures Admits(doc, accepts, Node(id), v)
  {
  }

  lemma RootAdmits()
    ensures Admits(EXAMPLE, ExampleAccepts(), Node(At(0)), ARGUMENTS)
  {
    var obj := KeywordsOf(EXAMPLE, At(0));
    assert obj == EXAMPLE.heap[0];
    assert NamesType(obj, "object") && HasType(ARGUMENTS, "object");
    assert AdmitsField(EXAMPLE, ExampleAccepts(), obj, "target", TEXT);
    NodeAdmits(EXAMPLE, ExampleAccepts(), At(0), obj, ARGUMENTS);
  }

  lemma TargetAdmits()
    ensures Admits(EXAMPLE, ExampleAccepts(), Node(At(2)), TEXT)
  {
    var obj := KeywordsOf(EXAMPLE, At(2));
    assert obj == EXAMPLE.heap[2];
    assert Lists(obj, "anyOf", Node(At(3))) && ExampleAccepts()(Node(At(3)), TEXT);
    NodeAdmits(EXAMPLE, ExampleAccepts(), At(2), obj, TEXT);
  }

  lemma BranchAdmits()
    ensures Admits(EXAMPLE, ExampleAccepts(), Node(At(3)), TEXT)
  {
    var obj := KeywordsOf(EXAMPLE, At(3));
    assert obj == EXAMPLE.heap[3];
    assert NamesType(obj, "string") && HasType(TEXT, "string");
    NodeAdmits(EXAMPLE, ExampleAccepts(), At(3), obj, TEXT);
  }

  lemma NoEvidence(id: ObjectId)
    requires id == At(2) || id == At(3)
    ensures !Direct(KeywordsOf(EXAMPLE, id), Url)
  {
    var obj := KeywordsOf(EXAMPLE, id);
    assert !HasEnumOrConst(obj);
    assert forall k | k in URL_KEYWORDS :: k !in obj;
  }

  lemma TextIsNotCovered()
    ensures !Covered(EXAMPLE, ExampleAccepts(), Url, TEXT)
  {
    NoEvidence(At(2));
    NoEvidence(At(3));
  }

  // ---- The review and what it misses ----

  /** The cue of a schema with format uri. */
  function FormatCue(): Cue {
    (kind, name, keywords) => kind == Url && Get(keywords, "format") == String("uri")
  }

  /** The place of the text: the property target of the arguments. */
  const SPOT := Place(TEXT, ARGUMENTS, [])

  lemma BranchStandsForText()
    ensures Stands(EXAMPLE, ExampleAccepts(), LOC, ARGUMENTS, true, BRANCH, SPOT)
  {
    var accepts, root := ExampleAccepts(), RootEntry(LOC);
    var whole := Place(ARGUMENTS, ARGUMENTS, []);
    RootStepsToTarget();
    assert Stands(EXAMPLE, accepts, LOC, ARGUMENTS, true, root, whole) && Taken(accepts, root, whole);
    StandsOn(EXAMPLE, accepts, LOC, ARGUMENTS, true, root, ROOT, whole, TARGET, SPOT);
    TargetStepsToBranch();
    StandsOn(EXAMPLE, accepts, LOC, ARGUMENTS, true, TARGET, At(2), SPOT, BRANCH, SPOT);
  }

  lemma RootStepsToTarget()
    ensures StepTo(EXAMPLE, true, RootEntry(LOC), ROOT, Place(ARGUMENTS, ARGUMENTS, []), TARGET, SPOT)
  {
    var obj, f := KeywordsOf(EXAMPLE, ROOT), RootEntry(LOC).frame;
    var declared := PropertySchemas(EXAMPLE, obj);
    assert declared == EXAMPLE.heap[1];
    MapHas(declared, Sorted(declared.Keys), f.loc + ".properties.", Invalid, Nested(f), f.depth + 1, true, "target");
    assert ToProperty(EXAMPLE, RootEntry(LOC), ROOT, obj, Place(ARGUMENTS, ARGUMENTS, []), TARGET, SPOT);
  }

  lemma TargetStepsToBranch()
    ensures StepTo(EXAMPLE, true, TARGET, At(2), SPOT, BRANCH, SPOT)
  {
    var obj := KeywordsOf(EXAMPLE, At(2));
    assert ListOf(obj, "anyOf") == [Object(3)];
    assert BRANCH in EnterComposition(TARGET, obj, "anyOf");
    assert ToSame(EXAMPLE, TARGET, obj, SPOT, BRANCH, SPOT);
  }

  lemma TargetForbidsTarget()
    ensures Forbidden(EXAMPLE, Node(At(2)), "target")
  {
    var obj := KeywordsOf(EXAMPLE, At(2));
    assert PropertySchemas(EXAMPLE, obj) == map[] && PatternSchemas(EXAMPLE, obj) == map[];
  }

  /** The branch is reported with a cue, the answer about it is "constrained", so that no hypothesis at all settles
      the question; yet the schema accepts arguments in which the text the branch stands for, and accepts, is covered
      by nothing. */
  lemma SilenceHidesText()
    ensures var r := BranchReport(BRANCH.frame);
            && BRANCH in Entered(FullWalk(EXAMPLE, LOC)) && r in ReportsOf(BRANCH) && Cued(EXAMPLE, FormatCue(), Url, r)
            && Constrained(EXAMPLE, r.node, r.origin, r.instance, r.propName, Url)
            && Settled(EXAMPLE, FormatCue(), {}, r, Url)
    ensures var accepts := ExampleAccepts();
            && IsAcceptance(EXAMPLE, accepts) && accepts(Node(ROOT), ARGUMENTS)
            && Stands(EXAMPLE, accepts, LOC, ARGUMENTS, true, BRANCH, SPOT) && Taken(accepts, BRANCH, SPOT)
            && !Covered(EXAMPLE, accepts, Url, SPOT.value)
  {
    BranchIsReported();
    BranchIsConstrained();
    ExampleIsAcceptance();
    BranchStandsForText();
    TextIsNotCovered();
  }

  lemma BranchIsConstrained()
    ensures var r := BranchReport(BRANCH.frame);
            && Cued(EXAMPLE, FormatCue(), Url, r)
            && Constrained(EXAMPLE, r.node, r.origin, r.instance, r.propName, Url)
            && Settled(EXAMPLE, FormatCue(), {}, r, Url)
  {
    TargetForbidsTarget();
    var keywords := NodeKeywords(EXAMPLE, Node(At(3)));
    assert keywords == EXAMPLE.heap[3] && Get(keywords, "format") == String("uri");
    assert AsksInstance(EXAMPLE, Node(At(2)), "target");
  }
}
