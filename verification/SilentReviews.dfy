/** The whole review of the two schemas with a silent, unconstrained string: evaluator, memo and guards included, it
    raises no hypothesis at all. */
module SilentReviews {
  import opened Text
  import opened JsonDocument
  import opened SchemaKeywords
  import opened SchemaWalk
  import opened SchemaGraph
  import opened SchemaWalkers
  import opened SchemaReview
  import opened FramePlaces
  import opened Silence
  import opened SilentBranch
  import opened SilentNameless
  import opened SchemaMeasure
  import opened ConstraintSearch

  // ---- What a walk reports ----

  lemma {:induction false} EnteredAmong(t: seq<Attempt>, region: iset<Entry>)
    requires forall a | a in t :: a.entry in region
    ensures forall e | e in Entered(t) :: e in region
  {
    if t != [] {
      EnteredAmong(t[..|t| - 1], region);
    }
  }

  lemma {:induction false} ReportsAmong(entries: seq<Entry>, region: iset<Entry>)
    requires forall e | e in entries :: e in region
    ensures forall r | r in Reports(entries) :: exists e | e in region :: r in ReportsOf(e)
  {
    if entries != [] {
      ReportsAmong(entries[..|entries| - 1], region);
    }
  }

  /** Under what an entry below an object is entered. */
  lemma ApplicatorCases(doc: Document, e: Entry, id: ObjectId, obj: Keywords, c: Entry)
    requires e.frame.node == Node(id) && obj == KeywordsOf(doc, id) && c in Applicators(doc, e)
    ensures c in EnterDeclared(doc, e.frame, obj) || c in EnterUndeclared(doc, e.frame, id, RequiredOnly(doc, obj))
         || c in EnterPatterns(doc, e.frame, obj) || c in EnterAdditional(e.frame, obj)
         || c in EnterItems(e.frame, obj) || c in EnterCompositions(e, obj) || c in EnterConditionals(doc, e.frame, obj)
  {
  }

  /** Only properties, anyOf and additionalProperties among the keywords that say something of subschemas. */
  ghost predicate Plain(obj: Keywords) {
    forall k | k in obj :: k in {"type", "format", "properties", "anyOf", "additionalProperties"}
  }

  lemma PlainCases(doc: Document, e: Entry, id: ObjectId, obj: Keywords, c: Entry)
    requires e.frame.node == Node(id) && obj == KeywordsOf(doc, id) && c in Applicators(doc, e) && Plain(obj)
    ensures ReferenceOf(doc, id).None?
    ensures c in EnterDeclared(doc, e.frame, obj) || c in EnterAdditional(e.frame, obj)
         || c in EnterComposition(e, obj, "anyOf")
  {
    ApplicatorCases(doc, e, id, obj, c);
    NoOtherProperties(doc, e.frame, id, obj);
    NoItems(e.frame, obj);
    NoOtherBranches(e, obj);
    NoConditions(doc, e.frame, obj);
  }

  lemma NoOtherProperties(doc: Document, f: Frame, id: ObjectId, obj: Keywords)
    requires Plain(obj)
    ensures EnterUndeclared(doc, f, id, RequiredOnly(doc, obj)) == [] && EnterPatterns(doc, f, obj) == []
  {
    assert "required" !in obj && "patternProperties" !in obj;
    NothingRequired(doc, obj);
    NoPatterns(doc, f, obj);
  }

  lemma NothingRequired(doc: Document, obj: Keywords)
    requires "required" !in obj
    ensures RequiredOnly(doc, obj) == []
  {
    assert RequiredNames(obj) == [];
    assert (set name | name in RequiredNames(obj)) - PropertySchemas(doc, obj).Keys == {};
  }

  lemma NoPatterns(doc: Document, f: Frame, obj: Keywords)
    requires "patternProperties" !in obj
    ensures EnterPatterns(doc, f, obj) == []
  {
    var patterns := PatternSchemas(doc, obj);
    assert patterns == map[] && Sorted(patterns.Keys) == [];
  }

  lemma NoItems(f: Frame, obj: Keywords)
    requires Plain(obj)
    ensures EnterItems(f, obj) == []
  {
    assert "items" !in obj && "prefixItems" !in obj && "additionalItems" !in obj;
    assert Get(obj, "items") == Null && ListOf(obj, "prefixItems") == [];
  }

  lemma NoOtherBranches(e: Entry, obj: Keywords)
    requires Plain(obj)
    ensures EnterComposition(e, obj, "allOf") == [] && EnterComposition(e, obj, "oneOf") == []
  {
    assert "allOf" !in obj && "oneOf" !in obj;
  }

  lemma NoConditions(doc: Document, f: Frame, obj: Keywords)
    requires Plain(obj)
    ensures EnterConditionals(doc, f, obj) == []
  {
    assert "dependentSchemas" !in obj && "then" !in obj && "else" !in obj && "if" !in obj;
    assert AsObject(doc, Get(obj, "dependentSchemas")) == map[];
  }

  lemma DeclaredCases(doc: Document, e: Entry, obj: Keywords, c: Entry)
    requires c in EnterDeclared(doc, e.frame, obj)
    ensures exists name | name in PropertySchemas(doc, obj) :: c == PropertyEntryOf(doc, e, obj, name)
  {
    var declared, f := PropertySchemas(doc, obj), e.frame;
    MapEntry(declared, Sorted(declared.Keys), f.loc + ".properties.", Invalid, Nested(f), f.depth + 1, true, c);
    var name :| name in Sorted(declared.Keys)
                && c == Entry(Child(AsSchema(declared[name]), Invalid, Nested(f), f.loc + ".properties." + name, name,
                                    f.depth + 1), true);
    assert c == PropertyEntryOf(doc, e, obj, name);
  }

  /** What the walk enters below an object with only such keywords. */
  ghost predicate ChildOf(doc: Document, e: Entry, obj: Keywords, c: Entry) {
    && !c.frame.node.Invalid?
    && (|| c.frame.node == AsSchema(Get(obj, "additionalProperties"))
        || (exists name | name in PropertySchemas(doc, obj) :: c == PropertyEntryOf(doc, e, obj, name))
        || c in EnterComposition(e, obj, "anyOf"))
  }

  lemma PlainChild(doc: Document, e: Entry, id: ObjectId, obj: Keywords, c: Entry)
    requires e.frame.node == Node(id) && obj == KeywordsOf(doc, id) && c in Applicators(doc, e) && Plain(obj)
    ensures ChildOf(doc, e, obj, c)
  {
    PlainCases(doc, e, id, obj, c);
    assert Descends(c, e.frame.depth + 1, !IsBuilt(e.frame.node));
    if c in EnterDeclared(doc, e.frame, obj) { DeclaredCases(doc, e, obj, c); }
  }

  /** A set of entries that the walk of a document with only such keywords does not leave. */
  ghost predicate Confines(doc: Document, region: iset<Entry>) {
    forall e | e in region && e.frame.node.Node? ::
      var obj := KeywordsOf(doc, e.frame.node.id);
      Plain(obj) && forall c | ChildOf(doc, e, obj, c) :: c in region
  }

  lemma ReportedAmong(doc: Document, loc: string, region: iset<Entry>)
    requires RootEntry(loc) in region && Confines(doc, region)
    ensures forall r | r in Reports(Entered(FullWalk(doc, loc))) :: exists e | e in region :: r in ReportsOf(e)
  {
    var g := GraphOf(doc);
    GraphDescribes(doc);
    forall e | e in region && e.frame.node.Node?
      ensures g.ref(e.frame.node.id).None? && forall c | c in g.children(e) :: c in region
    {
      ChildrenOf(doc, g, e);
      NoReference(doc, e.frame.node.id);
      forall c | c in Applicators(doc, e) ensures c in region {
        PlainChild(doc, e, e.frame.node.id, KeywordsOf(doc, e.frame.node.id), c);
      }
    }
    WalkIsEnclosed(g, region, RootEntry(loc), {}, {});
    EnteredAmong(FullWalk(doc, loc), region);
    ReportsAmong(Entered(FullWalk(doc, loc)), region);
  }

  lemma NoReference(doc: Document, id: ObjectId)
    requires Plain(KeywordsOf(doc, id))
    ensures ReferenceOf(doc, id).None?
  {
  }

  // ---- The branch ----

  /** The entries of the walk: no schema is Never but that of additional properties. */
  ghost predicate InExample(e: Entry) {
    || e.frame.node.Never?
    || (e.frame.node == Node(At(0)) && !e.visit && !e.frame.inspect)
    || (e.frame.node == Node(At(2)) && e.visit && !e.frame.inspect && e.frame.loc != "" && e.frame.propName == "target")
    || (e.frame.node == Node(At(3)) && !e.visit && e.frame.cueLoc != "" && e.frame.cueName == "target"
        && e.frame.instance == Node(At(2)))
  }

  lemma BelowRoot(doc: Document, e: Entry, obj: Keywords, c: Entry)
    requires PropertySchemas(doc, obj) == map["target" := Object(2)] && "additionalProperties" !in obj
    requires "anyOf" !in obj && ChildOf(doc, e, obj, c)
    ensures InExample(c)
  {
    assert ListOf(obj, "anyOf") == [];
  }

  lemma BelowTarget(doc: Document, e: Entry, obj: Keywords, c: Entry)
    requires e.frame.node == Node(At(2)) && InExample(e) && ChildOf(doc, e, obj, c)
    requires PropertySchemas(doc, obj) == map[] && Get(obj, "additionalProperties") == Bool(false)
    requires ListOf(obj, "anyOf") == [Object(3)]
    ensures InExample(c)
  {
    if c in EnterComposition(e, obj, "anyOf") {
      BranchEntryOf(e, obj, "anyOf", c);
      var f := e.frame;
      var common := Frame(Invalid, Constraint(f), Nested(f), "", "", f.depth + 1, true, f.loc, f.propName);
      var elems := ListOf(obj, "anyOf");
      assert EnterComposition(e, obj, "anyOf") == EnterBranches(elems, 0, f.loc + "." + "anyOf", common);
      BranchEntry(elems, 0, f.loc + "." + "anyOf", common, c);
      BranchesEnter(elems, 0, f.loc + "." + "anyOf", common, c.frame.node);
      assert elems[0..] == [Object(3)];
    }
  }

  lemma BelowBranch(doc: Document, e: Entry, obj: Keywords, c: Entry)
    requires PropertySchemas(doc, obj) == map[] && "additionalProperties" !in obj && "anyOf" !in obj
    ensures !ChildOf(doc, e, obj, c)
  {
    assert ListOf(obj, "anyOf") == [];
  }

  lemma ExampleObjects(doc: Document)
    requires doc == EXAMPLE
    ensures var obj := KeywordsOf(doc, At(0));
            && Plain(obj) && PropertySchemas(doc, obj) == map["target" := Object(2)]
            && "additionalProperties" !in obj && "anyOf" !in obj && "format" !in obj
    ensures var obj := KeywordsOf(doc, At(2));
            && Plain(obj) && PropertySchemas(doc, obj) == map[] && PatternSchemas(doc, obj) == map[]
            && Get(obj, "additionalProperties") == Bool(false) && ListOf(obj, "anyOf") == [Object(3)]
            && "format" !in obj
    ensures var obj := KeywordsOf(doc, At(3));
            && Plain(obj) && PropertySchemas(doc, obj) == map[] && "additionalProperties" !in obj && "anyOf" !in obj
  {
    assert PropertySchemas(doc, KeywordsOf(doc, At(0))) == EXAMPLE.heap[1];
  }

  lemma ExampleConfined(doc: Document, e: Entry, c: Entry)
    requires doc == EXAMPLE && InExample(e) && e.frame.node.Node?
    ensures Plain(KeywordsOf(doc, e.frame.node.id))
    ensures ChildOf(doc, e, KeywordsOf(doc, e.frame.node.id), c) ==> InExample(c)
  {
    var obj := KeywordsOf(doc, e.frame.node.id);
    ExampleObjects(doc);
    if ChildOf(doc, e, obj, c) {
      if e.frame.node == Node(At(0)) {
        BelowRoot(doc, e, obj, c);
      } else if e.frame.node == Node(At(2)) {
        BelowTarget(doc, e, obj, c);
      } else {
        BelowBranch(doc, e, obj, c);
      }
    }
  }

  /** The only report with a cue is the branch's, whose instance itself forbids the name. */
  lemma ExampleCue(doc: Document, e: Entry, r: Report, kind: Kind)
    requires doc == EXAMPLE && InExample(e) && r in ReportsOf(e) && Cued(doc, FormatCue(), kind, r)
    ensures SurelySilent(doc, r.instance, r.propName)
  {
    ExampleObjects(doc);
  }

  /** Whatever the guards do on the way, the review of the schema with the silent branch ends without a hypothesis. */
  lemma ExampleReviewIsSilent(hypotheses: set<(Kind, string)>, guarded: set<Question>)
    requires Grounded(EXAMPLE, FormatCue(), hypotheses, Reports(Entered(FullWalk(EXAMPLE, LOC))), guarded)
    ensures hypotheses == {}
  {
    var doc, visits, region := EXAMPLE, Reports(Entered(FullWalk(EXAMPLE, LOC))), iset e | InExample(e);
    forall e | e in region && e.frame.node.Node?
      ensures var obj := KeywordsOf(doc, e.frame.node.id);
              Plain(obj) && forall c | ChildOf(doc, e, obj, c) :: c in region
    {
      forall c ensures Plain(KeywordsOf(doc, e.frame.node.id))
               ensures ChildOf(doc, e, KeywordsOf(doc, e.frame.node.id), c) ==> InExample(c) {
        ExampleConfined(doc, e, c);
      }
    }
    ReportedAmong(doc, LOC, region);
    forall r, kind | r in visits && Cued(doc, FormatCue(), kind, r) ensures SurelySilent(doc, r.instance, r.propName) {
      var e :| e in region && r in ReportsOf(e);
      ExampleCue(doc, e, r, kind);
    }
    NoHypothesis(doc, FormatCue(), hypotheses, visits, guarded);
  }

  lemma NoHypothesis(doc: Document, cue: Cue, hypotheses: set<(Kind, string)>, visits: seq<Report>,
                     guarded: set<Question>)
    requires Grounded(doc, cue, hypotheses, visits, guarded)
    requires forall r, kind | r in visits && Cued(doc, cue, kind, r) :: SurelySilent(doc, r.instance, r.propName)
    ensures hypotheses == {}
  {
    forall h ensures h !in hypotheses {
      SurelyNoHypothesis(doc, cue, hypotheses, visits, guarded, h.0, h.1);
    }
  }

  // ---- No guard cuts in there ----

  /** An object with none of the keywords that lead further. */
  ghost predicate Leaf(obj: Keywords) {
    forall k | k in {"allOf", "anyOf", "oneOf", "$ref", "items", "prefixItems", "dependentSchemas"} :: k !in obj
  }

  lemma LeafCosts(doc: Document, m: Measure, obj: Keywords)
    requires Leaf(obj)
    ensures CostsUnder(doc, m, obj) == m.cost(Invalid) && forall s :: !Under(doc, obj, s)
  {
    assert "allOf" !in obj && "anyOf" !in obj && "oneOf" !in obj && "$ref" !in obj;
    assert "items" !in obj && "prefixItems" !in obj && "dependentSchemas" !in obj;
    assert RequiredDependents(doc, obj) == [] by { assert AsObject(doc, Get(obj, "dependentSchemas")) == map[]; }
    assert ItemsOf(obj) == [];
  }

  function ExampleMeasure(): Measure {
    Measure(s => if s == Node(At(2)) then 1 else 0,
            s => if s == Node(At(2)) then 2 else if s.Invalid? then 0 else 1)
  }

  lemma LeafFits(doc: Document, m: Measure, id: ObjectId)
    requires Leaf(KeywordsOf(doc, id)) && 1 + m.cost(Invalid) <= m.cost(Node(id))
    ensures FitsAt(doc, m, id)
  {
    LeafCosts(doc, m, KeywordsOf(doc, id));
  }

  lemma StandInsAreLeaves(doc: Document, owner: nat, name: string)
    requires "patternProperties" !in HeapObject(doc, owner)
    ensures Leaf(KeywordsOf(doc, Undeclared(owner, name)))
  {
    var patterns := AsObject(doc, Get(HeapObject(doc, owner), "patternProperties"));
    assert patterns == map[] && Sorted(patterns.Keys) == [];
    assert KeywordsOf(doc, Undeclared(owner, name)) == map[];
  }

  /** One disjunct and nothing else that leads further. */
  lemma DisjunctFits(doc: Document, m: Measure, id: ObjectId, obj: Keywords, s: Schema)
    requires obj == KeywordsOf(doc, id) && Leaf(obj - {"anyOf"}) && Branches(obj, "anyOf") == [s]
    requires m.rank(s) < m.rank(Node(id)) && 1 + m.cost(Invalid) + m.cost(s) <= m.cost(Node(id))
    ensures FitsAt(doc, m, id)
  {
    var rest := obj - {"anyOf"};
    assert "allOf" !in rest && "oneOf" !in rest && "$ref" !in rest;
    assert "items" !in rest && "prefixItems" !in rest && "dependentSchemas" !in rest;
    assert RequiredDependents(doc, obj) == [] by { assert AsObject(doc, Get(obj, "dependentSchemas")) == map[]; }
    assert ItemsOf(obj) == [] && RefTarget(doc, obj) == Invalid;
    assert Branches(obj, "allOf") == [] && Branches(obj, "oneOf") == [];
    CostOneMore(m, [], s);
    assert [] + [s] == [s];
  }

  lemma ExampleLeaves(doc: Document, id: ObjectId)
    requires doc == EXAMPLE && id != At(2)
    ensures Leaf(KeywordsOf(doc, id))
  {
    if id.Undeclared? {
      assert "patternProperties" !in HeapObject(doc, id.owner);
      StandInsAreLeaves(doc, id.owner, id.name);
    } else {
      assert KeywordsOf(doc, id) in {EXAMPLE.heap[0], EXAMPLE.heap[1], EXAMPLE.heap[3], map[]};
    }
  }

  lemma ExampleDisjunct(doc: Document)
    requires doc == EXAMPLE
    ensures var obj := KeywordsOf(doc, At(2)); Leaf(obj - {"anyOf"}) && Branches(obj, "anyOf") == [Node(At(3))]
  {
    assert [Object(3)][1..] == [];
  }

  /** The first schema is one of those no guard cuts in on: what the review answers there is what the recursion does. */
  lemma ExampleIsTame()
    ensures Tame(EXAMPLE)
  {
    var doc, m := EXAMPLE, ExampleMeasure();
    forall id ensures FitsAt(doc, m, id) {
      if id == At(2) {
        ExampleDisjunct(doc);
        DisjunctFits(doc, m, id, KeywordsOf(doc, id), Node(At(3)));
      } else {
        ExampleLeaves(doc, id);
        LeafFits(doc, m, id);
      }
    }
    assert Fits(doc, m);
  }

  // ---- The property below one without a name ----

  ghost predicate InNameless(e: Entry) {
    || e.frame.node.Never?
    || (e.frame.instance == Node(At(0))
        && (|| (e.frame.node == Node(At(0)) && !e.visit && !e.frame.inspect && e.frame.propName == "")
            || (e.frame.node == Node(At(2)) && e.visit && e.frame.propName == "")
            || (e.frame.node == Node(At(4)) && e.visit && e.frame.propName == "url")))
  }

  lemma BelowUnnamed(doc: Document, e: Entry, obj: Keywords, name: string, id: ObjectId, c: Entry)
    requires e.frame.instance == Node(At(0)) && e.frame.propName == "" && ChildOf(doc, e, obj, c)
    requires id.At? && PropertySchemas(doc, obj) == map[name := Object(id.index)] && "anyOf" !in obj
    requires AsSchema(Get(obj, "additionalProperties")) in {Never, Invalid}
    ensures c.frame.node.Never?
         || (c.frame.node == Node(id) && c.visit && c.frame.propName == name && c.frame.instance == Node(At(0)))
  {
    assert ListOf(obj, "anyOf") == [];
  }

  lemma NamelessObjects(doc: Document)
    requires doc == NAMELESS
    ensures var obj := KeywordsOf(doc, At(0));
            && Plain(obj) && PropertySchemas(doc, obj) == map["" := Object(2)] && "anyOf" !in obj
            && PatternSchemas(doc, obj) == map[] && Get(obj, "additionalProperties") == Bool(false)
    ensures var obj := KeywordsOf(doc, At(2));
            && Plain(obj) && PropertySchemas(doc, obj) == map["url" := Object(4)] && "anyOf" !in obj
            && "additionalProperties" !in obj && "format" !in obj
    ensures var obj := KeywordsOf(doc, At(4));
            && Plain(obj) && PropertySchemas(doc, obj) == map[] && "additionalProperties" !in obj && "anyOf" !in obj
  {
    assert PropertySchemas(doc, KeywordsOf(doc, At(0))) == NAMELESS.heap[1];
    assert PropertySchemas(doc, KeywordsOf(doc, At(2))) == NAMELESS.heap[3];
  }

  lemma NamelessConfined(doc: Document, e: Entry, c: Entry)
    requires doc == NAMELESS && InNameless(e) && e.frame.node.Node?
    ensures Plain(KeywordsOf(doc, e.frame.node.id))
    ensures ChildOf(doc, e, KeywordsOf(doc, e.frame.node.id), c) ==> InNameless(c)
  {
    var obj := KeywordsOf(doc, e.frame.node.id);
    NamelessObjects(doc);
    if ChildOf(doc, e, obj, c) {
      if e.frame.node == Node(At(0)) {
        BelowUnnamed(doc, e, obj, "", At(2), c);
      } else if e.frame.node == Node(At(2)) {
        BelowUnnamed(doc, e, obj, "url", At(4), c);
      } else {
        BelowBranch(doc, e, obj, c);
      }
    }
  }

  /** The only report with a cue is that of url, about which the root is asked. */
  lemma NamelessCue(doc: Document, e: Entry, r: Report, kind: Kind)
    requires doc == NAMELESS && InNameless(e) && r in ReportsOf(e) && Cued(doc, FormatCue(), kind, r)
    ensures SurelySilent(doc, r.instance, r.propName)
  {
    NamelessObjects(doc);
  }

  /** So does the review of the schema with the silent property. */
  lemma NamelessReviewIsSilent(hypotheses: set<(Kind, string)>, guarded: set<Question>)
    requires Grounded(NAMELESS, FormatCue(), hypotheses, Reports(Entered(FullWalk(NAMELESS, LOC))), guarded)
    ensures hypotheses == {}
  {
    var doc, visits, region := NAMELESS, Reports(Entered(FullWalk(NAMELESS, LOC))), iset e | InNameless(e);
    forall e | e in region && e.frame.node.Node?
      ensures var obj := KeywordsOf(doc, e.frame.node.id);
              Plain(obj) && forall c | ChildOf(doc, e, obj, c) :: c in region
    {
      forall c ensures Plain(KeywordsOf(doc, e.frame.node.id))
               ensures ChildOf(doc, e, KeywordsOf(doc, e.frame.node.id), c) ==> InNameless(c) {
        NamelessConfined(doc, e, c);
      }
    }
    ReportedAmong(doc, LOC, region);
    forall r, kind | r in visits && Cued(doc, FormatCue(), kind, r) ensures SurelySilent(doc, r.instance, r.propName) {
      var e :| e in region && r in ReportsOf(e);
      NamelessCue(doc, e, r, kind);
    }
    NoHypothesis(doc, FormatCue(), hypotheses, visits, guarded);
  }

  /** The program's own review of both: no hypothesis, whatever its memo, guards and budgets do. */
  method ReviewBoth() returns (branch: set<(Kind, string)>, nameless: set<(Kind, string)>)
    ensures branch == {} && nameless == {}
  {
    var truncated, limitHit;
    ghost var guarded;
    branch, truncated, limitHit, guarded := ReviewSchema(EXAMPLE, LOC, FormatCue());
    ExampleReviewIsSilent(branch, guarded);
    nameless, truncated, limitHit, guarded := ReviewSchema(NAMELESS, LOC, FormatCue());
    NamelessReviewIsSilent(nameless, guarded);
  }
}
