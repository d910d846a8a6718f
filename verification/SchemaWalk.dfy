/** The walk over a tool's input schema, one node at a time: the frames it carries, what it reports about a
    frame, and which frames it enters below one. */
module SchemaWalk {
  import opened Text
  import opened JsonDocument
  import opened SchemaKeywords

  const MAX_DEPTH: nat := 32
  const MAX_VISITED: nat := 256

  datatype Frame = Frame(node: Schema, origin: Schema, instance: Schema, loc: string, propName: string,
                         depth: nat, inspect: bool, cueLoc: string, cueName: string)

  /** A call of enter: visit tells it to report the frame under its own name. */
  datatype Entry = Entry(frame: Frame, visit: bool)

  /** What the visitor is told. */
  datatype Report = Report(loc: string, propName: string, node: Schema, origin: Schema, instance: Schema)

  function Constraint(f: Frame): Schema {
    if f.origin.Invalid? then f.node else f.origin
  }

  /** objectInstance. */
  function ObjectInstance(f: Frame): Schema {
    if !f.instance.Invalid? then f.instance
    else if f.propName == "" && !f.origin.Invalid? then f.origin
    else f.node
  }

  /** visitFrame. */
  function ReportsOf(e: Entry): seq<Report> {
    var f := e.frame;
    if e.visit then [Report(f.loc, f.propName, f.node, Constraint(f), f.instance)]
    else if f.inspect && f.cueLoc != "" then [Report(f.cueLoc, f.cueName, f.node, Constraint(f), f.instance)]
    else if f.inspect then [Report(f.loc, f.propName, f.node, Constraint(f), f.instance)]
    else []
  }

  // ---- What is entered from one node ----

  function Child(node: Schema, origin: Schema, instance: Schema, loc: string, propName: string, depth: nat): Frame {
    Frame(node, origin, instance, loc, propName, depth, false, "", "")
  }

  /** The frame a $ref is followed with: the target in the place of the node that refers to it. */
  function RefEntry(e: Entry, target: Schema): Entry {
    var f := e.frame;
    e.(frame := f.(node := target, origin := Constraint(f), depth := f.depth + 1))
  }

  /** An object the program built itself, for a required name. */
  predicate IsBuilt(s: Schema) { s.Node? && s.id.Undeclared? }

  /** Only real schemas are entered, one level down, and only properties sections build objects. */
  predicate Descends(c: Entry, depth: nat, builds: bool) {
    !c.frame.node.Invalid? && c.frame.depth == depth && (IsBuilt(c.frame.node) ==> builds)
  }

  ghost predicate AllDescend(entries: seq<Entry>, depth: nat, builds: bool) {
    forall c | c in entries :: Descends(c, depth, builds)
  }

  lemma AllDescendConcat(a: seq<Entry>, b: seq<Entry>, depth: nat, builds: bool)
    ensures AllDescend(a + b, depth, builds) <==> AllDescend(a, depth, builds) && AllDescend(b, depth, builds)
  {
    assert forall c | c in a :: c in a + b;
    assert forall c | c in b :: c in a + b;
  }

  lemma AllDescendMore(a: seq<Entry>, depth: nat, builds: bool)
    requires AllDescend(a, depth, false)
    ensures AllDescend(a, depth, builds)
  {
  }

  function InOrder(a: seq<Entry>, b: seq<Entry>, c: seq<Entry>, d: seq<Entry>, depth: nat,
                   builds: bool): (r: seq<Entry>)
    requires AllDescend(a, depth, builds) && AllDescend(b, depth, builds)
    requires AllDescend(c, depth, builds) && AllDescend(d, depth, builds)
    ensures AllDescend(r, depth, builds)
  {
    AllDescendConcat(a, b, depth, builds);
    AllDescendConcat(a + b, c, depth, builds);
    AllDescendConcat(a + b + c, d, depth, builds);
    a + b + c + d
  }

  /** The entries of a map of subschemas, in ascending order of name; named tells whether the name is
      a property name and the entry is reported under it. */
  function EnterMap(schemas: Keywords, names: seq<string>, base: string, origin: Schema, instance: Schema, depth: nat,
                    named: bool): (r: seq<Entry>)
    requires forall name | name in names :: name in schemas
    ensures AllDescend(r, depth, false)
  {
    if names == [] then []
    else
      var rest := EnterMap(schemas, names[1..], base, origin, instance, depth, named);
      var s := AsSchema(schemas[names[0]]);
      if s.Invalid? then rest
      else [Entry(Child(s, origin, instance, base + names[0], if named then names[0] else "", depth), named)] + rest
  }

  /** A subschema under a keyword of its own. */
  function EnterOne(v: Json, origin: Schema, instance: Schema, loc: string, propName: string, depth: nat,
                    visit: bool): (r: seq<Entry>)
    ensures AllDescend(r, depth, false)
  {
    var s := AsSchema(v);
    if s.Invalid? then [] else [Entry(Child(s, origin, instance, loc, propName, depth), visit)]
  }

  /** walkSchemaList, from index i on. */
  function EnterList(elems: seq<Json>, i: nat, loc: string, origin: Schema, depth: nat): (r: seq<Entry>)
    ensures AllDescend(r, depth, false)
    decreases |elems| - i
  {
    if i >= |elems| then []
    else
      EnterOne(elems[i], origin, Invalid, loc + "[" + Decimal(i) + "]", "items", depth, true)
      + EnterList(elems, i + 1, loc, origin, depth)
  }

  /** The branches of one allOf, anyOf or oneOf, from index i on: frame is what they have in common. */
  function EnterBranches(elems: seq<Json>, i: nat, loc: string, common: Frame): (r: seq<Entry>)
    ensures AllDescend(r, common.depth, false)
    decreases |elems| - i
  {
    if i >= |elems| then []
    else
      var s := AsSchema(elems[i]);
      (if s.Invalid? then [] else [Entry(common.(node := s, loc := loc + "[" + Decimal(i) + "]"), false)])
      + EnterBranches(elems, i + 1, loc, common)
  }

  function ListOf(obj: Keywords, key: string): seq<Json> {
    var v := Get(obj, key);
    if v.Array? then v.elems else []
  }

  /** requiredOnlyNames. */
  function RequiredOnly(doc: Document, obj: Keywords): (names: seq<string>)
    ensures Ascending(names)
    ensures forall name :: name in names <==> name in RequiredNames(obj) && !PropertyDeclared(doc, obj, name)
  {
    Sorted((set name | name in RequiredNames(obj)) - PropertySchemas(doc, obj).Keys)
  }

  function Nested(f: Frame): Schema { if f.propName != "" then f.node else ObjectInstance(f) }

  function EnterDeclared(doc: Document, f: Frame, obj: Keywords): (r: seq<Entry>)
    ensures AllDescend(r, f.depth + 1, false)
  {
    var declared := PropertySchemas(doc, obj);
    EnterMap(declared, Sorted(declared.Keys), f.loc + ".properties.", Invalid, Nested(f), f.depth + 1, true)
  }

  /** A required name that is not declared is entered with the schema that governs it. */
  function EnterUndeclared(doc: Document, f: Frame, id: ObjectId, required: seq<string>): (r: seq<Entry>)
    ensures AllDescend(r, f.depth + 1, id.At?)
  {
    if required == [] || id.Undeclared? then []
    else
      var name := required[0];
      [Entry(Child(UndeclaredSchema(doc, id.index, name), Invalid, Nested(f), f.loc + ".properties." + name, name,
                   f.depth + 1), true)]
      + EnterUndeclared(doc, f, id, required[1..])
  }

  function EnterPatterns(doc: Document, f: Frame, obj: Keywords): (r: seq<Entry>)
    ensures AllDescend(r, f.depth + 1, false)
  {
    var patterns := PatternSchemas(doc, obj);
    EnterMap(patterns, Sorted(patterns.Keys), f.loc + ".patternProperties.", Invalid, Invalid, f.depth + 1, true)
  }

  function EnterAdditional(f: Frame, obj: Keywords): (r: seq<Entry>)
    ensures AllDescend(r, f.depth + 1, false)
  {
    EnterOne(Get(obj, "additionalProperties"), Invalid, Invalid, f.loc + ".additionalProperties", "", f.depth + 1, true)
  }

  /** The property sections; required are the names that are required but not declared. */
  function EnterProperties(doc: Document, f: Frame, id: ObjectId, obj: Keywords, required: seq<string>): (r: seq<Entry>)
    ensures AllDescend(r, f.depth + 1, id.At?)
  {
    AllDescendMore(EnterDeclared(doc, f, obj), f.depth + 1, id.At?);
    AllDescendMore(EnterPatterns(doc, f, obj), f.depth + 1, id.At?);
    AllDescendMore(EnterAdditional(f, obj), f.depth + 1, id.At?);
    InOrder(EnterDeclared(doc, f, obj), EnterUndeclared(doc, f, id, required), EnterPatterns(doc, f, obj),
            EnterAdditional(f, obj),
            f.depth + 1, id.At?)
  }

  /** items: one schema for every element, or the legacy list form. */
  function EnterItemsKeyword(f: Frame, items: Json): (r: seq<Entry>)
    ensures AllDescend(r, f.depth + 1, false)
  {
    if items.Array? then EnterList(items.elems, 0, f.loc + ".items", Constraint(f), f.depth + 1)
    else EnterOne(items, Constraint(f), Invalid, f.loc + ".items", "items", f.depth + 1, true)
  }

  /** additionalItems counts only beside the legacy list form. */
  function EnterAdditionalItems(f: Frame, obj: Keywords): (r: seq<Entry>)
    ensures AllDescend(r, f.depth + 1, false)
  {
    if Get(obj, "items").Array? then
      EnterOne(Get(obj, "additionalItems"), Constraint(f), Invalid, f.loc + ".additionalItems", "items", f.depth + 1,
               true)
    else []
  }

  function EnterItems(f: Frame, obj: Keywords): (r: seq<Entry>)
    ensures AllDescend(r, f.depth + 1, false)
  {
    EnterItemsKeyword(f, Get(obj, "items"))
    + EnterList(ListOf(obj, "prefixItems"), 0, f.loc + ".prefixItems", Constraint(f), f.depth + 1)
    + EnterAdditionalItems(f, obj)
  }

  function EnterComposition(e: Entry, obj: Keywords, key: string): (r: seq<Entry>)
    ensures AllDescend(r, e.frame.depth + 1, false)
  {
    var f := e.frame;
    var own := f.inspect && f.cueLoc != "";
    EnterBranches(ListOf(obj, key), 0, f.loc + "." + key,
                  Frame(Invalid, Constraint(f), Nested(f), "", "", f.depth + 1, e.visit || f.inspect,
                        if own then f.cueLoc else f.loc, if own then f.cueName else f.propName))
  }

  function EnterDependents(doc: Document, f: Frame, obj: Keywords): (r: seq<Entry>)
    ensures AllDescend(r, f.depth + 1, false)
  {
    var deps := AsObject(doc, Get(obj, "dependentSchemas"));
    EnterMap(deps, Sorted(deps.Keys), f.loc + ".dependentSchemas.", Nested(f), Nested(f), f.depth + 1, false)
  }

  function EnterConditional(f: Frame, obj: Keywords, key: string): (r: seq<Entry>)
    ensures AllDescend(r, f.depth + 1, false)
  {
    EnterOne(Get(obj, key), Nested(f), Nested(f), f.loc + "." + key, "", f.depth + 1, false)
  }

  function EnterConditionals(doc: Document, f: Frame, obj: Keywords): (r: seq<Entry>)
    ensures AllDescend(r, f.depth + 1, false)
  {
    InOrder(EnterDependents(doc, f, obj), EnterConditional(f, obj, "then"), EnterConditional(f, obj, "else"),
            EnterConditional(f, obj, "if"), f.depth + 1, false)
  }

  function EnterCompositions(e: Entry, obj: Keywords): (r: seq<Entry>)
    ensures AllDescend(r, e.frame.depth + 1, false)
  {
    InOrder(EnterComposition(e, obj, "allOf"), EnterComposition(e, obj, "anyOf"), EnterComposition(e, obj, "oneOf"), [],
            e.frame.depth + 1, false)
  }

  /** walkApplicators: what is entered from a frame, in order, after its $ref. */
  function Applicators(doc: Document, e: Entry): (r: seq<Entry>)
    ensures AllDescend(r, e.frame.depth + 1, !IsBuilt(e.frame.node))
  {
    if !e.frame.node.Node? then []
    else
      var obj := KeywordsOf(doc, e.frame.node.id);
      EnterSections(doc, e, e.frame.node.id, obj)
  }

  function EnterSections(doc: Document, e: Entry, id: ObjectId, obj: Keywords): (r: seq<Entry>)
    ensures AllDescend(r, e.frame.depth + 1, id.At?)
  {
    var rest := EnterRest(doc, e, obj);
    AllDescendMore(rest, e.frame.depth + 1, id.At?);
    AllDescendConcat(EnterProperties(doc, e.frame, id, obj, RequiredOnly(doc, obj)), rest, e.frame.depth + 1, id.At?);
    EnterProperties(doc, e.frame, id, obj, RequiredOnly(doc, obj)) + rest
  }

  function EnterRest(doc: Document, e: Entry, obj: Keywords): (r: seq<Entry>)
    ensures AllDescend(r, e.frame.depth + 1, false)
  {
    InOrder(EnterItems(e.frame, obj), EnterCompositions(e, obj), EnterConditionals(doc, e.frame, obj), [],
            e.frame.depth + 1, false)
  }

  // ---- Which subschemas those are ----

  ghost predicate Enters(entries: seq<Entry>, m: Schema) { exists e | e in entries :: e.frame.node == m }

  ghost predicate UnderSome(schemas: Keywords, m: Schema) { exists k | k in schemas :: AsSchema(schemas[k]) == m }

  ghost predicate UnderKey(obj: Keywords, key: string, m: Schema) { AsSchema(Get(obj, key)) == m }

  ghost predicate Listed(obj: Keywords, key: string, m: Schema) { exists v | v in ListOf(obj, key) :: AsSchema(v) == m }

  ghost predicate StandInFor(doc: Document, id: ObjectId, names: seq<string>, m: Schema) {
    id.At? && exists name | name in names :: UndeclaredSchema(doc, id.index, name) == m
  }

  ghost predicate UnderProperty(doc: Document, id: ObjectId, obj: Keywords, required: seq<string>, m: Schema) {
    || UnderSome(PropertySchemas(doc, obj), m) || StandInFor(doc, id, required, m)
    || UnderSome(PatternSchemas(doc, obj), m) || UnderKey(obj, "additionalProperties", m)
  }

  ghost predicate UnderItems(obj: Keywords, m: Schema) {
    || UnderKey(obj, "items", m) || Listed(obj, "items", m) || Listed(obj, "prefixItems", m)
    || (Get(obj, "items").Array? && UnderKey(obj, "additionalItems", m))
  }

  ghost predicate UnderComposition(obj: Keywords, m: Schema) {
    Listed(obj, "allOf", m) || Listed(obj, "anyOf", m) || Listed(obj, "oneOf", m)
  }

  ghost predicate UnderCondition(doc: Document, obj: Keywords, m: Schema) {
    || UnderSome(AsObject(doc, Get(obj, "dependentSchemas")), m)
    || UnderKey(obj, "then", m) || UnderKey(obj, "else", m) || UnderKey(obj, "if", m)
  }

  /** m applies, under some keyword, to (part of) the instances of object id: the keywords whose subschemas
      describe accepted instances, so not, contains and propertyNames are not among them. */
  ghost predicate Subschema(doc: Document, id: ObjectId, m: Schema) {
    var obj := KeywordsOf(doc, id);
    && !m.Invalid?
    && (|| UnderProperty(doc, id, obj, RequiredOnly(doc, obj), m) || UnderItems(obj, m) || UnderComposition(obj, m)
        || UnderCondition(doc, obj, m) || RefTarget(doc, obj) == m)
  }

  lemma EntersConcat(a: seq<Entry>, b: seq<Entry>, m: Schema)
    ensures Enters(a + b, m) <==> Enters(a, m) || Enters(b, m)
  {
    if Enters(a, m) { var e :| e in a && e.frame.node == m; assert e in a + b; }
    if Enters(b, m) { var e :| e in b && e.frame.node == m; assert e in a + b; }
  }

  lemma {:induction false} MapEnters(schemas: Keywords, names: seq<string>, base: string, origin: Schema,
                                     instance: Schema, depth: nat, named: bool, m: Schema)
    requires forall name | name in names :: name in schemas
    ensures Enters(EnterMap(schemas, names, base, origin, instance, depth, named), m) <==>
            !m.Invalid? && exists name | name in names :: AsSchema(schemas[name]) == m
  {
    if names != [] {
      MapEnters(schemas, names[1..], base, origin, instance, depth, named, m);
    }
  }

  lemma {:induction false} UndeclaredEnter(doc: Document, f: Frame, id: ObjectId, required: seq<string>, m: Schema)
    ensures Enters(EnterUndeclared(doc, f, id, required), m) <==> StandInFor(doc, id, required, m)
  {
    if required != [] && id.At? {
      UndeclaredEnter(doc, f, id, required[1..], m);
    }
  }

  lemma {:induction false} ListEnters(elems: seq<Json>, i: nat, loc: string, origin: Schema, depth: nat, m: Schema)
    requires i <= |elems|
    ensures Enters(EnterList(elems, i, loc, origin, depth), m) <==>
            !m.Invalid? && exists v | v in elems[i..] :: AsSchema(v) == m
    decreases |elems| - i
  {
    if i < |elems| {
      ListEnters(elems, i + 1, loc, origin, depth, m);
      assert elems[i..] == [elems[i]] + elems[i + 1..];
    }
  }

  lemma {:induction false} BranchesEnter(elems: seq<Json>, i: nat, loc: string, common: Frame, m: Schema)
    requires i <= |elems|
    ensures Enters(EnterBranches(elems, i, loc, common), m) <==>
            !m.Invalid? && exists v | v in elems[i..] :: AsSchema(v) == m
    decreases |elems| - i
  {
    if i < |elems| {
      BranchesEnter(elems, i + 1, loc, common, m);
      assert elems[i..] == [elems[i]] + elems[i + 1..];
    }
  }

  lemma OneEnters(v: Json, origin: Schema, instance: Schema, loc: string, propName: string, depth: nat, visit: bool,
                  m: Schema)
    ensures Enters(EnterOne(v, origin, instance, loc, propName, depth, visit), m) <==> !m.Invalid? && AsSchema(v) == m
  {
    var r := EnterOne(v, origin, instance, loc, propName, depth, visit);
    if !AsSchema(v).Invalid? { assert r[0] in r; }
  }

  lemma DeclaredEnter(doc: Document, f: Frame, obj: Keywords, m: Schema)
    requires !m.Invalid?
    ensures Enters(EnterDeclared(doc, f, obj), m) <==> UnderSome(PropertySchemas(doc, obj), m)
  {
    var declared := PropertySchemas(doc, obj);
    MapEnters(declared, Sorted(declared.Keys), f.loc + ".properties.", Invalid, Nested(f), f.depth + 1, true, m);
  }

  lemma PatternsEnter(doc: Document, f: Frame, obj: Keywords, m: Schema)
    requires !m.Invalid?
    ensures Enters(EnterPatterns(doc, f, obj), m) <==> UnderSome(PatternSchemas(doc, obj), m)
  {
    var patterns := PatternSchemas(doc, obj);
    MapEnters(patterns, Sorted(patterns.Keys), f.loc + ".patternProperties.", Invalid, Invalid, f.depth + 1, true, m);
  }

  lemma PropertiesEnter(doc: Document, f: Frame, id: ObjectId, obj: Keywords, required: seq<string>, m: Schema)
    requires !m.Invalid?
    ensures Enters(EnterProperties(doc, f, id, obj, required), m) <==>
            UnderProperty(doc, id, obj, required, m)
  {
    DeclaredEnter(doc, f, obj, m);
    UndeclaredEnter(doc, f, id, required, m);
    PatternsEnter(doc, f, obj, m);
    OneEnters(Get(obj, "additionalProperties"), Invalid, Invalid, f.loc + ".additionalProperties", "", f.depth + 1,
              true, m);
    EntersFour(EnterDeclared(doc, f, obj), EnterUndeclared(doc, f, id, required), EnterPatterns(doc, f, obj),
               EnterAdditional(f, obj), m);
  }

  lemma EntersFour(a: seq<Entry>, b: seq<Entry>, c: seq<Entry>, d: seq<Entry>, m: Schema)
    ensures Enters(a + b + c + d, m) <==> Enters(a, m) || Enters(b, m) || Enters(c, m) || Enters(d, m)
  {
    EntersConcat(a, b, m);
    EntersConcat(a + b, c, m);
    EntersConcat(a + b + c, d, m);
  }

  lemma ItemsKeywordEnters(f: Frame, obj: Keywords, m: Schema)
    requires !m.Invalid?
    ensures Enters(EnterItemsKeyword(f, Get(obj, "items")), m) <==> UnderKey(obj, "items", m) || Listed(obj, "items", m)
  {
    var items := Get(obj, "items");
    if items.Array? {
      assert items.elems[0..] == items.elems;
      ListEnters(items.elems, 0, f.loc + ".items", Constraint(f), f.depth + 1, m);
    } else {
      OneEnters(items, Constraint(f), Invalid, f.loc + ".items", "items", f.depth + 1, true, m);
    }
  }

  lemma AdditionalItemsEnter(f: Frame, obj: Keywords, m: Schema)
    requires !m.Invalid?
    ensures Enters(EnterAdditionalItems(f, obj), m) <==> Get(obj, "items").Array? && UnderKey(obj, "additionalItems", m)
  {
    OneEnters(Get(obj, "additionalItems"), Constraint(f), Invalid, f.loc + ".additionalItems", "items", f.depth + 1,
              true, m);
  }

  lemma ItemsEnter(f: Frame, obj: Keywords, m: Schema)
    requires !m.Invalid?
    ensures Enters(EnterItems(f, obj), m) <==> UnderItems(obj, m)
  {
    var prefix := ListOf(obj, "prefixItems");
    assert prefix[0..] == prefix;
    ListEnters(prefix, 0, f.loc + ".prefixItems", Constraint(f), f.depth + 1, m);
    ItemsKeywordEnters(f, obj, m);
    AdditionalItemsEnter(f, obj, m);
    EntersFour(EnterItemsKeyword(f, Get(obj, "items")),
               EnterList(prefix, 0, f.loc + ".prefixItems", Constraint(f), f.depth + 1),
               EnterAdditionalItems(f, obj), [], m);
  }

  lemma CompositionEnters(e: Entry, obj: Keywords, key: string, m: Schema)
    requires !m.Invalid?
    ensures Enters(EnterComposition(e, obj, key), m) <==> Listed(obj, key, m)
  {
    var f, elems := e.frame, ListOf(obj, key);
    var own := f.inspect && f.cueLoc != "";
    assert elems[0..] == elems;
    BranchesEnter(elems, 0, f.loc + "." + key,
                  Frame(Invalid, Constraint(f), Nested(f), "", "", f.depth + 1, e.visit || f.inspect,
                        if own then f.cueLoc else f.loc, if own then f.cueName else f.propName), m);
  }

  lemma CompositionsEnter(e: Entry, obj: Keywords, m: Schema)
    requires !m.Invalid?
    ensures Enters(EnterCompositions(e, obj), m) <==> UnderComposition(obj, m)
  {
    CompositionEnters(e, obj, "allOf", m);
    CompositionEnters(e, obj, "anyOf", m);
    CompositionEnters(e, obj, "oneOf", m);
    EntersFour(EnterComposition(e, obj, "allOf"), EnterComposition(e, obj, "anyOf"),
               EnterComposition(e, obj, "oneOf"), [], m);
  }

  lemma DependentsEnter(doc: Document, f: Frame, obj: Keywords, m: Schema)
    requires !m.Invalid?
    ensures Enters(EnterDependents(doc, f, obj), m) <==> UnderSome(AsObject(doc, Get(obj, "dependentSchemas")), m)
  {
    var deps := AsObject(doc, Get(obj, "dependentSchemas"));
    MapEnters(deps, Sorted(deps.Keys), f.loc + ".dependentSchemas.", Nested(f), Nested(f), f.depth + 1, false, m);
  }

  lemma ConditionalEnters(f: Frame, obj: Keywords, key: string, m: Schema)
    requires !m.Invalid?
    ensures Enters(EnterConditional(f, obj, key), m) <==> UnderKey(obj, key, m)
  {
    OneEnters(Get(obj, key), Nested(f), Nested(f), f.loc + "." + key, "", f.depth + 1, false, m);
  }

  lemma ConditionalsEnter(doc: Document, f: Frame, obj: Keywords, m: Schema)
    requires !m.Invalid?
    ensures Enters(EnterConditionals(doc, f, obj), m) <==> UnderCondition(doc, obj, m)
  {
    DependentsEnter(doc, f, obj, m);
    ConditionalEnters(f, obj, "then", m);
    ConditionalEnters(f, obj, "else", m);
    ConditionalEnters(f, obj, "if", m);
    EntersFour(EnterDependents(doc, f, obj), EnterConditional(f, obj, "then"), EnterConditional(f, obj, "else"),
               EnterConditional(f, obj, "if"), m);
  }

  /** What the walk enters below an object is what applies to its instances. */
  lemma EnteredSubschemas(doc: Document, e: Entry, id: ObjectId, m: Schema)
    requires e.frame.node == Node(id) && !m.Invalid?
    ensures Subschema(doc, id, m) <==> Enters(Applicators(doc, e), m) || RefTarget(doc, KeywordsOf(doc, id)) == m
  {
    var obj := KeywordsOf(doc, id);
    PropertiesEnter(doc, e.frame, id, obj, RequiredOnly(doc, obj), m);
    ItemsEnter(e.frame, obj, m);
    CompositionsEnter(e, obj, m);
    ConditionalsEnter(doc, e.frame, obj, m);
    EntersFour(EnterItems(e.frame, obj), EnterCompositions(e, obj), EnterConditionals(doc, e.frame, obj), [], m);
    EntersConcat(EnterProperties(doc, e.frame, id, obj, RequiredOnly(doc, obj)), EnterRest(doc, e, obj), m);
  }

  lemma BareObject(doc: Document, id: ObjectId, m: Schema)
    requires KeywordsOf(doc, id) == map[]
    ensures !Subschema(doc, id, m)
  {
    if !m.Invalid? {
      NoneRequired(doc);
      BareKeywords(doc, id, m);
    }
  }

  lemma BareKeywords(doc: Document, id: ObjectId, m: Schema)
    requires !m.Invalid?
    ensures !UnderProperty(doc, id, map[], [], m) && !UnderItems(map[], m)
    ensures !UnderComposition(map[], m) && !UnderCondition(doc, map[], m) && RefTarget(doc, map[]) == Invalid
  {
  }

  lemma NoneRequired(doc: Document)
    ensures RequiredOnly(doc, map[]) == []
  {
    var names := RequiredOnly(doc, map[]);
    assert forall i | 0 <= i < |names| :: names[i] in names;
    assert RequiredNames(map[]) == [];
  }

  lemma NothingBelow(doc: Document, e: Entry, id: ObjectId)
    requires e.frame.node == Node(id) && KeywordsOf(doc, id) == map[]
    ensures Applicators(doc, e) == []
  {
    forall m: Schema | !m.Invalid? ensures !Enters(Applicators(doc, e), m) {
      EnteredSubschemas(doc, e, id, m);
      BareObject(doc, id, m);
    }
    NothingEntered(Applicators(doc, e), e.frame.depth + 1, !IsBuilt(e.frame.node));
  }

  lemma NothingEntered(entries: seq<Entry>, depth: nat, builds: bool)
    requires AllDescend(entries, depth, builds) && forall m: Schema | !m.Invalid? :: !Enters(entries, m)
    ensures entries == []
  {
    if |entries| > 0 {
      FirstEnters(entries);
    }
  }

  lemma FirstEnters(entries: seq<Entry>)
    requires |entries| > 0
    ensures entries[0] in entries && Enters(entries, entries[0].frame.node)
  {
  }
}
