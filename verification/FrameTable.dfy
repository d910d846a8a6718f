/** The frames the walk enters below one object, field by field and in order. */
module FrameTable {
  import opened Text
  import opened JsonDocument
  import opened SchemaKeywords
  import opened SchemaWalk

  // ---- What a frame hands down ----

  /** The schema whose constraints hold for the frame: the origin, or else the node. */
  function Holding(f: Frame): Schema { if f.origin != Invalid then f.origin else f.node }

  /** The object around the parts of the frame's values: the node itself under a property name; otherwise the instance,
      or else the origin, or else the node. */
  function Around(f: Frame): Schema {
    if f.propName != "" then f.node
    else if f.instance != Invalid then f.instance
    else if f.origin != Invalid then f.origin
    else f.node
  }

  /** Where a cue of a branch is reported: at the frame's own place, unless it has one of its own. */
  function CueSite(f: Frame): (string, string) {
    if f.inspect && f.cueLoc != "" then (f.cueLoc, f.cueName) else (f.loc, f.propName)
  }

  // ---- The frames of a map of subschemas, and of a list ----

  type Named = (string, Schema) -> Entry
  type Placed = (nat, Schema) -> Entry

  function Members(schemas: Keywords, names: seq<string>): seq<string> {
    if names == [] then []
    else (if names[0] in schemas && AsSchema(schemas[names[0]]) != Invalid then [names[0]] else [])
         + Members(schemas, names[1..])
  }

  /** One entry for each name that holds a schema, in ascending order of name. */
  ghost predicate EachName(schemas: Keywords, r: seq<Entry>, entry: Named) {
    exists names :: EachOf(schemas, names, r, entry)
  }

  ghost predicate EachOf(schemas: Keywords, names: seq<string>, r: seq<Entry>, entry: Named) {
    && Ascending(names) && |names| == |r|
    && (forall n :: n in names <==> n in schemas && AsSchema(schemas[n]) != Invalid)
    && forall i | 0 <= i < |names| :: names[i] in names && r[i] == entry(names[i], AsSchema(schemas[names[i]]))
  }

  /** One entry for each place of the list that holds a schema, in order. */
  ghost predicate EachPlace(elems: seq<Json>, r: seq<Entry>, entry: Placed) {
    exists at :: EachAt(elems, at, r, entry)
  }

  ghost predicate EachAt(elems: seq<Json>, at: seq<nat>, r: seq<Entry>, entry: Placed) {
    && |at| == |r| && (forall i, j | 0 <= i < j < |at| :: at[i] < at[j])
    && (forall k: nat :: k in at <==> k < |elems| && AsSchema(elems[k]) != Invalid)
    && forall i | 0 <= i < |at| :: at[i] < |elems| && r[i] == entry(at[i], AsSchema(elems[at[i]]))
  }

  /** One entry if the value is a schema. */
  predicate One(v: Json, r: seq<Entry>, entry: Schema -> Entry) {
    r == if AsSchema(v) != Invalid then [entry(AsSchema(v))] else []
  }

  /** The entries are those of the listed names. */
  ghost predicate EachAmong(schemas: Keywords, names: seq<string>, ns: seq<string>, r: seq<Entry>, entry: Named) {
    && |r| == |ns| && Ascending(ns)
    && (forall n :: n in ns <==> n in names && n in schemas && AsSchema(schemas[n]) != Invalid)
    && forall i | 0 <= i < |ns| :: ns[i] in ns && r[i] == entry(ns[i], AsSchema(schemas[ns[i]]))
  }

  lemma EachAmongMore(schemas: Keywords, names: seq<string>, ns: seq<string>, r: seq<Entry>, entry: Named)
    requires names != [] && Ascending(names) && names[0] in schemas && EachAmong(schemas, names[1..], ns, r, entry)
    ensures var s := AsSchema(schemas[names[0]]);
            if s == Invalid then EachAmong(schemas, names, ns, r, entry)
            else EachAmong(schemas, names, [names[0]] + ns, [entry(names[0], s)] + r, entry)
  {
    forall n | n in names[1..] ensures Less(names[0], n) {
      var j :| 0 <= j < |names[1..]| && names[1..][j] == n;
      assert names[j + 1] == n;
    }
    assert forall i | 0 <= i < |ns| :: ns[i] in ns;
  }

  lemma TailAscends(names: seq<string>)
    requires names != [] && Ascending(names)
    ensures Ascending(names[1..])
  {
  }

  function MapFrame(base: string, origin: Schema, instance: Schema, depth: nat, named: bool): Named {
    (n, s) => Entry(Child(s, origin, instance, base + n, if named then n else "", depth), named)
  }

  lemma FirstOfMap(schemas: Keywords, names: seq<string>, base: string, origin: Schema, instance: Schema, depth: nat,
                   named: bool)
    requires names != [] && forall n | n in names :: n in schemas
    ensures var s, rest := AsSchema(schemas[names[0]]),
              EnterMap(schemas, names[1..], base, origin, instance, depth, named);
            EnterMap(schemas, names, base, origin, instance, depth, named)
            == if s == Invalid then rest
               else [MapFrame(base, origin, instance, depth, named)(names[0], s)] + rest
  {
  }

  lemma FirstMember(schemas: Keywords, names: seq<string>)
    requires names != [] && names[0] in schemas
    ensures Members(schemas, names)
         == if AsSchema(schemas[names[0]]) == Invalid then Members(schemas, names[1..])
            else [names[0]] + Members(schemas, names[1..])
  {
    assert [] + Members(schemas, names[1..]) == Members(schemas, names[1..]);
  }

  lemma {:induction false} MapMembers(schemas: Keywords, names: seq<string>, base: string, origin: Schema,
                                      instance: Schema, depth: nat, named: bool)
    requires Ascending(names) && forall n | n in names :: n in schemas
    ensures EachAmong(schemas, names, Members(schemas, names),
                      EnterMap(schemas, names, base, origin, instance, depth, named),
                      MapFrame(base, origin, instance, depth, named))
  {
    if names != [] {
      TailAscends(names);
      MapMembers(schemas, names[1..], base, origin, instance, depth, named);
      FirstOfMap(schemas, names, base, origin, instance, depth, named);
      FirstMember(schemas, names);
      EachAmongMore(schemas, names, Members(schemas, names[1..]),
                    EnterMap(schemas, names[1..], base, origin, instance, depth, named),
                    MapFrame(base, origin, instance, depth, named));
    }
  }

  lemma MapIsEachName(schemas: Keywords, base: string, origin: Schema, instance: Schema, depth: nat, named: bool,
                      entry: Named)
    requires forall n, s :: entry(n, s) == MapFrame(base, origin, instance, depth, named)(n, s)
    ensures EachName(schemas, EnterMap(schemas, Sorted(schemas.Keys), base, origin, instance, depth, named), entry)
  {
    var names, r := Sorted(schemas.Keys),
        EnterMap(schemas, Sorted(schemas.Keys), base, origin, instance, depth, named);
    MapMembers(schemas, names, base, origin, instance, depth, named);
    assert EachOf(schemas, Members(schemas, names), r, entry);
  }

  function Places(elems: seq<Json>, i: nat): seq<nat>
    decreases |elems| - i
  {
    if i >= |elems| then []
    else (if AsSchema(elems[i]) != Invalid then [i] else []) + Places(elems, i + 1)
  }

  /** The entries are those of the places from i on. */
  ghost predicate EachFrom(elems: seq<Json>, i: nat, at: seq<nat>, r: seq<Entry>, entry: Placed) {
    && |at| == |r| && (forall j, k | 0 <= j < k < |at| :: at[j] < at[k])
    && (forall k: nat :: k in at <==> i <= k < |elems| && AsSchema(elems[k]) != Invalid)
    && forall j | 0 <= j < |at| :: i <= at[j] < |elems| && r[j] == entry(at[j], AsSchema(elems[at[j]]))
  }

  lemma EachFromHere(elems: seq<Json>, i: nat, at: seq<nat>, r: seq<Entry>, entry: Placed)
    requires i < |elems| && EachFrom(elems, i + 1, at, r, entry)
    ensures var s := AsSchema(elems[i]);
            if s == Invalid then EachFrom(elems, i, at, r, entry)
            else EachFrom(elems, i, [i] + at, [entry(i, s)] + r, entry)
  {
  }

  lemma {:induction false} ListPlaces(elems: seq<Json>, i: nat, loc: string, origin: Schema, depth: nat, entry: Placed)
    requires forall k, s ::
               entry(k, s) == Entry(Child(s, origin, Invalid, loc + "[" + Decimal(k) + "]", "items", depth), true)
    ensures EachFrom(elems, i, Places(elems, i), EnterList(elems, i, loc, origin, depth), entry)
    decreases |elems| - i
  {
    if i < |elems| {
      ListPlaces(elems, i + 1, loc, origin, depth, entry);
      EachFromHere(elems, i, Places(elems, i + 1), EnterList(elems, i + 1, loc, origin, depth), entry);
    }
  }

  lemma {:induction false} BranchPlaces(elems: seq<Json>, i: nat, loc: string, common: Frame, entry: Placed)
    requires forall k, s :: entry(k, s) == Entry(common.(node := s, loc := loc + "[" + Decimal(k) + "]"), false)
    ensures EachFrom(elems, i, Places(elems, i), EnterBranches(elems, i, loc, common), entry)
    decreases |elems| - i
  {
    if i < |elems| {
      BranchPlaces(elems, i + 1, loc, common, entry);
      EachFromHere(elems, i, Places(elems, i + 1), EnterBranches(elems, i + 1, loc, common), entry);
    }
  }

  // ---- Section by section ----

  /** A frame of its own: nothing to be reported for a cue on behalf of another. */
  function Own(node: Schema, origin: Schema, instance: Schema, loc: string, propName: string, depth: nat): Frame {
    Frame(node, origin, instance, loc, propName, depth, false, "", "")
  }

  /** A declared property, within the object around it. */
  function DeclaredFrame(f: Frame): Named {
    (n, s) => Entry(Own(s, Invalid, Around(f), f.loc + ".properties." + n, n, f.depth + 1), true)
  }

  function PatternFrame(f: Frame): Named {
    (n, s) => Entry(Own(s, Invalid, Invalid, f.loc + ".patternProperties." + n, n, f.depth + 1), true)
  }

  function AdditionalFrame(f: Frame): Schema -> Entry {
    s => Entry(Own(s, Invalid, Invalid, f.loc + ".additionalProperties", "", f.depth + 1), true)
  }

  /** An item schema, by its place in the list under key; the array's own schema is its origin. */
  function ItemFrame(f: Frame, key: string): Placed {
    (k: nat, s) => Entry(Own(s, Holding(f), Invalid, f.loc + "." + key + "[" + Decimal(k) + "]", "items", f.depth + 1),
                         true)
  }

  function ItemsFrame(f: Frame, key: string): Schema -> Entry {
    s => Entry(Own(s, Holding(f), Invalid, f.loc + "." + key, "items", f.depth + 1), true)
  }

  /** A branch: its cues are reported for the value it is a branch of, if that is reported at all. */
  function BranchFrame(e: Entry, key: string): Placed {
    var f := e.frame;
    (k: nat, s) => Entry(Frame(s, Holding(f), Around(f), f.loc + "." + key + "[" + Decimal(k) + "]", "", f.depth + 1,
                               e.visit || f.inspect, CueSite(f).0, CueSite(f).1), false)
  }

  function DependentFrame(f: Frame): Named {
    (n, s) => Entry(Own(s, Around(f), Around(f), f.loc + ".dependentSchemas." + n, "", f.depth + 1), false)
  }

  function ConditionalFrame(f: Frame, key: string): Schema -> Entry {
    s => Entry(Own(s, Around(f), Around(f), f.loc + "." + key, "", f.depth + 1), false)
  }

  lemma NamedFramesAre(f: Frame, n: string, s: Schema)
    ensures DeclaredFrame(f)(n, s) == MapFrame(f.loc + ".properties.", Invalid, Nested(f), f.depth + 1, true)(n, s)
    ensures PatternFrame(f)(n, s) == MapFrame(f.loc + ".patternProperties.", Invalid, Invalid, f.depth + 1, true)(n, s)
    ensures DependentFrame(f)(n, s)
         == MapFrame(f.loc + ".dependentSchemas.", Nested(f), Nested(f), f.depth + 1, false)(n, s)
  {
  }

  lemma DeclaredFrames(doc: Document, f: Frame, obj: Keywords)
    ensures EachName(PropertySchemas(doc, obj), EnterDeclared(doc, f, obj), DeclaredFrame(f))
  {
    forall n, s
      ensures DeclaredFrame(f)(n, s) == MapFrame(f.loc + ".properties.", Invalid, Nested(f), f.depth + 1, true)(n, s)
    {
      NamedFramesAre(f, n, s);
    }
    MapIsEachName(PropertySchemas(doc, obj), f.loc + ".properties.", Invalid, Nested(f), f.depth + 1, true,
                  DeclaredFrame(f));
  }

  lemma PatternFrames(doc: Document, f: Frame, obj: Keywords)
    ensures EachName(PatternSchemas(doc, obj), EnterPatterns(doc, f, obj), PatternFrame(f))
  {
    forall n, s
      ensures PatternFrame(f)(n, s)
           == MapFrame(f.loc + ".patternProperties.", Invalid, Invalid, f.depth + 1, true)(n, s)
    {
      NamedFramesAre(f, n, s);
    }
    MapIsEachName(PatternSchemas(doc, obj), f.loc + ".patternProperties.", Invalid, Invalid, f.depth + 1, true,
                  PatternFrame(f));
  }

  lemma DependentFrames(doc: Document, f: Frame, obj: Keywords)
    ensures EachName(AsObject(doc, Get(obj, "dependentSchemas")), EnterDependents(doc, f, obj), DependentFrame(f))
  {
    forall n, s
      ensures DependentFrame(f)(n, s)
           == MapFrame(f.loc + ".dependentSchemas.", Nested(f), Nested(f), f.depth + 1, false)(n, s)
    {
      NamedFramesAre(f, n, s);
    }
    MapIsEachName(AsObject(doc, Get(obj, "dependentSchemas")), f.loc + ".dependentSchemas.", Nested(f), Nested(f),
                  f.depth + 1, false, DependentFrame(f));
  }

  /** Each required name that is not declared is entered once, in ascending order, with the schema that governs it. */
  lemma {:induction false} RequiredFrames(doc: Document, f: Frame, id: ObjectId, names: seq<string>)
    ensures var r := EnterUndeclared(doc, f, id, names);
            if id.Undeclared? then r == []
            else |r| == |names| && forall i | 0 <= i < |names| ::
                   r[i] == DeclaredFrame(f)(names[i], UndeclaredSchema(doc, id.index, names[i]))
  {
    if names != [] && id.At? {
      RequiredFrames(doc, f, id, names[1..]);
    }
  }

  lemma ListIsEachPlace(f: Frame, elems: seq<Json>, key: string)
    ensures EachPlace(elems, EnterList(elems, 0, f.loc + "." + key, Constraint(f), f.depth + 1), ItemFrame(f, key))
  {
    var r := EnterList(elems, 0, f.loc + "." + key, Constraint(f), f.depth + 1);
    ListPlaces(elems, 0, f.loc + "." + key, Constraint(f), f.depth + 1, ItemFrame(f, key));
    assert EachAt(elems, Places(elems, 0), r, ItemFrame(f, key));
  }

  lemma Dotted(loc: string)
    ensures loc + "." + "items" == loc + ".items" && loc + "." + "prefixItems" == loc + ".prefixItems"
    ensures loc + "." + "additionalItems" == loc + ".additionalItems"
  {
  }

  lemma ItemListFrames(f: Frame, elems: seq<Json>)
    ensures EachPlace(elems, EnterItemsKeyword(f, Array(elems)), ItemFrame(f, "items"))
  {
    ListIsEachPlace(f, elems, "items");
    Dotted(f.loc);
  }

  lemma ItemFrames(f: Frame, obj: Keywords)
    ensures if Get(obj, "items").Array?
            then EachPlace(Get(obj, "items").elems, EnterItemsKeyword(f, Get(obj, "items")), ItemFrame(f, "items"))
                 && One(Get(obj, "additionalItems"), EnterAdditionalItems(f, obj), ItemsFrame(f, "additionalItems"))
            else One(Get(obj, "items"), EnterItemsKeyword(f, Get(obj, "items")), ItemsFrame(f, "items"))
                 && EnterAdditionalItems(f, obj) == []
  {
    Dotted(f.loc);
    if Get(obj, "items").Array? {
      ItemListFrames(f, Get(obj, "items").elems);
    }
  }

  lemma PrefixFrames(f: Frame, elems: seq<Json>)
    ensures EachPlace(elems, EnterList(elems, 0, f.loc + ".prefixItems", Constraint(f), f.depth + 1),
                      ItemFrame(f, "prefixItems"))
  {
    ListIsEachPlace(f, elems, "prefixItems");
    Dotted(f.loc);
  }

  lemma BranchFrames(e: Entry, obj: Keywords, key: string)
    ensures EachPlace(ListOf(obj, key), EnterComposition(e, obj, key), BranchFrame(e, key))
  {
    var f, elems := e.frame, ListOf(obj, key);
    var common := Frame(Invalid, Holding(f), Around(f), "", "", f.depth + 1, e.visit || f.inspect, CueSite(f).0,
                        CueSite(f).1);
    BranchPlaces(elems, 0, f.loc + "." + key, common, BranchFrame(e, key));
    assert EachAt(elems, Places(elems, 0), EnterBranches(elems, 0, f.loc + "." + key, common), BranchFrame(e, key));
  }

  lemma ConditionalFrames(f: Frame, obj: Keywords, key: string)
    ensures One(Get(obj, key), EnterConditional(f, obj, key), ConditionalFrame(f, key))
  {
  }

  // ---- All of them ----

  /** The sections of an object, in the order in which their frames are entered. */
  datatype Sections = Sections(declared: seq<Entry>, required: seq<Entry>, patterns: seq<Entry>, additional: seq<Entry>,
                               items: seq<Entry>, prefix: seq<Entry>, rest: seq<Entry>, allOf: seq<Entry>,
                               anyOf: seq<Entry>, oneOf: seq<Entry>, dependents: seq<Entry>, thenPart: seq<Entry>,
                               elsePart: seq<Entry>, ifPart: seq<Entry>)

  function InSequence(p: Sections): seq<Entry> {
    (p.declared + p.required + p.patterns + p.additional)
    + ((p.items + p.prefix + p.rest) + (p.allOf + p.anyOf + p.oneOf)
       + (p.dependents + p.thenPart + p.elsePart + p.ifPart))
  }

  ghost predicate PropertySections(doc: Document, f: Frame, id: ObjectId, obj: Keywords, p: Sections) {
    && EachName(AsObject(doc, Get(obj, "properties")), p.declared, DeclaredFrame(f))
    && (exists names :: RequiredInOrder(doc, f, id, obj, names, p.required))
    && EachName(AsObject(doc, Get(obj, "patternProperties")), p.patterns, PatternFrame(f))
    && One(Get(obj, "additionalProperties"), p.additional, AdditionalFrame(f))
  }

  /** The names that are required and not declared, and their entries. */
  ghost predicate RequiredInOrder(doc: Document, f: Frame, id: ObjectId, obj: Keywords, names: seq<string>,
                                  r: seq<Entry>) {
    && Ascending(names)
    && (forall n :: n in names <==> n in RequiredNames(obj) && n !in AsObject(doc, Get(obj, "properties")))
    && if id.Undeclared? then r == []
       else |r| == |names| && forall i | 0 <= i < |names| ::
              r[i] == DeclaredFrame(f)(names[i], UndeclaredSchema(doc, id.index, names[i]))
  }

  ghost predicate ItemSections(f: Frame, obj: Keywords, p: Sections) {
    && (if Get(obj, "items").Array?
        then EachPlace(Get(obj, "items").elems, p.items, ItemFrame(f, "items"))
             && One(Get(obj, "additionalItems"), p.rest, ItemsFrame(f, "additionalItems"))
        else One(Get(obj, "items"), p.items, ItemsFrame(f, "items")) && p.rest == [])
    && EachPlace(ListOf(obj, "prefixItems"), p.prefix, ItemFrame(f, "prefixItems"))
  }

  ghost predicate ValueSections(doc: Document, e: Entry, obj: Keywords, p: Sections) {
    && EachPlace(ListOf(obj, "allOf"), p.allOf, BranchFrame(e, "allOf"))
    && EachPlace(ListOf(obj, "anyOf"), p.anyOf, BranchFrame(e, "anyOf"))
    && EachPlace(ListOf(obj, "oneOf"), p.oneOf, BranchFrame(e, "oneOf"))
    && EachName(AsObject(doc, Get(obj, "dependentSchemas")), p.dependents, DependentFrame(e.frame))
    && One(Get(obj, "then"), p.thenPart, ConditionalFrame(e.frame, "then"))
    && One(Get(obj, "else"), p.elsePart, ConditionalFrame(e.frame, "else"))
    && One(Get(obj, "if"), p.ifPart, ConditionalFrame(e.frame, "if"))
  }

  function SectionsOf(doc: Document, e: Entry, id: ObjectId, obj: Keywords): Sections {
    var f := e.frame;
    Sections(EnterDeclared(doc, f, obj), EnterUndeclared(doc, f, id, RequiredOnly(doc, obj)),
             EnterPatterns(doc, f, obj), EnterAdditional(f, obj), EnterItemsKeyword(f, Get(obj, "items")),
             EnterList(ListOf(obj, "prefixItems"), 0, f.loc + ".prefixItems", Constraint(f), f.depth + 1),
             EnterAdditionalItems(f, obj), EnterComposition(e, obj, "allOf"), EnterComposition(e, obj, "anyOf"),
             EnterComposition(e, obj, "oneOf"), EnterDependents(doc, f, obj), EnterConditional(f, obj, "then"),
             EnterConditional(f, obj, "else"), EnterConditional(f, obj, "if"))
  }

  lemma SectionsInOrder(doc: Document, e: Entry, id: ObjectId, obj: Keywords)
    requires e.frame.node == Node(id) && obj == KeywordsOf(doc, id)
    ensures Applicators(doc, e) == InSequence(SectionsOf(doc, e, id, obj))
  {
    RestInOrder(doc, e, id, obj);
  }

  lemma NothingMore(a: seq<Entry>)
    ensures a + [] == a
  {
  }

  lemma FourInOrder(a: seq<Entry>, b: seq<Entry>, c: seq<Entry>, d: seq<Entry>, depth: nat, builds: bool)
    requires AllDescend(a, depth, builds) && AllDescend(b, depth, builds)
    requires AllDescend(c, depth, builds) && AllDescend(d, depth, builds)
    ensures InOrder(a, b, c, d, depth, builds) == if d == [] then a + b + c else a + b + c + d
  {
    NothingMore(a + b + c);
  }

  lemma CompositionsInOrder(e: Entry, obj: Keywords)
    ensures EnterCompositions(e, obj)
         == EnterComposition(e, obj, "allOf") + EnterComposition(e, obj, "anyOf") + EnterComposition(e, obj, "oneOf")
  {
    FourInOrder(EnterComposition(e, obj, "allOf"), EnterComposition(e, obj, "anyOf"),
                EnterComposition(e, obj, "oneOf"), [], e.frame.depth + 1, false);
  }

  lemma ThreeInOrder(doc: Document, e: Entry, obj: Keywords)
    ensures EnterRest(doc, e, obj)
         == EnterItems(e.frame, obj) + EnterCompositions(e, obj) + EnterConditionals(doc, e.frame, obj)
  {
    FourInOrder(EnterItems(e.frame, obj), EnterCompositions(e, obj), EnterConditionals(doc, e.frame, obj), [],
                e.frame.depth + 1, false);
  }

  lemma RestInOrder(doc: Document, e: Entry, id: ObjectId, obj: Keywords)
    ensures var p := SectionsOf(doc, e, id, obj);
            EnterRest(doc, e, obj)
            == (p.items + p.prefix + p.rest) + (p.allOf + p.anyOf + p.oneOf)
               + (p.dependents + p.thenPart + p.elsePart + p.ifPart)
  {
    ThreeInOrder(doc, e, obj);
    CompositionsInOrder(e, obj);
  }

  lemma PropertySectionsHold(doc: Document, e: Entry, id: ObjectId, obj: Keywords)
    ensures PropertySections(doc, e.frame, id, obj, SectionsOf(doc, e, id, obj))
  {
    var f := e.frame;
    DeclaredFrames(doc, f, obj);
    PatternFrames(doc, f, obj);
    RequiredHold(doc, f, id, obj, RequiredOnly(doc, obj));
  }

  lemma RequiredHold(doc: Document, f: Frame, id: ObjectId, obj: Keywords, names: seq<string>)
    requires names == RequiredOnly(doc, obj)
    ensures RequiredInOrder(doc, f, id, obj, names, EnterUndeclared(doc, f, id, names))
  {
    RequiredFrames(doc, f, id, names);
  }

  lemma ItemSectionsHold(doc: Document, e: Entry, id: ObjectId, obj: Keywords)
    ensures ItemSections(e.frame, obj, SectionsOf(doc, e, id, obj))
  {
    var f := e.frame;
    ItemFrames(f, obj);
    PrefixFrames(f, ListOf(obj, "prefixItems"));
  }

  lemma ValueSectionsHold(doc: Document, e: Entry, id: ObjectId, obj: Keywords)
    ensures ValueSections(doc, e, obj, SectionsOf(doc, e, id, obj))
  {
    BranchFrames(e, obj, "allOf");
    BranchFrames(e, obj, "anyOf");
    BranchFrames(e, obj, "oneOf");
    DependentFrames(doc, e.frame, obj);
    ConditionalFrames(e.frame, obj, "then");
    ConditionalFrames(e.frame, obj, "else");
    ConditionalFrames(e.frame, obj, "if");
  }

  /** The sections of an object, each with one frame for every schema it holds. */
  ghost predicate AllSections(doc: Document, e: Entry, id: ObjectId, obj: Keywords, p: Sections) {
    && PropertySections(doc, e.frame, id, obj, p) && ItemSections(e.frame, obj, p)
    && ValueSections(doc, e, obj, p)
  }

  /** The target of the frame's reference is entered in its own place, one level down. */
  ghost predicate FollowedInPlace(e: Entry) {
    forall target ::
      var f := e.frame;
      RefEntry(e, target)
      == Entry(Frame(target, Holding(f), f.instance, f.loc, f.propName, f.depth + 1, f.inspect, f.cueLoc, f.cueName),
               e.visit)
  }

  /** The frame is reported at its own place if entered for its own sake; if it is a branch of a value that is
      inspected, at the place and under the name of that value; otherwise not at all. */
  ghost predicate ReportedInPlace(e: Entry) {
    var f := e.frame;
    ReportsOf(e)
    == if e.visit then [Report(f.loc, f.propName, f.node, Holding(f), f.instance)]
       else if f.inspect then [Report(CueSite(f).0, CueSite(f).1, f.node, Holding(f), f.instance)]
       else []
  }

  lemma InPlace(e: Entry)
    ensures FollowedInPlace(e) && ReportedInPlace(e)
  {
  }

  ghost predicate EnteredInSections(doc: Document, e: Entry, id: ObjectId, obj: Keywords) {
    exists p :: AllSections(doc, e, id, obj, p) && Applicators(doc, e) == InSequence(p)
  }

  lemma SectionsEntered(doc: Document, e: Entry, id: ObjectId, obj: Keywords)
    requires e.frame.node == Node(id) && obj == KeywordsOf(doc, id)
    ensures EnteredInSections(doc, e, id, obj)
  {
    PropertySectionsHold(doc, e, id, obj);
    ItemSectionsHold(doc, e, id, obj);
    ValueSectionsHold(doc, e, id, obj);
    SectionsInOrder(doc, e, id, obj);
  }

  /** What is entered from an object: section after section, each with one frame for every schema it holds; and the
      target of its reference. And what is reported of the object itself. */
  lemma FramesExactly(doc: Document, e: Entry, id: ObjectId, obj: Keywords)
    requires e.frame.node == Node(id) && obj == KeywordsOf(doc, id)
    ensures EnteredInSections(doc, e, id, obj) && FollowedInPlace(e) && ReportedInPlace(e)
  {
    SectionsEntered(doc, e, id, obj);
    InPlace(e);
  }
}
