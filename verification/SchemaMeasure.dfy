/** Documents the evaluator explores without its guards ever cutting in: no cycle through references and applicators but
    those of properties, no deeper nesting of them than the depth bound has room for, and no more nodes below any node,
    counted once for every way to them, than the budget. */
module SchemaMeasure {
  import opened JsonDocument
  import opened JsonPointer
  import opened SchemaKeywords

  const MAX_CONSTRAINT_DEPTH := 32
  const MAX_VISITED_NODES := 256

  /** The levels below a node, and the nodes. */
  datatype Measure = Measure(rank: Schema -> nat, cost: Schema -> nat)

  function CostAll(m: Measure, ss: seq<Schema>): nat {
    if ss == [] then 0 else CostAll(m, ss[..|ss| - 1]) + m.cost(ss[|ss| - 1])
  }

  function ItemCosts(m: Measure, items: seq<Json>): nat {
    if items == [] then 0 else ItemCosts(m, items[..|items| - 1]) + m.cost(AsSchema(items[|items| - 1]))
  }

  /** The schemas of the positions after the prefix. */
  function LaterItems(obj: Keywords): seq<Json> {
    match Get(obj, "items")
    case Null => []
    case Array(elems) => elems + (if "additionalItems" in obj then [obj["additionalItems"]] else [])
    case items => [items]
  }

  function ItemsOf(obj: Keywords): seq<Json> { PrefixItems(obj) + LaterItems(obj) }

  /** What is looked at from one object without leaving the value. */
  ghost predicate Under(doc: Document, obj: Keywords, s: Schema) {
    && !s.Invalid?
    && (|| s in Branches(obj, "allOf") || s in Branches(obj, "anyOf") || s in Branches(obj, "oneOf")
        || s in RequiredDependents(doc, obj) || s == RefTarget(doc, obj)
        || exists j | j in ItemsOf(obj) :: AsSchema(j) == s)
  }

  function DisjunctCosts(m: Measure, obj: Keywords): nat {
    CostAll(m, Branches(obj, "anyOf")) + CostAll(m, Branches(obj, "oneOf"))
  }

  function CompositionCosts(m: Measure, obj: Keywords): nat {
    CostAll(m, Branches(obj, "allOf")) + DisjunctCosts(m, obj)
  }

  /** Of those applied to the object itself. */
  function InPlaceCosts(doc: Document, m: Measure, obj: Keywords): nat {
    m.cost(RefTarget(doc, obj)) + CompositionCosts(m, obj) + CostAll(m, RequiredDependents(doc, obj))
  }

  function CostsUnder(doc: Document, m: Measure, obj: Keywords): nat {
    InPlaceCosts(doc, m, obj) + ItemCosts(m, ItemsOf(obj))
  }

  ghost predicate FitsAt(doc: Document, m: Measure, id: ObjectId) {
    var obj := KeywordsOf(doc, id);
    && (forall s | Under(doc, obj, s) :: m.rank(s) < m.rank(Node(id)))
    && 1 + CostsUnder(doc, m, obj) <= m.cost(Node(id))
  }

  ghost predicate Bounded(m: Measure) {
    forall s :: 2 * m.rank(s) + 2 <= MAX_CONSTRAINT_DEPTH
                && (s.Invalid? || m.cost(s) >= 1) && m.cost(s) <= MAX_VISITED_NODES
  }

  ghost predicate Fits(doc: Document, m: Measure) { Bounded(m) && forall id :: FitsAt(doc, m, id) }

  /** A document with such a measure. */
  ghost predicate Tame(doc: Document) { exists m :: Fits(doc, m) }

  ghost function MeasureOf(doc: Document): (m: Measure)
    ensures Tame(doc) ==> Fits(doc, m)
  {
    if Tame(doc) then var m :| Fits(doc, m); m else Measure(s => 0, s => 0)
  }

  // ---- Where no guard cuts in ----

  /** There is room for what is below s at this depth, and no reference being followed leads below s. */
  ghost predicate Clear(doc: Document, m: Measure, refs: set<string>, s: Schema, depth: nat) {
    && Fits(doc, m) && depth + 2 * m.rank(s) + 2 <= MAX_CONSTRAINT_DEPTH
    && forall r | r in refs :: !Resolve(doc, r).Invalid? && m.rank(Resolve(doc, r)) >= m.rank(s)
  }

  ghost predicate AllClear(doc: Document, m: Measure, refs: set<string>, ss: seq<Schema>, depth: nat) {
    forall s | s in ss :: Clear(doc, m, refs, s, depth)
  }

  ghost predicate ItemsClear(doc: Document, m: Measure, refs: set<string>, items: seq<Json>, depth: nat) {
    forall j | j in items && !AsSchema(j).Invalid? :: Clear(doc, m, refs, AsSchema(j), depth)
  }

  ghost predicate ClearUnder(doc: Document, m: Measure, refs: set<string>, obj: Keywords, depth: nat) {
    && Fits(doc, m) && depth + 2 <= MAX_CONSTRAINT_DEPTH && (forall r | r in refs :: !Resolve(doc, r).Invalid?)
    && forall s | Under(doc, obj, s) ::
         && depth + 2 * m.rank(s) + 4 <= MAX_CONSTRAINT_DEPTH
         && forall r | r in refs :: m.rank(Resolve(doc, r)) > m.rank(s)
  }

  lemma ClearObject(doc: Document, m: Measure, refs: set<string>, id: ObjectId, depth: nat)
    ensures Clear(doc, m, refs, Node(id), depth) ==> ClearUnder(doc, m, refs, KeywordsOf(doc, id), depth)
  {
    if Fits(doc, m) { assert FitsAt(doc, m, id); }
  }

  lemma SomeClear(doc: Document, m: Measure, refs: set<string>, obj: Keywords, depth: nat, ss: seq<Schema>, d: nat)
    requires ClearUnder(doc, m, refs, obj, depth) && depth < d <= depth + 2
    requires forall s | s in ss :: Under(doc, obj, s)
    ensures AllClear(doc, m, refs, ss, d)
  {
  }

  lemma ClearParts(doc: Document, m: Measure, refs: set<string>, obj: Keywords, depth: nat)
    requires ClearUnder(doc, m, refs, obj, depth)
    ensures forall d | depth < d <= depth + 2 ::
              && AllClear(doc, m, refs, Branches(obj, "allOf"), d) && AllClear(doc, m, refs, Branches(obj, "anyOf"), d)
              && AllClear(doc, m, refs, Branches(obj, "oneOf"), d)
              && AllClear(doc, m, refs, RequiredDependents(doc, obj), d)
  {
    forall d | depth < d <= depth + 2
      ensures AllClear(doc, m, refs, Branches(obj, "allOf"), d) && AllClear(doc, m, refs, Branches(obj, "anyOf"), d)
      ensures AllClear(doc, m, refs, Branches(obj, "oneOf"), d)
      ensures AllClear(doc, m, refs, RequiredDependents(doc, obj), d)
    {
      SomeClear(doc, m, refs, obj, depth, Branches(obj, "allOf"), d);
      SomeClear(doc, m, refs, obj, depth, Branches(obj, "anyOf"), d);
      SomeClear(doc, m, refs, obj, depth, Branches(obj, "oneOf"), d);
      SomeClear(doc, m, refs, obj, depth, RequiredDependents(doc, obj), d);
    }
  }

  lemma SomeItemsClear(doc: Document, m: Measure, refs: set<string>, obj: Keywords, depth: nat, items: seq<Json>)
    requires ClearUnder(doc, m, refs, obj, depth) && forall j | j in items :: j in ItemsOf(obj)
    ensures ItemsClear(doc, m, refs, items, depth + 1)
  {
  }

  lemma ClearItems(doc: Document, m: Measure, refs: set<string>, obj: Keywords, depth: nat)
    requires ClearUnder(doc, m, refs, obj, depth)
    ensures ItemsClear(doc, m, refs, PrefixItems(obj), depth + 1)
    ensures match Get(obj, "items")
            case Null => true
            case Array(elems) =>
              ItemsClear(doc, m, refs, elems, depth + 1)
              && ("additionalItems" in obj ==> ItemsClear(doc, m, refs, [obj["additionalItems"]], depth + 1))
            case items => ItemsClear(doc, m, refs, [items], depth + 1)
  {
    SomeItemsClear(doc, m, refs, obj, depth, PrefixItems(obj));
    match Get(obj, "items")
    case Null =>
    case Array(elems) =>
      SomeItemsClear(doc, m, refs, obj, depth, elems);
      if "additionalItems" in obj { SomeItemsClear(doc, m, refs, obj, depth, [obj["additionalItems"]]); }
    case items => SomeItemsClear(doc, m, refs, obj, depth, [items]);
  }

  lemma ClearReference(doc: Document, m: Measure, refs: set<string>, obj: Keywords, ref: string, depth: nat)
    requires ClearUnder(doc, m, refs, obj, depth) && Get(obj, "$ref") == String(ref)
    ensures ref !in refs
    ensures !Resolve(doc, ref).Invalid? ==> Clear(doc, m, refs + {ref}, Resolve(doc, ref), depth + 1)
  {
    if !Resolve(doc, ref).Invalid? { assert Under(doc, obj, Resolve(doc, ref)); }
  }

  // ---- Adding up ----

  lemma {:induction false} CostSoFar(m: Measure, ss: seq<Schema>, i: nat)
    requires i < |ss|
    ensures CostAll(m, ss[..i]) + m.cost(ss[i]) == CostAll(m, ss[..i + 1]) <= CostAll(m, ss)
    decreases |ss|
  {
    assert ss[..i + 1][..i] == ss[..i];
    if i + 1 == |ss| {
      assert ss[..i + 1] == ss;
    } else {
      CostSoFar(m, ss[..|ss| - 1], i);
      assert ss[..|ss| - 1][..i + 1] == ss[..i + 1];
    }
  }

  lemma {:induction false} ItemCostSoFar(m: Measure, items: seq<Json>, i: nat)
    requires i < |items|
    ensures ItemCosts(m, items[..i]) + m.cost(AsSchema(items[i])) == ItemCosts(m, items[..i + 1]) <= ItemCosts(m, items)
    decreases |items|
  {
    assert items[..i + 1][..i] == items[..i];
    if i + 1 == |items| {
      assert items[..i + 1] == items;
    } else {
      ItemCostSoFar(m, items[..|items| - 1], i);
      assert items[..|items| - 1][..i + 1] == items[..i + 1];
    }
  }

  lemma CostOneMore(m: Measure, ss: seq<Schema>, s: Schema)
    ensures CostAll(m, ss + [s]) == CostAll(m, ss) + m.cost(s)
  {
    assert (ss + [s])[..|ss|] == ss;
  }

  lemma ItemCostOneMore(m: Measure, items: seq<Json>, j: Json)
    ensures ItemCosts(m, items + [j]) == ItemCosts(m, items) + m.cost(AsSchema(j))
  {
    assert (items + [j])[..|items|] == items;
  }

  lemma {:induction false} ItemCostsConcat(m: Measure, a: seq<Json>, b: seq<Json>)
    ensures ItemCosts(m, a + b) == ItemCosts(m, a) + ItemCosts(m, b)
  {
    if b == [] {
      assert a + b == a;
    } else {
      ItemCostsConcat(m, a, b[..|b| - 1]);
      assert (a + b)[..|a + b| - 1] == a + b[..|b| - 1];
    }
  }
}
