/** The evaluator's guards, and when in a document with a measure none of them cuts in. */
module EvaluatorGuards {
  import opened JsonDocument
  import opened JsonPointer
  import opened SchemaKeywords
  import opened SchemaMeasure

  /** The identities under which a node is remembered or guarded. */
  datatype Visit =
    | Searching(id: ObjectId, kind: Kind, arrayCtx: bool)
    | Inspecting(id: ObjectId, name: string, kind: Kind)
    | Applying(id: ObjectId, name: string)

  /** No node being explored is at or below the level of s. */
  ghost predicate Free(m: Measure, active: set<Visit>, s: Schema) {
    forall v | v in active :: m.rank(Node(v.id)) > m.rank(s)
  }

  /** The guards as they stand. */
  datatype Guards = Guards(active: set<Visit>, refs: set<string>, visited: nat)

  ghost predicate Affords(m: Measure, g: Guards, costs: nat) { g.visited + costs <= MAX_VISITED_NODES }

  /** No guard will cut in below s. */
  ghost predicate Ready(doc: Document, m: Measure, g: Guards, s: Schema, depth: nat) {
    Clear(doc, m, g.refs, s, depth) && Free(m, g.active, s) && Affords(m, g, m.cost(s))
  }

  ghost predicate AllReady(doc: Document, m: Measure, g: Guards, ss: seq<Schema>, depth: nat) {
    && Fits(doc, m) && AllClear(doc, m, g.refs, ss, depth) && (forall s | s in ss :: Free(m, g.active, s))
    && Affords(m, g, CostAll(m, ss))
  }

  ghost predicate ItemsReady(doc: Document, m: Measure, g: Guards, items: seq<Json>, depth: nat) {
    && Fits(doc, m) && ItemsClear(doc, m, g.refs, items, depth)
    && (forall j | j in items && !AsSchema(j).Invalid? :: Free(m, g.active, AsSchema(j)))
    && Affords(m, g, ItemCosts(m, items))
  }

  /** Nor below the object, for the part of it that costs this much. */
  ghost predicate ReadyUnder(doc: Document, m: Measure, g: Guards, obj: Keywords, depth: nat, costs: nat) {
    && ClearUnder(doc, m, g.refs, obj, depth) && (forall s | Under(doc, obj, s) :: Free(m, g.active, s))
    && Affords(m, g, costs)
  }

  lemma ReadyObject(doc: Document, m: Measure, g: Guards, visit: Visit, depth: nat)
    requires Ready(doc, m, g, Node(visit.id), depth)
    ensures var obj := KeywordsOf(doc, visit.id);
            ReadyUnder(doc, m, Guards(g.active + {visit}, g.refs, g.visited + 1), obj, depth, CostsUnder(doc, m, obj))
  {
    ClearObject(doc, m, g.refs, visit.id, depth);
    FreeObject(doc, m, g.active, visit);
  }

  lemma CostsFit(doc: Document, m: Measure, id: ObjectId)
    ensures Fits(doc, m) ==> 1 + CostsUnder(doc, m, KeywordsOf(doc, id)) <= m.cost(Node(id))
  {
    if Fits(doc, m) { assert FitsAt(doc, m, id); }
  }

  /** A question of its own starts with all the room there is. */
  lemma FreshIsReady(doc: Document, m: Measure, s: Schema)
    ensures Fits(doc, m) ==> Ready(doc, m, Guards({}, {}, 0), s, 0)
  {
  }

  lemma FreeObject(doc: Document, m: Measure, active: set<Visit>, visit: Visit)
    requires Fits(doc, m) && Free(m, active, Node(visit.id))
    ensures forall s | Under(doc, KeywordsOf(doc, visit.id), s) :: Free(m, active + {visit}, s)
    ensures 1 + CostsUnder(doc, m, KeywordsOf(doc, visit.id)) <= m.cost(Node(visit.id))
  {
    assert FitsAt(doc, m, visit.id);
  }

  /** One of the lists of schemas applied to the object itself. */
  ghost predicate InPlace(doc: Document, obj: Keywords, branches: seq<Schema>) {
    || branches == Branches(obj, "allOf") || branches == Branches(obj, "anyOf") || branches == Branches(obj, "oneOf")
    || branches == RequiredDependents(doc, obj)
  }

  lemma ReadyBranches(doc: Document, m: Measure, g: Guards, obj: Keywords, depth: nat, branches: seq<Schema>,
                      costs: nat)
    requires ReadyUnder(doc, m, g, obj, depth, costs) && costs >= CostAll(m, branches)
    requires InPlace(doc, obj, branches)
    ensures AllReady(doc, m, g, branches, depth + 1)
  {
    ClearParts(doc, m, g.refs, obj, depth);
    assert Invalid !in branches;
  }

  lemma ReadyItems(doc: Document, m: Measure, g: Guards, obj: Keywords, depth: nat, items: seq<Json>, costs: nat)
    requires ReadyUnder(doc, m, g, obj, depth, costs) && costs >= ItemCosts(m, items)
    requires forall j | j in items :: j in ItemsOf(obj)
    ensures ItemsReady(doc, m, g, items, depth + 1)
  {
    SomeItemsClear(doc, m, g.refs, obj, depth, items);
  }

  lemma ReadyReference(doc: Document, m: Measure, g: Guards, obj: Keywords, ref: string, depth: nat, costs: nat)
    requires ReadyUnder(doc, m, g, obj, depth, costs) && Get(obj, "$ref") == String(ref)
    requires costs >= m.cost(Resolve(doc, ref))
    ensures ref !in g.refs
    ensures !Resolve(doc, ref).Invalid? ==> Ready(doc, m, g.(refs := g.refs + {ref}), Resolve(doc, ref), depth + 1)
  {
    ClearReference(doc, m, g.refs, obj, ref, depth);
    if !Resolve(doc, ref).Invalid? { assert Under(doc, obj, Resolve(doc, ref)); }
  }

  lemma ReadyNext(doc: Document, m: Measure, g: Guards, ss: seq<Schema>, depth: nat, i: nat, visited: nat)
    requires AllReady(doc, m, g, ss, depth) && i < |ss| && visited <= g.visited + CostAll(m, ss[..i])
    ensures Ready(doc, m, g.(visited := visited), ss[i], depth)
    ensures visited + m.cost(ss[i]) <= g.visited + CostAll(m, ss[..i + 1])
  {
    CostSoFar(m, ss, i);
  }

  lemma ReadyStill(doc: Document, m: Measure, g: Guards, obj: Keywords, depth: nat, costs: nat, now: Guards, part: nat)
    requires ReadyUnder(doc, m, g, obj, depth, costs)
    requires now.active == g.active && now.refs == g.refs && now.visited + part <= g.visited + costs
    ensures ReadyUnder(doc, m, now, obj, depth, part)
  {
  }

  lemma StillReady(doc: Document, m: Measure, g: Guards, obj: Keywords, depth: nat, costs: nat, now: Guards,
                   branches: seq<Schema>)
    requires ReadyUnder(doc, m, g, obj, depth, costs) && now.active == g.active && now.refs == g.refs
    requires now.visited + CostAll(m, branches) <= g.visited + costs
    requires InPlace(doc, obj, branches)
    ensures AllReady(doc, m, now, branches, depth + 1)
  {
    ReadyStill(doc, m, g, obj, depth, costs, now, CostAll(m, branches));
    ReadyBranches(doc, m, now, obj, depth, branches, CostAll(m, branches));
  }

  lemma NotBeingExplored(doc: Document, m: Measure, g: Guards, visit: Visit, depth: nat)
    requires Ready(doc, m, g, Node(visit.id), depth)
    ensures visit !in g.active && g.visited < MAX_VISITED_NODES && depth < MAX_CONSTRAINT_DEPTH
  {
    assert FitsAt(doc, m, visit.id);
  }

  function SchemasOf(items: seq<Json>): (ss: seq<Schema>)
    ensures |ss| == |items| && forall i | 0 <= i < |items| :: ss[i] == AsSchema(items[i])
  {
    if items == [] then [] else SchemasOf(items[..|items| - 1]) + [AsSchema(items[|items| - 1])]
  }

  lemma SchemasOneMore(items: seq<Json>, j: Json)
    ensures SchemasOf(items + [j]) == SchemasOf(items) + [AsSchema(j)]
  {
    assert (items + [j])[..|items|] == items;
  }

  lemma {:induction false} CostsOf(m: Measure, items: seq<Json>)
    ensures CostAll(m, SchemasOf(items)) == ItemCosts(m, items)
  {
    if items != [] {
      var front := items[..|items| - 1];
      CostsOf(m, front);
      CostOneMore(m, SchemasOf(front), AsSchema(items[|items| - 1]));
    }
  }

  lemma KeptReady(doc: Document, m: Measure, g: Guards, items: seq<Json>, depth: nat, kept: seq<Json>)
    requires ItemsReady(doc, m, g, items, depth) && ItemCosts(m, kept) <= ItemCosts(m, items)
    requires forall j | j in kept :: j in items && !AsSchema(j).Invalid?
    ensures AllReady(doc, m, g, SchemasOf(kept), depth)
  {
    CostsOf(m, kept);
    forall s | s in SchemasOf(kept) ensures Clear(doc, m, g.refs, s, depth) && Free(m, g.active, s) {
      var i :| 0 <= i < |kept| && s == AsSchema(kept[i]);
      assert kept[i] in items;
    }
  }

  lemma LaterOfList(m: Measure, obj: Keywords, elems: seq<Json>)
    requires Get(obj, "items") == Array(elems)
    ensures forall j | j in elems :: j in LaterItems(obj)
    ensures "additionalItems" in obj ==>
            && obj["additionalItems"] in LaterItems(obj)
            && ItemCosts(m, LaterItems(obj)) == ItemCosts(m, elems) + m.cost(AsSchema(obj["additionalItems"]))
    ensures "additionalItems" !in obj ==> LaterItems(obj) == elems
  {
    if "additionalItems" in obj { ItemCostOneMore(m, elems, obj["additionalItems"]); }
  }

  lemma TailReady(doc: Document, m: Measure, g: Guards, items: seq<Json>, depth: nat, tail: Json, visited: nat)
    requires ItemsReady(doc, m, g, items, depth) && tail in items && !AsSchema(tail).Invalid?
    requires visited + m.cost(AsSchema(tail)) <= g.visited + ItemCosts(m, items)
    ensures Ready(doc, m, g.(visited := visited), AsSchema(tail), depth)
  {
  }

  lemma FewerItemsReady(doc: Document, m: Measure, g: Guards, items: seq<Json>, depth: nat, some: seq<Json>)
    requires ItemsReady(doc, m, g, items, depth) && ItemCosts(m, some) <= ItemCosts(m, items)
    requires forall j | j in some :: j in items
    ensures ItemsReady(doc, m, g, some, depth)
  {
  }
}
