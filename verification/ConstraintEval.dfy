/** The evaluator the program runs: the recursion of ConstraintSearch with a memo, cycle guards,
    a depth bound and a node budget. Two facts hold of every question it answers. Whatever it
    claims, the unbounded recursion establishes. And unless some guard cut the exploration short
    (recorded in the ghost field cut), whatever it denies, the unbounded recursion cannot establish.
    In a document with a measure (SchemaMeasure) none does. */
module ConstraintEvaluator {
  import opened Text
  import opened JsonDocument
  import opened JsonPointer
  import opened SchemaKeywords
  import opened SchemaMeasure
  import opened EvaluatorGuards
  import opened ConstraintSearch

  class ConstraintEval {
    const doc: Document
    ghost const m: Measure
    var memo: set<Visit>
    var active: set<Visit>
    var activeRefs: set<string>
    var visited: nat
    ghost var cut: bool

    /** Everything remembered was found. */
    ghost predicate Valid()
      reads this
    {
      forall m | m in memo :: m.Searching? && Finds(doc, Node(m.id), m.kind, m.arrayCtx, true)
    }

    constructor (doc: Document, ghost m: Measure)
      ensures this.doc == doc && this.m == m && Valid() && !cut
      ensures memo == {} && active == {} && activeRefs == {} && visited == 0
    {
      this.doc, this.m := doc, m;
      memo, active, activeRefs, visited, cut := {}, {}, {}, 0, false;
    }

    /** What every question leaves behind: guards as they were, counters and memo only grown. */
    twostate predicate Kept()
      reads this
    {
      && active == old(active)
      && activeRefs == old(activeRefs)
      && old(memo) <= memo
      && old(visited) <= visited
      && (old(cut) ==> cut)
    }

    ghost function Now(): Guards
      reads this
    {
      Guards(active, activeRefs, visited)
    }

    // ---- Viability ----

    method ViableForKind(node: Schema, depth: nat) returns (viable: bool)
      modifies this`activeRefs, this`cut
      ensures activeRefs == old(activeRefs) && (old(cut) ==> cut)
      ensures !viable ==> Barren(doc, node)
      ensures viable && !cut ==> !Barren(doc, node)
      ensures Clear(doc, m, old(activeRefs), node, depth) ==> cut == old(cut)
      decreases MAX_CONSTRAINT_DEPTH - depth, 2
    {
      if depth >= MAX_CONSTRAINT_DEPTH {
        cut := true;
        return true;
      }
      match node
      case Always => return true;
      case Never => return false;
      case Invalid => return false;
      case Node(id) =>
        var obj := KeywordsOf(doc, id);
        var types := DeclaredTypes(obj);
        if types != [] && !AcceptsStringLike(types) {
          return false;
        }
        ClearObject(doc, m, activeRefs, id, depth);
        viable := AllViable(obj, depth);
        if !viable {
          return false;
        }
        viable := DisjunctionsViable(obj, depth);
        if !viable {
          return false;
        }
        viable := ReferenceViable(obj, depth);
        if !viable {
          return false;
        }
        viable := ArrayElementsViable(obj, depth);
    }

    /** The allOf keyword of viableForKind: every branch must be viable. */
    method AllViable(obj: Keywords, depth: nat) returns (viable: bool)
      requires depth < MAX_CONSTRAINT_DEPTH
      modifies this`activeRefs, this`cut
      ensures activeRefs == old(activeRefs) && (old(cut) ==> cut)
      ensures !viable ==> BarrenSome(doc, Branches(obj, "allOf"))
      ensures viable && !cut ==> !BarrenSome(doc, Branches(obj, "allOf"))
      ensures ClearUnder(doc, m, old(activeRefs), obj, depth) ==> cut == old(cut)
      decreases MAX_CONSTRAINT_DEPTH - depth, 1
    {
      var allOf := Branches(obj, "allOf");
      if ClearUnder(doc, m, activeRefs, obj, depth) { ClearParts(doc, m, activeRefs, obj, depth); }
      for i := 0 to |allOf|
        invariant activeRefs == old(activeRefs) && (old(cut) ==> cut)
        invariant !cut ==> forall j | 0 <= j < i :: !Barren(doc, allOf[j])
        invariant ClearUnder(doc, m, old(activeRefs), obj, depth) ==> cut == old(cut)
      {
        var v := ViableForKind(allOf[i], depth + 1);
        if !v {
          return false;
        }
      }
      viable := true;
    }

    /** Both disjunctions of viableForKind. */
    method DisjunctionsViable(obj: Keywords, depth: nat) returns (viable: bool)
      requires depth < MAX_CONSTRAINT_DEPTH
      modifies this`activeRefs, this`cut
      ensures activeRefs == old(activeRefs) && (old(cut) ==> cut)
      ensures !viable ==> BarrenEvery(doc, Branches(obj, "anyOf")) || BarrenEvery(doc, Branches(obj, "oneOf"))
      ensures viable && !cut ==> !BarrenEvery(doc, Branches(obj, "anyOf")) && !BarrenEvery(doc, Branches(obj, "oneOf"))
      ensures ClearUnder(doc, m, old(activeRefs), obj, depth) ==> cut == old(cut)
      decreases MAX_CONSTRAINT_DEPTH - depth, 1
    {
      if ClearUnder(doc, m, activeRefs, obj, depth) { ClearParts(doc, m, activeRefs, obj, depth); }
      viable := DisjunctionViable(Branches(obj, "anyOf"), depth);
      if viable {
        viable := DisjunctionViable(Branches(obj, "oneOf"), depth);
      }
    }

    /** The $ref keyword of viableForKind; one being followed, or that leads nowhere, says nothing. */
    method ReferenceViable(obj: Keywords, depth: nat) returns (viable: bool)
      requires depth < MAX_CONSTRAINT_DEPTH
      modifies this`activeRefs, this`cut
      ensures activeRefs == old(activeRefs) && (old(cut) ==> cut)
      ensures !viable ==> !RefTarget(doc, obj).Invalid? && Barren(doc, RefTarget(doc, obj))
      ensures viable && !cut ==> RefTarget(doc, obj).Invalid? || !Barren(doc, RefTarget(doc, obj))
      ensures ClearUnder(doc, m, old(activeRefs), obj, depth) ==> cut == old(cut)
      decreases MAX_CONSTRAINT_DEPTH - depth, 1
    {
      viable := true;
      var ref := Get(obj, "$ref");
      if ref.String? {
        if ClearUnder(doc, m, activeRefs, obj, depth) { ClearReference(doc, m, activeRefs, obj, ref.text, depth); }
        if ref.text in activeRefs {
          cut := true;
          return;
        }
        var target := ResolveLocalRef(doc, ref.text);
        if !target.Invalid? {
          activeRefs := activeRefs + {ref.text};
          viable := ViableForKind(target, depth + 1);
          activeRefs := activeRefs - {ref.text};
        }
      }
    }

    /** One anyOf or oneOf keyword of viableForKind: some branch must be viable. */
    method DisjunctionViable(branches: seq<Schema>, depth: nat) returns (viable: bool)
      requires depth < MAX_CONSTRAINT_DEPTH
      modifies this`activeRefs, this`cut
      ensures activeRefs == old(activeRefs) && (old(cut) ==> cut)
      ensures !viable ==> BarrenEvery(doc, branches)
      ensures viable && !cut ==> !BarrenEvery(doc, branches)
      ensures AllClear(doc, m, old(activeRefs), branches, depth + 1) ==> cut == old(cut)
      decreases MAX_CONSTRAINT_DEPTH - depth, 0
    {
      if |branches| == 0 {
        return true;
      }
      for i := 0 to |branches|
        invariant activeRefs == old(activeRefs) && (old(cut) ==> cut)
        invariant forall j | 0 <= j < i :: Barren(doc, branches[j])
        invariant AllClear(doc, m, old(activeRefs), branches, depth + 1) ==> cut == old(cut)
      {
        viable := ViableForKind(branches[i], depth + 1);
        if viable {
          return true;
        }
      }
      viable := false;
    }

    /** Whether some entry of an item list can carry a value: one that is no schema counts as able to. */
    method SomeItemViable(items: seq<Json>, depth: nat) returns (viable: bool)
      requires depth < MAX_CONSTRAINT_DEPTH
      modifies this`activeRefs, this`cut
      ensures activeRefs == old(activeRefs) && (old(cut) ==> cut)
      ensures !viable ==> BarrenElements(doc, Some(items))
      ensures viable && !cut ==> !BarrenElements(doc, Some(items))
      ensures ItemsClear(doc, m, old(activeRefs), items, depth + 1) ==> cut == old(cut)
      decreases MAX_CONSTRAINT_DEPTH - depth, 0
    {
      for i := 0 to |items|
        invariant activeRefs == old(activeRefs) && (old(cut) ==> cut)
        invariant forall j | 0 <= j < i :: !AsSchema(items[j]).Invalid? && Barren(doc, AsSchema(items[j]))
        invariant ItemsClear(doc, m, old(activeRefs), items, depth + 1) ==> cut == old(cut)
      {
        var child := AsSchema(items[i]);
        if child.Invalid? {
          return true;
        }
        viable := ViableForKind(child, depth + 1);
        if viable {
          return true;
        }
      }
      viable := false;
    }

    method ArrayElementsViable(obj: Keywords, depth: nat) returns (viable: bool)
      requires depth < MAX_CONSTRAINT_DEPTH
      modifies this`activeRefs, this`cut
      ensures activeRefs == old(activeRefs) && (old(cut) ==> cut)
      ensures !viable ==> ElementsGated(obj) && BarrenElements(doc, ElementSchemas(obj))
      ensures viable && !cut ==> !(ElementsGated(obj) && BarrenElements(doc, ElementSchemas(obj)))
      ensures ClearUnder(doc, m, old(activeRefs), obj, depth) ==> cut == old(cut)
      decreases MAX_CONSTRAINT_DEPTH - depth, 1
    {
      if ClearUnder(doc, m, activeRefs, obj, depth) { ClearItems(doc, m, activeRefs, obj, depth); }
      if !DeclaresArrayOnly(obj) || !HasItems(obj) {
        return true;
      }
      if depth + 1 >= MAX_CONSTRAINT_DEPTH {
        cut := true;
        return true;
      }
      var prefix := PrefixItems(obj);
      if "prefixItems" in obj {
        if !obj["prefixItems"].Array? {
          return true;
        }
        viable := SomeItemViable(prefix, depth);
        if viable {
          BarrenPrefix(doc, obj);
          return true;
        }
        if "items" !in obj {
          return true;
        }
      }
      assert BarrenElements(doc, Some(prefix));
      var items := Get(obj, "items");
      match items
      case Null => return true;
      case Array(elems) =>
        viable := SomeItemViable(elems, depth);
        if viable || "additionalItems" !in obj {
          BarrenParts(doc, prefix, elems, Get(obj, "additionalItems"));
          return true;
        }
        viable := SomeItemViable([obj["additionalItems"]], depth);
        BarrenParts(doc, prefix, elems, obj["additionalItems"]);
      case _ =>
        viable := SomeItemViable([items], depth);
        BarrenParts(doc, prefix, [], items);
        assert prefix + [] + [items] == prefix + [items];
    }

    // ---- Array forcing ----

    method AllOfForcesArray(parent: Keywords, branches: seq<Schema>, depth: nat) returns (forces: bool)
      requires depth <= MAX_CONSTRAINT_DEPTH
      modifies this`activeRefs, this`cut
      ensures activeRefs == old(activeRefs) && (old(cut) ==> cut)
      ensures forces ==> DeclaresArrayOnly(parent) || ForcesSome(doc, branches, true)
      ensures !forces && !cut ==> !DeclaresArrayOnly(parent) && !ForcesSome(doc, branches, false)
      ensures AllClear(doc, m, old(activeRefs), branches, depth + 1) ==> cut == old(cut)
      decreases MAX_CONSTRAINT_DEPTH - depth, 1
    {
      if DeclaresArrayOnly(parent) {
        return true;
      }
      for i := 0 to |branches|
        invariant activeRefs == old(activeRefs) && (old(cut) ==> cut)
        invariant !cut ==> forall j | 0 <= j < i :: !Forces(doc, branches[j], false)
        invariant AllClear(doc, m, old(activeRefs), branches, depth + 1) ==> cut == old(cut)
      {
        forces := BranchForcesArray(branches[i], depth + 1);
        if forces {
          return true;
        }
      }
      forces := false;
    }

    method BranchForcesArray(b: Schema, depth: nat) returns (forces: bool)
      modifies this`activeRefs, this`cut
      ensures activeRefs == old(activeRefs) && (old(cut) ==> cut)
      ensures forces ==> Forces(doc, b, true)
      ensures !forces && !cut ==> !Forces(doc, b, false)
      ensures Clear(doc, m, old(activeRefs), b, depth) ==> cut == old(cut)
      decreases MAX_CONSTRAINT_DEPTH - depth, 2
    {
      if depth >= MAX_CONSTRAINT_DEPTH {
        cut := true;
        return false;
      }
      if !b.Node? {
        return false;
      }
      var obj := KeywordsOf(doc, b.id);
      if DeclaresArrayOnly(obj) {
        return true;
      }
      ClearObject(doc, m, activeRefs, b.id, depth);
      if ClearUnder(doc, m, activeRefs, obj, depth) { ClearParts(doc, m, activeRefs, obj, depth); }
      var allOf := Branches(obj, "allOf");
      if |allOf| > 0 {
        forces := AllOfForcesArray(obj, allOf, depth + 1);
        if forces {
          return true;
        }
      }
      forces := DisjunctionForces(Branches(obj, "anyOf"), depth);
      if forces {
        return true;
      }
      forces := DisjunctionForces(Branches(obj, "oneOf"), depth);
      if forces {
        return true;
      }
      forces := ReferenceForces(obj, depth);
    }

    /** The $ref keyword of branchForcesArray. */
    method ReferenceForces(obj: Keywords, depth: nat) returns (forces: bool)
      requires depth < MAX_CONSTRAINT_DEPTH
      modifies this`activeRefs, this`cut
      ensures activeRefs == old(activeRefs) && (old(cut) ==> cut)
      ensures forces ==> !RefTarget(doc, obj).Invalid? && Forces(doc, RefTarget(doc, obj), true)
      ensures !forces && !cut ==> RefTarget(doc, obj).Invalid? || !Forces(doc, RefTarget(doc, obj), false)
      ensures ClearUnder(doc, m, old(activeRefs), obj, depth) ==> cut == old(cut)
      decreases MAX_CONSTRAINT_DEPTH - depth, 0
    {
      var ref := Get(obj, "$ref");
      if !ref.String? {
        return false;
      }
      if ClearUnder(doc, m, activeRefs, obj, depth) { ClearReference(doc, m, activeRefs, obj, ref.text, depth); }
      if ref.text in activeRefs {
        cut := true;
        return false;
      }
      var target := ResolveLocalRef(doc, ref.text);
      if target.Invalid? {
        return false;
      }
      activeRefs := activeRefs + {ref.text};
      forces := BranchForcesArray(target, depth + 1);
      activeRefs := activeRefs - {ref.text};
    }

    /** One anyOf or oneOf keyword of branchForcesArray: some branch is viable and all viable ones force. */
    method DisjunctionForces(subs: seq<Schema>, depth: nat) returns (forces: bool)
      requires depth < MAX_CONSTRAINT_DEPTH
      modifies this`activeRefs, this`cut
      ensures activeRefs == old(activeRefs) && (old(cut) ==> cut)
      ensures forces ==> ForcesEvery(doc, subs, true)
      ensures !forces && !cut ==> !ForcesEvery(doc, subs, false)
      ensures AllClear(doc, m, old(activeRefs), subs, depth + 1) ==> cut == old(cut)
      decreases MAX_CONSTRAINT_DEPTH - depth, 0
    {
      var anyViable := false;
      for i := 0 to |subs|
        invariant activeRefs == old(activeRefs) && (old(cut) ==> cut)
        invariant forall j | 0 <= j < i :: Barren(doc, subs[j]) || Forces(doc, subs[j], true)
        invariant !anyViable ==> forall j | 0 <= j < i :: Barren(doc, subs[j])
        invariant AllClear(doc, m, old(activeRefs), subs, depth + 1) ==> cut == old(cut)
        invariant anyViable ==> i > 0
      {
        var viable := ViableForKind(subs[i], depth + 1);
        if !viable {
          continue;
        }
        anyViable := true;
        forces := BranchForcesArray(subs[i], depth + 1);
        if !forces {
          return false;
        }
      }
      forces := anyViable;
    }

    // ---- The search ----

    method SearchCtx(node: Schema, kind: Kind, depth: nat, arrayCtx: bool) returns (found: bool)
      requires Valid()
      modifies this
      ensures Valid() && Kept()
      ensures found ==> Finds(doc, node, kind, arrayCtx, true)
      ensures !found && !cut ==> !Finds(doc, node, kind, arrayCtx, false)
      ensures Fits(doc, m) ==> visited <= old(visited) + m.cost(node)
      ensures Ready(doc, m, old(Now()), node, depth) ==> cut == old(cut)
      decreases MAX_CONSTRAINT_DEPTH - depth, 8
    {
      if node.Invalid? {
        return false;
      }
      if depth >= MAX_CONSTRAINT_DEPTH || visited >= MAX_VISITED_NODES {
        cut := true;
        return false;
      }
      if node.Never? {
        visited := visited + 1;
        return true;
      }
      if node.Always? {
        visited := visited + 1;
        return false;
      }
      var id := Searching(node.id, kind, arrayCtx);
      if id in memo {
        return true;
      }
      if Ready(doc, m, Now(), node, depth) { NotBeingExplored(doc, m, Now(), id, depth); }
      if id in active {
        cut := true;
        return false;
      }
      found := Explore(id, depth);
      if found {
        memo := memo + {id};
      }
    }

    /** An object neither remembered nor being explored. */
    method Explore(id: Visit, depth: nat) returns (found: bool)
      requires Valid() && depth < MAX_CONSTRAINT_DEPTH && id.Searching? && id !in active
      modifies this
      ensures Valid() && Kept()
      ensures found ==> Finds(doc, Node(id.id), id.kind, id.arrayCtx, true)
      ensures !found && !cut ==> !Finds(doc, Node(id.id), id.kind, id.arrayCtx, false)
      ensures Fits(doc, m) ==> visited <= old(visited) + m.cost(Node(id.id))
      ensures Ready(doc, m, old(Now()), Node(id.id), depth) ==> cut == old(cut)
      decreases MAX_CONSTRAINT_DEPTH - depth, 7
    {
      var obj := KeywordsOf(doc, id.id);
      if Ready(doc, m, Now(), Node(id.id), depth) { ReadyObject(doc, m, Now(), id, depth); }
      CostsFit(doc, m, id.id);
      visited := visited + 1;
      active := active + {id};
      found := SearchObject(obj, id.kind, depth, id.arrayCtx);
      FindsObject(doc, id.id, id.kind, id.arrayCtx);
      active := active - {id};
    }

    /** The four ways searchCtx finds a constraint at an object, in its order. */
    method SearchObject(obj: Keywords, kind: Kind, depth: nat, arrayCtx: bool) returns (found: bool)
      requires Valid() && depth < MAX_CONSTRAINT_DEPTH
      modifies this
      ensures Valid() && Kept()
      ensures found ==> ObjectFinds(doc, obj, kind, arrayCtx, true)
      ensures !found && !cut ==> !ObjectFinds(doc, obj, kind, arrayCtx, false)
      ensures Fits(doc, m) ==> visited <= old(visited) + CostsUnder(doc, m, obj)
      ensures ReadyUnder(doc, m, old(Now()), obj, depth, CostsUnder(doc, m, obj)) ==> cut == old(cut)
      decreases MAX_CONSTRAINT_DEPTH - depth, 6
    {
      ghost var start, costs := Now(), CostsUnder(doc, m, obj);
      found := Direct(obj, kind);
      if !found {
        if ReadyUnder(doc, m, start, obj, depth, costs) {
          ReadyStill(doc, m, start, obj, depth, costs, start, m.cost(RefTarget(doc, obj)));
        }
        found := SearchReference(obj, kind, depth, arrayCtx);
      }
      if !found {
        if ReadyUnder(doc, m, start, obj, depth, costs) {
          ReadyStill(doc, m, start, obj, depth, costs, Now(), CompositionCosts(m, obj));
        }
        found := SearchComposition(obj, kind, depth, arrayCtx);
      }
      if !found {
        if ReadyUnder(doc, m, start, obj, depth, costs) {
          ReadyStill(doc, m, start, obj, depth, costs, Now(), ItemCosts(m, ItemsOf(obj)));
        }
        found := SearchArrayItems(obj, kind, depth, arrayCtx);
      }
    }

    /** The $ref keyword of searchCtx. */
    method SearchReference(obj: Keywords, kind: Kind, depth: nat, arrayCtx: bool) returns (found: bool)
      requires Valid() && depth < MAX_CONSTRAINT_DEPTH
      modifies this
      ensures Valid() && Kept()
      ensures found ==> !RefTarget(doc, obj).Invalid? && Finds(doc, RefTarget(doc, obj), kind, arrayCtx, true)
      ensures !found && !cut ==>
              RefTarget(doc, obj).Invalid? || !Finds(doc, RefTarget(doc, obj), kind, arrayCtx, false)
      ensures Fits(doc, m) ==> visited <= old(visited) + m.cost(RefTarget(doc, obj))
      ensures ReadyUnder(doc, m, old(Now()), obj, depth, m.cost(RefTarget(doc, obj))) ==> cut == old(cut)
      decreases MAX_CONSTRAINT_DEPTH - depth, 1
    {
      found := false;
      var ref := Get(obj, "$ref");
      if ref.String? {
        if ReadyUnder(doc, m, Now(), obj, depth, m.cost(RefTarget(doc, obj))) {
          ReadyReference(doc, m, Now(), obj, ref.text, depth, m.cost(RefTarget(doc, obj)));
        }
        found := SearchRef(ref.text, kind, depth, arrayCtx);
      }
    }

    method SearchRef(ref: string, kind: Kind, depth: nat, arrayCtx: bool) returns (found: bool)
      requires Valid() && depth < MAX_CONSTRAINT_DEPTH
      modifies this
      ensures Valid() && Kept()
      ensures var target := Resolve(doc, ref);
              && (found ==> !target.Invalid? && Finds(doc, target, kind, arrayCtx, true))
              && (!found && !cut ==> target.Invalid? || !Finds(doc, target, kind, arrayCtx, false))
      ensures Fits(doc, m) ==> visited <= old(visited) + m.cost(Resolve(doc, ref))
      ensures ref !in old(activeRefs)
              && (!Resolve(doc, ref).Invalid? ==>
                    Ready(doc, m, old(Now()).(refs := old(activeRefs) + {ref}), Resolve(doc, ref), depth + 1))
          ==> cut == old(cut)
      decreases MAX_CONSTRAINT_DEPTH - depth, 0
    {
      if ref in activeRefs {
        cut := true;
        return false;
      }
      var target := ResolveLocalRef(doc, ref);
      if target.Invalid? {
        return false;
      }
      activeRefs := activeRefs + {ref};
      found := SearchCtx(target, kind, depth + 1, arrayCtx);
      activeRefs := activeRefs - {ref};
    }

    method SearchComposition(obj: Keywords, kind: Kind, depth: nat, arrayCtx: bool) returns (found: bool)
      requires Valid() && depth < MAX_CONSTRAINT_DEPTH
      modifies this
      ensures Valid() && Kept()
      ensures found ==> CompositionFinds(doc, obj, kind, arrayCtx, true)
      ensures !found && !cut ==> !CompositionFinds(doc, obj, kind, arrayCtx, false)
      ensures Fits(doc, m) ==> visited <= old(visited) + CompositionCosts(m, obj)
      ensures ReadyUnder(doc, m, old(Now()), obj, depth, CompositionCosts(m, obj)) ==> cut == old(cut)
      decreases MAX_CONSTRAINT_DEPTH - depth, 4
    {
      found := SearchAllOf(obj, kind, depth, arrayCtx);
      if found {
        return true;
      }
      found := SearchDisjunctions(obj, kind, depth, arrayCtx || DeclaresArrayOnly(obj));
    }

    /** The anyOf and oneOf keywords of searchComposition. */
    method SearchDisjunctions(obj: Keywords, kind: Kind, depth: nat, arrayCtx: bool) returns (found: bool)
      requires Valid() && depth < MAX_CONSTRAINT_DEPTH
      modifies this
      ensures Valid() && Kept()
      ensures found ==>
              || FindsEvery(doc, Branches(obj, "anyOf"), kind, arrayCtx, true)
              || FindsEvery(doc, Branches(obj, "oneOf"), kind, arrayCtx, true)
      ensures !found && !cut ==>
              && !FindsEvery(doc, Branches(obj, "anyOf"), kind, arrayCtx, false)
              && !FindsEvery(doc, Branches(obj, "oneOf"), kind, arrayCtx, false)
      ensures Fits(doc, m) ==> visited <= old(visited) + DisjunctCosts(m, obj)
      ensures ReadyUnder(doc, m, old(Now()), obj, depth, DisjunctCosts(m, obj)) ==> cut == old(cut)
      decreases MAX_CONSTRAINT_DEPTH - depth, 3
    {
      ghost var costs := DisjunctCosts(m, obj);
      if ReadyUnder(doc, m, Now(), obj, depth, costs) {
        ReadyBranches(doc, m, Now(), obj, depth, Branches(obj, "anyOf"), costs);
      }
      found := SearchEveryBranch(Branches(obj, "anyOf"), kind, depth, arrayCtx);
      if found {
        return true;
      }
      costs := CostAll(m, Branches(obj, "oneOf"));
      if ReadyUnder(doc, m, Now(), obj, depth, costs) {
        ReadyBranches(doc, m, Now(), obj, depth, Branches(obj, "oneOf"), costs);
      }
      found := SearchEveryBranch(Branches(obj, "oneOf"), kind, depth, arrayCtx);
    }
    /** The allOf keyword of searchComposition: any branch, in the array context the conjunction forces. */
    method SearchAllOf(obj: Keywords, kind: Kind, depth: nat, arrayCtx: bool) returns (found: bool)
      requires Valid() && depth < MAX_CONSTRAINT_DEPTH
      modifies this
      ensures Valid() && Kept()
      ensures found ==> FindsSome(doc, Branches(obj, "allOf"), kind, arrayCtx || AllOfForces(doc, obj, true), true)
      ensures !found && !cut ==>
                !FindsSome(doc, Branches(obj, "allOf"), kind, arrayCtx || AllOfForces(doc, obj, false), false)
      ensures Fits(doc, m) ==> visited <= old(visited) + CostAll(m, Branches(obj, "allOf"))
      ensures ReadyUnder(doc, m, old(Now()), obj, depth, CostAll(m, Branches(obj, "allOf"))) ==> cut == old(cut)
      decreases MAX_CONSTRAINT_DEPTH - depth, 2
    {
      var branches := Branches(obj, "allOf");
      if |branches| == 0 {
        return false;
      }
      if ReadyUnder(doc, m, Now(), obj, depth, CostAll(m, branches)) {
        ReadyBranches(doc, m, Now(), obj, depth, branches, CostAll(m, branches));
      }
      var ctx := arrayCtx;
      if !ctx {
        ctx := AllOfForcesArray(obj, branches, depth);
      }
      found := SearchAnyBranch(branches, kind, depth, ctx);
      ghost var widest, narrowest := arrayCtx || AllOfForces(doc, obj, true), arrayCtx || AllOfForces(doc, obj, false);
      if found {
        FindsSomeMonotone(doc, branches, kind, ctx, true, widest, true);
      } else if !cut && FindsSome(doc, branches, kind, narrowest, false) {
        FindsSomeMonotone(doc, branches, kind, narrowest, false, ctx, false);
      }
    }

    method SearchAnyBranch(branches: seq<Schema>, kind: Kind, depth: nat, arrayCtx: bool) returns (found: bool)
      requires Valid() && depth < MAX_CONSTRAINT_DEPTH
      modifies this
      ensures Valid() && Kept()
      ensures found ==> FindsSome(doc, branches, kind, arrayCtx, true)
      ensures !found && !cut ==> !FindsSome(doc, branches, kind, arrayCtx, false)
      ensures Fits(doc, m) ==> visited <= old(visited) + CostAll(m, branches)
      ensures AllReady(doc, m, old(Now()), branches, depth + 1) ==> cut == old(cut)
      decreases MAX_CONSTRAINT_DEPTH - depth, 1
    {
      ghost var start := Now();
      ghost var fine := AllReady(doc, m, start, branches, depth + 1);
      for i := 0 to |branches|
        invariant Valid() && Kept()
        invariant !cut ==> forall j | 0 <= j < i :: !Finds(doc, branches[j], kind, arrayCtx, false)
        invariant Fits(doc, m) ==> visited <= start.visited + CostAll(m, branches[..i])
        invariant fine ==> cut == old(cut)
      {
        found := SearchNext(branches, i, kind, depth, arrayCtx, start, fine);
        if found {
          return true;
        }
      }
      assert branches[..|branches|] == branches;
      found := false;
    }

    /** One of a list of schemas searched in order. */
    method SearchNext(ss: seq<Schema>, i: nat, kind: Kind, depth: nat, arrayCtx: bool, ghost start: Guards,
                      ghost fine: bool)
      returns (found: bool)
      requires Valid() && depth < MAX_CONSTRAINT_DEPTH && i < |ss|
      requires start.active == active && start.refs == activeRefs
      requires Fits(doc, m) ==> visited <= start.visited + CostAll(m, ss[..i])
      requires fine ==> AllReady(doc, m, start, ss, depth + 1)
      modifies this
      ensures Valid() && Kept()
      ensures found ==> Finds(doc, ss[i], kind, arrayCtx, true)
      ensures !found && !cut ==> !Finds(doc, ss[i], kind, arrayCtx, false)
      ensures Fits(doc, m) ==> visited <= start.visited + CostAll(m, ss[..i + 1]) <= start.visited + CostAll(m, ss)
      ensures fine ==> cut == old(cut)
      decreases MAX_CONSTRAINT_DEPTH - depth, 0
    {
      if fine { ReadyNext(doc, m, start, ss, depth + 1, i, visited); }
      CostSoFar(m, ss, i);
      found := SearchCtx(ss[i], kind, depth + 1, arrayCtx);
    }

    method SearchEveryBranch(branches: seq<Schema>, kind: Kind, depth: nat, arrayCtx: bool) returns (found: bool)
      requires Valid() && depth < MAX_CONSTRAINT_DEPTH
      modifies this
      ensures Valid() && Kept()
      ensures found ==> FindsEvery(doc, branches, kind, arrayCtx, true)
      ensures !found && !cut ==> !FindsEvery(doc, branches, kind, arrayCtx, false)
      ensures Fits(doc, m) ==> visited <= old(visited) + CostAll(m, branches)
      ensures AllReady(doc, m, old(Now()), branches, depth + 1) ==> cut == old(cut)
      decreases MAX_CONSTRAINT_DEPTH - depth, 2
    {
      if |branches| == 0 {
        return false;
      }
      ghost var fine := AllReady(doc, m, Now(), branches, depth + 1);
      var viable := ViableBranches(branches, depth, arrayCtx, fine);
      if |viable| == 0 {
        return true;
      }
      found := SearchAll(viable, kind, depth, arrayCtx);
    }

    /** The branches of a disjunction that can carry a value in this context. */
    method ViableBranches(branches: seq<Schema>, depth: nat, arrayCtx: bool, ghost fine: bool)
      returns (viable: seq<Schema>)
      requires depth < MAX_CONSTRAINT_DEPTH && (fine ==> AllClear(doc, m, activeRefs, branches, depth + 1))
      modifies this`activeRefs, this`cut
      ensures activeRefs == old(activeRefs) && (old(cut) ==> cut)
      ensures SiftedBranches(doc, branches, viable, arrayCtx, cut)
      ensures CostAll(m, viable) <= CostAll(m, branches)
      ensures fine ==> cut == old(cut)
      decreases MAX_CONSTRAINT_DEPTH - depth, 1
    {
      viable := [];
      SiftNoBranch(doc, m, branches, arrayCtx, cut);
      for i := 0 to |branches|
        invariant activeRefs == old(activeRefs) && (old(cut) ==> cut)
        invariant SiftedBranches(doc, branches[..i], viable, arrayCtx, cut)
        invariant CostAll(m, viable) <= CostAll(m, branches[..i])
        invariant fine ==> cut == old(cut)
      {
        ghost var before := cut;
        if fine { assert branches[i] in branches; }
        var keep := MayCarry(branches[i], depth, arrayCtx);
        SiftBranch(doc, m, branches, i, viable, arrayCtx, before, cut, keep);
        if keep {
          viable := viable + [branches[i]];
        }
      }
      assert branches[..|branches|] == branches;
    }

    /** Whether a branch counts in this context. */
    method MayCarry(b: Schema, depth: nat, arrayCtx: bool) returns (keep: bool)
      requires depth < MAX_CONSTRAINT_DEPTH
      modifies this`activeRefs, this`cut
      ensures activeRefs == old(activeRefs) && (old(cut) ==> cut)
      ensures !keep ==> Skipped(doc, b, arrayCtx)
      ensures keep && !cut ==> !Skipped(doc, b, arrayCtx)
      ensures Clear(doc, m, old(activeRefs), b, depth + 1) ==> cut == old(cut)
      decreases MAX_CONSTRAINT_DEPTH - depth, 0
    {
      if arrayCtx && ExcludedByArrayParent(doc, b) {
        return false;
      }
      keep := ViableForKind(b, depth + 1);
    }

    method SearchAll(viable: seq<Schema>, kind: Kind, depth: nat, arrayCtx: bool) returns (found: bool)
      requires Valid() && depth < MAX_CONSTRAINT_DEPTH
      modifies this
      ensures Valid() && Kept()
      ensures found ==> forall b | b in viable :: Finds(doc, b, kind, arrayCtx, true)
      ensures !found && !cut ==> exists b | b in viable :: !Finds(doc, b, kind, arrayCtx, false)
      ensures Fits(doc, m) ==> visited <= old(visited) + CostAll(m, viable)
      ensures AllReady(doc, m, old(Now()), viable, depth + 1) ==> cut == old(cut)
      decreases MAX_CONSTRAINT_DEPTH - depth, 1
    {
      ghost var start := Now();
      ghost var fine := AllReady(doc, m, start, viable, depth + 1);
      for i := 0 to |viable|
        invariant Valid() && Kept()
        invariant forall j | 0 <= j < i :: Finds(doc, viable[j], kind, arrayCtx, true)
        invariant Fits(doc, m) ==> visited <= start.visited + CostAll(m, viable[..i])
        invariant fine ==> cut == old(cut)
      {
        found := SearchNext(viable, i, kind, depth, arrayCtx, start, fine);
        if !found {
          assert viable[i] in viable;
          return false;
        }
      }
      assert viable[..|viable|] == viable;
      found := true;
    }

    method SearchArrayItems(obj: Keywords, kind: Kind, depth: nat, arrayCtx: bool) returns (found: bool)
      requires Valid() && depth < MAX_CONSTRAINT_DEPTH
      modifies this
      ensures Valid() && Kept()
      ensures found ==> ArrayConstraintApplies(obj, arrayCtx) && FindsElements(doc, ElementSchemas(obj), kind, true)
      ensures !found && !cut ==>
              !(ArrayConstraintApplies(obj, arrayCtx) && FindsElements(doc, ElementSchemas(obj), kind, false))
      ensures Fits(doc, m) ==> visited <= old(visited) + ItemCosts(m, ItemsOf(obj))
      ensures ReadyUnder(doc, m, old(Now()), obj, depth, ItemCosts(m, ItemsOf(obj))) ==> cut == old(cut)
      decreases MAX_CONSTRAINT_DEPTH - depth, 5
    {
      if !ArrayConstraintApplies(obj, arrayCtx) {
        return false;
      }
      ItemCostsConcat(m, PrefixItems(obj), LaterItems(obj));
      if ReadyUnder(doc, m, Now(), obj, depth, ItemCosts(m, ItemsOf(obj))) {
        ReadyItems(doc, m, Now(), obj, depth, PrefixItems(obj), ItemCosts(m, ItemsOf(obj)));
      }
      if Get(obj, "prefixItems").Array? {
        found := SearchEveryItemList(PrefixItems(obj), kind, depth);
        if !found {
          FindsPrefix(doc, obj, kind);
          return false;
        }
        if "items" !in obj {
          return false;
        }
      }
      found := SearchItems(obj, kind, depth);
    }

    /** The items keyword of searchArrayItems, its prefix being found. */
    method SearchItems(obj: Keywords, kind: Kind, depth: nat) returns (found: bool)
      requires Valid() && depth < MAX_CONSTRAINT_DEPTH
      requires FindsElements(doc, Some(PrefixItems(obj)), kind, true)
      modifies this
      ensures Valid() && Kept()
      ensures found ==> FindsElements(doc, ElementSchemas(obj), kind, true)
      ensures !found && !cut ==> !FindsElements(doc, ElementSchemas(obj), kind, false)
      ensures Fits(doc, m) ==> visited <= old(visited) + ItemCosts(m, LaterItems(obj))
      ensures ReadyUnder(doc, m, old(Now()), obj, depth, ItemCosts(m, LaterItems(obj))) ==> cut == old(cut)
      decreases MAX_CONSTRAINT_DEPTH - depth, 4
    {
      ghost var costs := ItemCosts(m, LaterItems(obj));
      var items := Get(obj, "items");
      if ReadyUnder(doc, m, Now(), obj, depth, costs) {
        ReadyItems(doc, m, Now(), obj, depth, LaterItems(obj), costs);
      }
      match items
      case Null => return false;
      case Array(elems) =>
        found := SearchItemList(obj, elems, kind, depth);
      case _ =>
        found := SearchItemSchema(obj, items, kind, depth);
    }

    /** One schema for all later positions. */
    method SearchItemSchema(obj: Keywords, items: Json, kind: Kind, depth: nat) returns (found: bool)
      requires Valid() && depth < MAX_CONSTRAINT_DEPTH
      requires items == Get(obj, "items") && !items.Null? && !items.Array?
      requires FindsElements(doc, Some(PrefixItems(obj)), kind, true)
      modifies this
      ensures Valid() && Kept()
      ensures found ==> FindsElements(doc, ElementSchemas(obj), kind, true)
      ensures !found && !cut ==> !FindsElements(doc, ElementSchemas(obj), kind, false)
      ensures Fits(doc, m) ==> visited <= old(visited) + ItemCosts(m, LaterItems(obj))
      ensures ItemsReady(doc, m, old(Now()), LaterItems(obj), depth + 1) ==> cut == old(cut)
      decreases MAX_CONSTRAINT_DEPTH - depth, 3
    {
      ghost var prefix := PrefixItems(obj);
      ItemCostOneMore(m, [], items);
      assert [] + [items] == [items] == LaterItems(obj) && items in [items];
      found := SearchTail(items, kind, depth);
      FindsParts(doc, prefix, [], items, kind, true);
      FindsParts(doc, prefix, [], items, kind, false);
      assert prefix + [] + [items] == prefix + [items];
    }

    /** The older list form of items, with additionalItems. */
    method SearchItemList(obj: Keywords, elems: seq<Json>, kind: Kind, depth: nat) returns (found: bool)
      requires Valid() && depth < MAX_CONSTRAINT_DEPTH && Get(obj, "items") == Array(elems)
      requires FindsElements(doc, Some(PrefixItems(obj)), kind, true)
      modifies this
      ensures Valid() && Kept()
      ensures found ==> FindsElements(doc, ElementSchemas(obj), kind, true)
      ensures !found && !cut ==> !FindsElements(doc, ElementSchemas(obj), kind, false)
      ensures Fits(doc, m) ==> visited <= old(visited) + ItemCosts(m, LaterItems(obj))
      ensures ItemsReady(doc, m, old(Now()), LaterItems(obj), depth + 1) ==> cut == old(cut)
      decreases MAX_CONSTRAINT_DEPTH - depth, 3
    {
      ghost var prefix, start, later := PrefixItems(obj), Now(), LaterItems(obj);
      ghost var fine := ItemsReady(doc, m, start, later, depth + 1);
      LaterOfList(m, obj, elems);
      if fine { FewerItemsReady(doc, m, start, later, depth + 1, elems); }
      found := SearchEveryItemList(elems, kind, depth);
      if "additionalItems" !in obj {
        return false;
      }
      var tail := obj["additionalItems"];
      FindsParts(doc, prefix, elems, tail, kind, true);
      FindsParts(doc, prefix, elems, tail, kind, false);
      if !found {
        return false;
      }
      if fine && !AsSchema(tail).Invalid? { TailReady(doc, m, start, later, depth + 1, tail, visited); }
      found := SearchTail(tail, kind, depth);
    }

    /** The schema of all remaining positions: one that can carry no value constrains them vacuously. */
    method SearchTail(tail: Json, kind: Kind, depth: nat) returns (found: bool)
      requires Valid() && depth < MAX_CONSTRAINT_DEPTH
      modifies this
      ensures Valid() && Kept()
      ensures found ==> FindsElements(doc, Some([tail]), kind, true)
      ensures !found && !cut ==> !FindsElements(doc, Some([tail]), kind, false)
      ensures Fits(doc, m) ==> visited <= old(visited) + m.cost(AsSchema(tail))
      ensures AsSchema(tail).Invalid? || Ready(doc, m, old(Now()), AsSchema(tail), depth + 1) ==> cut == old(cut)
      decreases MAX_CONSTRAINT_DEPTH - depth, 0
    {
      var child := AsSchema(tail);
      assert tail in [tail];
      if child.Invalid? {
        return false;
      }
      var viable := ViableForKind(child, depth + 1);
      if !viable {
        return true;
      }
      found := SearchCtx(child, kind, depth + 1, false);
    }

    method SearchEveryItemList(items: seq<Json>, kind: Kind, depth: nat) returns (found: bool)
      requires Valid() && depth < MAX_CONSTRAINT_DEPTH
      modifies this
      ensures Valid() && Kept()
      ensures found ==> FindsElements(doc, Some(items), kind, true)
      ensures !found && !cut ==> !FindsElements(doc, Some(items), kind, false)
      ensures Fits(doc, m) ==> visited <= old(visited) + ItemCosts(m, items)
      ensures ItemsReady(doc, m, old(Now()), items, depth + 1) ==> cut == old(cut)
      decreases MAX_CONSTRAINT_DEPTH - depth, 2
    {
      ghost var start, fine := Now(), ItemsReady(doc, m, Now(), items, depth + 1);
      var schemas, viable;
      ghost var kept;
      schemas, viable, kept := ViableItems(items, depth, fine);
      if !schemas {
        return false;
      }
      CostsOf(m, kept);
      if fine { KeptReady(doc, m, start, items, depth + 1, kept); }
      found := SearchAll(viable, kind, depth, false);
      KeptFound(doc, items, kept, kind);
    }

    /** The entries of an item list that can carry a value, or a refusal because one is no schema. */
    method ViableItems(items: seq<Json>, depth: nat, ghost fine: bool)
      returns (schemas: bool, viable: seq<Schema>, ghost kept: seq<Json>)
      requires depth < MAX_CONSTRAINT_DEPTH && (fine ==> ItemsClear(doc, m, activeRefs, items, depth + 1))
      modifies this`activeRefs, this`cut
      ensures activeRefs == old(activeRefs) && (old(cut) ==> cut)
      ensures schemas <==> AllSchemas(items)
      ensures schemas ==> Sifted(doc, items, kept, cut) && viable == SchemasOf(kept)
      ensures schemas ==> ItemCosts(m, kept) <= ItemCosts(m, items)
      ensures fine ==> cut == old(cut)
      decreases MAX_CONSTRAINT_DEPTH - depth, 1
    {
      viable, kept := [], [];
      SiftNone(doc, m, items, cut);
      for i := 0 to |items|
        invariant activeRefs == old(activeRefs) && (old(cut) ==> cut)
        invariant AllSchemas(items[..i])
        invariant Sifted(doc, items[..i], kept, cut)
        invariant viable == SchemasOf(kept) && ItemCosts(m, kept) <= ItemCosts(m, items[..i])
        invariant fine ==> cut == old(cut)
      {
        NextSchema(items, i);
        if AsSchema(items[i]).Invalid? {
          return false, viable, kept;
        }
        viable, kept := SiftNext(items, i, depth, viable, kept, fine);
      }
      assert items[..|items|] == items;
      schemas := true;
    }

    /** Keeps the next entry of the list if it can carry a value. */
    method SiftNext(items: seq<Json>, i: nat, depth: nat, viable: seq<Schema>, ghost kept: seq<Json>, ghost fine: bool)
      returns (viable': seq<Schema>, ghost kept': seq<Json>)
      requires depth < MAX_CONSTRAINT_DEPTH && i < |items| && !AsSchema(items[i]).Invalid?
      requires Sifted(doc, items[..i], kept, cut) && viable == SchemasOf(kept)
      requires ItemCosts(m, kept) <= ItemCosts(m, items[..i])
      requires fine ==> ItemsClear(doc, m, activeRefs, items, depth + 1)
      modifies this`activeRefs, this`cut
      ensures activeRefs == old(activeRefs) && (old(cut) ==> cut)
      ensures Sifted(doc, items[..i + 1], kept', cut) && viable' == SchemasOf(kept')
      ensures ItemCosts(m, kept') <= ItemCosts(m, items[..i + 1])
      ensures fine ==> cut == old(cut)
      decreases MAX_CONSTRAINT_DEPTH - depth, 0
    {
      viable', kept' := viable, kept;
      assert items[i] in items;
      var keep := ViableForKind(AsSchema(items[i]), depth + 1);
      SiftOne(doc, m, items, i, kept, old(cut), cut, keep);
      if keep {
        viable', kept' := viable + [AsSchema(items[i])], kept + [items[i]];
      }
    }

    /** A fresh question: clears the guards and keeps the memo. */
    method Has(node: Schema, kind: Kind) returns (found: bool)
      requires Valid()
      modifies this
      ensures Valid() && active == {} && activeRefs == {} && old(memo) <= memo && (old(cut) ==> cut)
      ensures found ==> Finds(doc, node, kind, false, true)
      ensures !found && !cut ==> !Finds(doc, node, kind, false, false)
      ensures Fits(doc, m) ==> cut == old(cut)
    {
      visited, active, activeRefs := 0, {}, {};
      found := SearchCtx(node, kind, 0, false);
    }

    // ---- Properties of an object schema ----

    method PropertyForbidden(node: Schema, name: string, depth: nat) returns (forbidden: bool)
      modifies this`activeRefs, this`cut
      ensures activeRefs == old(activeRefs) && (old(cut) ==> cut)
      ensures forbidden ==> Forbidden(doc, node, name)
      ensures depth < MAX_CONSTRAINT_DEPTH && ForbidsItself(doc, node, name) ==> forbidden
      ensures !forbidden && !cut ==> !Forbidden(doc, node, name)
      ensures Clear(doc, m, old(activeRefs), node, depth) ==> cut == old(cut)
      decreases MAX_CONSTRAINT_DEPTH - depth, 1
    {
      if depth >= MAX_CONSTRAINT_DEPTH {
        cut := true;
        return false;
      }
      if node.Never? {
        return true;
      }
      if !node.Node? {
        return false;
      }
      var obj := KeywordsOf(doc, node.id);
      if PropertyDeclared(doc, obj, name) || PatternMatches(doc, obj, name) {
        return false;
      }
      if AsSchema(Get(obj, "additionalProperties")).Never? {
        return true;
      }
      ClearObject(doc, m, activeRefs, node.id, depth);
      forbidden := ReferenceForbids(obj, name, depth);
      if !forbidden {
        forbidden := SomeForbids(obj, name, depth);
      }
    }

    /** The $ref keyword of propertyForbidden. */
    method ReferenceForbids(obj: Keywords, name: string, depth: nat) returns (forbidden: bool)
      requires depth < MAX_CONSTRAINT_DEPTH
      modifies this`activeRefs, this`cut
      ensures activeRefs == old(activeRefs) && (old(cut) ==> cut)
      ensures forbidden ==> !RefTarget(doc, obj).Invalid? && Forbidden(doc, RefTarget(doc, obj), name)
      ensures !forbidden && !cut ==> RefTarget(doc, obj).Invalid? || !Forbidden(doc, RefTarget(doc, obj), name)
      ensures ClearUnder(doc, m, old(activeRefs), obj, depth) ==> cut == old(cut)
      decreases MAX_CONSTRAINT_DEPTH - depth, 0
    {
      forbidden := false;
      var ref := Get(obj, "$ref");
      if ref.String? {
        if ClearUnder(doc, m, activeRefs, obj, depth) { ClearReference(doc, m, activeRefs, obj, ref.text, depth); }
        if ref.text in activeRefs {
          cut := true;
          return;
        }
        var target := ResolveLocalRef(doc, ref.text);
        if !target.Invalid? {
          activeRefs := activeRefs + {ref.text};
          forbidden := PropertyForbidden(target, name, depth + 1);
          activeRefs := activeRefs - {ref.text};
        }
      }
    }

    /** The allOf keyword of propertyForbidden. */
    method SomeForbids(obj: Keywords, name: string, depth: nat) returns (forbidden: bool)
      requires depth < MAX_CONSTRAINT_DEPTH
      modifies this`activeRefs, this`cut
      ensures activeRefs == old(activeRefs) && (old(cut) ==> cut)
      ensures forbidden ==> ForbiddenSome(doc, Branches(obj, "allOf"), name)
      ensures !forbidden && !cut ==> !ForbiddenSome(doc, Branches(obj, "allOf"), name)
      ensures ClearUnder(doc, m, old(activeRefs), obj, depth) ==> cut == old(cut)
      decreases MAX_CONSTRAINT_DEPTH - depth, 0
    {
      var allOf := Branches(obj, "allOf");
      if ClearUnder(doc, m, activeRefs, obj, depth) { ClearParts(doc, m, activeRefs, obj, depth); }
      for i := 0 to |allOf|
        invariant activeRefs == old(activeRefs) && (old(cut) ==> cut)
        invariant !cut ==> forall j | 0 <= j < i :: !Forbidden(doc, allOf[j], name)
        invariant ClearUnder(doc, m, old(activeRefs), obj, depth) ==> cut == old(cut)
      {
        forbidden := PropertyForbidden(allOf[i], name, depth + 1);
        if forbidden {
          return true;
        }
      }
      forbidden := false;
    }

    method PropertyApplies(node: Schema, name: string, depth: nat) returns (applies: bool)
      modifies this`active, this`activeRefs, this`visited, this`cut
      ensures active == old(active) && activeRefs == old(activeRefs) && (old(cut) ==> cut)
      ensures !cut ==> (applies <==> Applies(doc, node, name))
      ensures applies ==> Speaks(doc, node, name)
      ensures Fits(doc, m) ==> visited <= old(visited) + m.cost(node)
      ensures Ready(doc, m, old(Now()), node, depth) ==> cut == old(cut)
      decreases MAX_CONSTRAINT_DEPTH - depth, 5
    {
      if !node.Node? {
        return false;
      }
      if depth >= MAX_CONSTRAINT_DEPTH || visited >= MAX_VISITED_NODES {
        cut := true;
        return false;
      }
      var obj := KeywordsOf(doc, node.id);
      var id := Applying(node.id, name);
      if Ready(doc, m, Now(), node, depth) { NotBeingExplored(doc, m, Now(), id, depth); }
      if id in active {
        cut := true;
        return false;
      }
      if PropertyDeclared(doc, obj, name) || PatternMatches(doc, obj, name) || "additionalProperties" in obj {
        visited := visited + 1;
        return true;
      }
      applies := AppliesBelow(id, depth);
    }

    /** An object that says nothing of the property itself. */
    method AppliesBelow(id: Visit, depth: nat) returns (applies: bool)
      requires depth < MAX_CONSTRAINT_DEPTH && id.Applying? && id !in active
      requires var obj := KeywordsOf(doc, id.id);
               !PropertyDeclared(doc, obj, id.name) && !PatternMatches(doc, obj, id.name)
               && "additionalProperties" !in obj
      modifies this`active, this`activeRefs, this`visited, this`cut
      ensures active == old(active) && activeRefs == old(activeRefs) && (old(cut) ==> cut)
      ensures !cut ==> (applies <==> Applies(doc, Node(id.id), id.name))
      ensures applies ==> Speaks(doc, Node(id.id), id.name)
      ensures Fits(doc, m) ==> visited <= old(visited) + m.cost(Node(id.id))
      ensures Ready(doc, m, old(Now()), Node(id.id), depth) ==> cut == old(cut)
      decreases MAX_CONSTRAINT_DEPTH - depth, 4
    {
      var obj := KeywordsOf(doc, id.id);
      if Ready(doc, m, Now(), Node(id.id), depth) { ReadyObject(doc, m, Now(), id, depth); }
      CostsFit(doc, m, id.id);
      visited := visited + 1;
      active := active + {id};
      applies := AppliesWithin(obj, id.name, depth);
      active := active - {id};
    }

    /** propertyApplies beyond the object's own keywords: reference, conjuncts, dependents, open disjuncts. */
    method AppliesWithin(obj: Keywords, name: string, depth: nat) returns (applies: bool)
      requires depth < MAX_CONSTRAINT_DEPTH
      modifies this`active, this`activeRefs, this`visited, this`cut
      ensures active == old(active) && activeRefs == old(activeRefs) && (old(cut) ==> cut)
      ensures !cut ==> (applies <==>
                || (!RefTarget(doc, obj).Invalid? && Applies(doc, RefTarget(doc, obj), name))
                || AppliesSome(doc, Branches(obj, "allOf"), name)
                || AppliesSome(doc, RequiredDependents(doc, obj), name)
                || AppliesOpen(doc, obj, Branches(obj, "anyOf"), name)
                || AppliesOpen(doc, obj, Branches(obj, "oneOf"), name))
      ensures applies ==>
                || (!RefTarget(doc, obj).Invalid? && Speaks(doc, RefTarget(doc, obj), name))
                || SpeaksSome(doc, Branches(obj, "allOf"), name)
                || SpeaksSome(doc, RequiredDependents(doc, obj), name)
                || SpeaksSome(doc, Branches(obj, "anyOf"), name)
                || SpeaksSome(doc, Branches(obj, "oneOf"), name)
      ensures Fits(doc, m) ==> visited <= old(visited) + InPlaceCosts(doc, m, obj)
      ensures ReadyUnder(doc, m, old(Now()), obj, depth, InPlaceCosts(doc, m, obj)) ==> cut == old(cut)
      decreases MAX_CONSTRAINT_DEPTH - depth, 3
    {
      ghost var start, costs := Now(), InPlaceCosts(doc, m, obj);
      ghost var fine := ReadyUnder(doc, m, start, obj, depth, costs);
      if fine { ReadyStill(doc, m, start, obj, depth, costs, start, m.cost(RefTarget(doc, obj))); }
      applies := ReferenceApplies(obj, name, depth);
      if applies {
        return true;
      }
      if fine { StillReady(doc, m, start, obj, depth, costs, Now(), Branches(obj, "allOf")); }
      applies := SomeApplies(Branches(obj, "allOf"), name, depth, fine);
      if applies {
        return true;
      }
      if fine { StillReady(doc, m, start, obj, depth, costs, Now(), RequiredDependents(doc, obj)); }
      applies := SomeApplies(RequiredDependents(doc, obj), name, depth, fine);
      if applies {
        return true;
      }
      if fine { StillReady(doc, m, start, obj, depth, costs, Now(), Branches(obj, "anyOf")); }
      applies := OpenApplies(obj, Branches(obj, "anyOf"), name, depth, fine);
      if applies {
        return true;
      }
      if fine { StillReady(doc, m, start, obj, depth, costs, Now(), Branches(obj, "oneOf")); }
      applies := OpenApplies(obj, Branches(obj, "oneOf"), name, depth, fine);
    }

    /** The $ref keyword of propertyApplies. */
    method ReferenceApplies(obj: Keywords, name: string, depth: nat) returns (applies: bool)
      requires depth < MAX_CONSTRAINT_DEPTH
      modifies this`active, this`activeRefs, this`visited, this`cut
      ensures active == old(active) && activeRefs == old(activeRefs) && (old(cut) ==> cut)
      ensures !cut ==> (applies <==> !RefTarget(doc, obj).Invalid? && Applies(doc, RefTarget(doc, obj), name))
      ensures applies ==> !RefTarget(doc, obj).Invalid? && Speaks(doc, RefTarget(doc, obj), name)
      ensures Fits(doc, m) ==> visited <= old(visited) + m.cost(RefTarget(doc, obj))
      ensures ReadyUnder(doc, m, old(Now()), obj, depth, m.cost(RefTarget(doc, obj))) ==> cut == old(cut)
      decreases MAX_CONSTRAINT_DEPTH - depth, 1
    {
      applies := false;
      var ref := Get(obj, "$ref");
      if ref.String? {
        if ReadyUnder(doc, m, Now(), obj, depth, m.cost(RefTarget(doc, obj))) {
          ReadyReference(doc, m, Now(), obj, ref.text, depth, m.cost(RefTarget(doc, obj)));
        }
        if ref.text in activeRefs {
          cut := true;
          return;
        }
        var target := ResolveLocalRef(doc, ref.text);
        if !target.Invalid? {
          activeRefs := activeRefs + {ref.text};
          applies := PropertyApplies(target, name, depth + 1);
          activeRefs := activeRefs - {ref.text};
        }
      }
    }

    method SomeApplies(branches: seq<Schema>, name: string, depth: nat, ghost fine: bool) returns (applies: bool)
      requires depth < MAX_CONSTRAINT_DEPTH && (fine ==> AllReady(doc, m, Now(), branches, depth + 1))
      modifies this`active, this`activeRefs, this`visited, this`cut
      ensures active == old(active) && activeRefs == old(activeRefs) && (old(cut) ==> cut)
      ensures !cut ==> (applies <==> AppliesSome(doc, branches, name))
      ensures applies ==> SpeaksSome(doc, branches, name)
      ensures Fits(doc, m) ==> visited <= old(visited) + CostAll(m, branches)
      ensures fine ==> cut == old(cut)
      decreases MAX_CONSTRAINT_DEPTH - depth, 1
    {
      ghost var start := Now();
      for i := 0 to |branches|
        invariant active == old(active) && activeRefs == old(activeRefs) && (old(cut) ==> cut)
        invariant !cut ==> forall j | 0 <= j < i :: !Applies(doc, branches[j], name)
        invariant Fits(doc, m) ==> visited <= start.visited + CostAll(m, branches[..i])
        invariant fine ==> cut == old(cut)
      {
        applies := AppliesNext(branches, i, name, depth, start, fine);
        if applies {
          return true;
        }
      }
      assert branches[..|branches|] == branches;
      applies := false;
    }

    /** One of a list of schemas asked in order. */
    method AppliesNext(ss: seq<Schema>, i: nat, name: string, depth: nat, ghost start: Guards, ghost fine: bool)
      returns (applies: bool)
      requires depth < MAX_CONSTRAINT_DEPTH && i < |ss| && start.active == active && start.refs == activeRefs
      requires Fits(doc, m) ==> visited <= start.visited + CostAll(m, ss[..i])
      requires fine ==> AllReady(doc, m, start, ss, depth + 1)
      modifies this`active, this`activeRefs, this`visited, this`cut
      ensures active == old(active) && activeRefs == old(activeRefs) && (old(cut) ==> cut)
      ensures !cut ==> (applies <==> Applies(doc, ss[i], name))
      ensures applies ==> Speaks(doc, ss[i], name)
      ensures Fits(doc, m) ==> visited <= start.visited + CostAll(m, ss[..i + 1]) <= start.visited + CostAll(m, ss)
      ensures fine ==> cut == old(cut)
      decreases MAX_CONSTRAINT_DEPTH - depth, 0
    {
      if fine { ReadyNext(doc, m, start, ss, depth + 1, i, visited); }
      CostSoFar(m, ss, i);
      applies := PropertyApplies(ss[i], name, depth + 1);
    }

    method OpenApplies(obj: Keywords, branches: seq<Schema>, name: string, depth: nat, ghost fine: bool)
      returns (applies: bool)
      requires depth < MAX_CONSTRAINT_DEPTH && (fine ==> AllReady(doc, m, Now(), branches, depth + 1))
      modifies this`active, this`activeRefs, this`visited, this`cut
      ensures active == old(active) && activeRefs == old(activeRefs) && (old(cut) ==> cut)
      ensures !cut ==> (applies <==> AppliesOpen(doc, obj, branches, name))
      ensures applies ==> SpeaksSome(doc, branches, name)
      ensures Fits(doc, m) ==> visited <= old(visited) + CostAll(m, branches)
      ensures fine ==> cut == old(cut)
      decreases MAX_CONSTRAINT_DEPTH - depth, 2
    {
      ghost var start := Now();
      for i := 0 to |branches|
        invariant active == old(active) && activeRefs == old(activeRefs) && (old(cut) ==> cut)
        invariant !cut ==> forall j | 0 <= j < i ::
                             Closed(doc, obj, branches[j], name) || !Applies(doc, branches[j], name)
        invariant Fits(doc, m) ==> visited <= start.visited + CostAll(m, branches[..i])
        invariant fine ==> cut == old(cut)
      {
        applies := OpenNext(obj, branches, i, name, depth, start, fine);
        if applies {
          return true;
        }
      }
      assert branches[..|branches|] == branches;
      applies := false;
    }

    /** One of the disjuncts asked in order. */
    method OpenNext(obj: Keywords, ss: seq<Schema>, i: nat, name: string, depth: nat, ghost start: Guards,
                    ghost fine: bool)
      returns (applies: bool)
      requires depth < MAX_CONSTRAINT_DEPTH && i < |ss| && start.active == active && start.refs == activeRefs
      requires Fits(doc, m) ==> visited <= start.visited + CostAll(m, ss[..i])
      requires fine ==> AllReady(doc, m, start, ss, depth + 1)
      modifies this`active, this`activeRefs, this`visited, this`cut
      ensures active == old(active) && activeRefs == old(activeRefs) && (old(cut) ==> cut)
      ensures !cut ==> (applies <==> !Closed(doc, obj, ss[i], name) && Applies(doc, ss[i], name))
      ensures applies ==> Speaks(doc, ss[i], name)
      ensures Fits(doc, m) ==> visited <= start.visited + CostAll(m, ss[..i + 1]) <= start.visited + CostAll(m, ss)
      ensures fine ==> cut == old(cut)
      decreases MAX_CONSTRAINT_DEPTH - depth, 1
    {
      CostSoFar(m, ss, i);
      if fine { assert ss[i] in ss; }
      var closed := BranchClosed(obj, ss[i], name, depth);
      applies := false;
      if !closed {
        applies := AppliesNext(ss, i, name, depth, start, fine);
      }
    }

    /** Whether a disjunct contributes no object with the property. */
    method BranchClosed(obj: Keywords, b: Schema, name: string, depth: nat) returns (closed: bool)
      modifies this`activeRefs, this`cut
      ensures activeRefs == old(activeRefs) && (old(cut) ==> cut)
      ensures closed ==> Closed(doc, obj, b, name)
      ensures !closed && !cut ==> !Closed(doc, obj, b, name)
      ensures Clear(doc, m, old(activeRefs), b, depth + 1) ==> cut == old(cut)
    {
      var forbidden := PropertyForbidden(b, name, depth + 1);
      closed := forbidden || ObjectBranchExcluded(doc, obj, b);
    }

    method PropertyHas(node: Schema, name: string, kind: Kind, depth: nat) returns (found: bool)
      modifies this`active, this`activeRefs, this`visited, this`cut
      ensures active == old(active) && activeRefs == old(activeRefs) && (old(cut) ==> cut)
      ensures found ==> PropertyFinds(doc, node, name, kind, true)
      ensures !found && !cut ==> !PropertyFinds(doc, node, name, kind, false)
      ensures Fits(doc, m) ==> visited <= old(visited) + m.cost(node)
      ensures Ready(doc, m, old(Now()), node, depth) ==> cut == old(cut)
      decreases MAX_CONSTRAINT_DEPTH - depth, 5
    {
      if node.Invalid? {
        return false;
      }
      if depth >= MAX_CONSTRAINT_DEPTH || visited >= MAX_VISITED_NODES {
        cut := true;
        return false;
      }
      if node.Never? {
        visited := visited + 1;
        return true;
      }
      if node.Always? {
        visited := visited + 1;
        return false;
      }
      var id := Inspecting(node.id, name, kind);
      if Ready(doc, m, Now(), node, depth) { NotBeingExplored(doc, m, Now(), id, depth); }
      if id in active {
        cut := true;
        return false;
      }
      found := Inspect(id, depth);
    }

    /** An object not being inspected for the property. */
    method Inspect(id: Visit, depth: nat) returns (found: bool)
      requires depth < MAX_CONSTRAINT_DEPTH && id.Inspecting? && id !in active
      modifies this`active, this`activeRefs, this`visited, this`cut
      ensures active == old(active) && activeRefs == old(activeRefs) && (old(cut) ==> cut)
      ensures found ==> PropertyFinds(doc, Node(id.id), id.name, id.kind, true)
      ensures !found && !cut ==> !PropertyFinds(doc, Node(id.id), id.name, id.kind, false)
      ensures Fits(doc, m) ==> visited <= old(visited) + m.cost(Node(id.id))
      ensures Ready(doc, m, old(Now()), Node(id.id), depth) ==> cut == old(cut)
      decreases MAX_CONSTRAINT_DEPTH - depth, 4
    {
      var obj := KeywordsOf(doc, id.id);
      if Ready(doc, m, Now(), Node(id.id), depth) { ReadyObject(doc, m, Now(), id, depth); }
      CostsFit(doc, m, id.id);
      PropertyFindsObject(doc, id.id, id.name, id.kind);
      visited := visited + 1;
      active := active + {id};
      found := DirectPropertyHas(obj, id.name, id.kind);
      if !found {
        found := HasWithin(obj, id.name, id.kind, depth);
      }
      active := active - {id};
    }

    /** propertySchemaHas: a subschema of the property is searched by an evaluator of its own. */
    method ChildHas(child: Json, kind: Kind) returns (found: bool)
      modifies this`cut
      ensures old(cut) ==> cut
      ensures found ==> Finds(doc, AsSchema(child), kind, false, true)
      ensures !found && !cut ==> !Finds(doc, AsSchema(child), kind, false, false)
      ensures Fits(doc, m) ==> cut == old(cut)
    {
      if AsSchema(child).Invalid? {
        return false;
      }
      var eval := new ConstraintEval(doc, m);
      found := eval.Has(AsSchema(child), kind);
      cut := cut || eval.cut;
    }

    /** The patternProperties keyword: some matching pattern's schema constrains the property. */
    method PatternHas(patterns: Keywords, names: seq<string>, name: string, kind: Kind)
      returns (found: bool, matched: bool)
      requires forall p :: p in names <==> p in patterns
      modifies this`cut
      ensures old(cut) ==> cut
      ensures found ==> exists p :: MatchFinds(doc, patterns, p, name, kind, true)
      ensures !found ==> (matched <==> exists p | p in patterns :: doc.matches(p, name))
      ensures !found && !cut ==> forall p :: !MatchFinds(doc, patterns, p, name, kind, false)
      ensures Fits(doc, m) ==> cut == old(cut)
    {
      matched := false;
      for i := 0 to |names|
        invariant (old(cut) ==> cut) && (Fits(doc, m) ==> cut == old(cut))
        invariant matched ==> exists p | p in patterns :: doc.matches(p, name)
        invariant !matched ==> forall j | 0 <= j < i :: !doc.matches(names[j], name)
        invariant !cut ==> forall j | 0 <= j < i :: !MatchFinds(doc, patterns, names[j], name, kind, false)
      {
        assert names[i] in patterns;
        if !doc.matches(names[i], name) {
          continue;
        }
        matched := true;
        found := ChildHas(patterns[names[i]], kind);
        if found {
          assert MatchFinds(doc, patterns, names[i], name, kind, true);
          return;
        }
      }
      found := false;
    }

    /** The object's own properties, patternProperties and additionalProperties keywords. */
    method DirectPropertyHas(obj: Keywords, name: string, kind: Kind) returns (found: bool)
      modifies this`cut
      ensures old(cut) ==> cut
      ensures found ==> DirectPropertyFinds(doc, obj, name, kind, true)
      ensures !found && !cut ==> !DirectPropertyFinds(doc, obj, name, kind, false)
      ensures Fits(doc, m) ==> cut == old(cut)
    {
      DirectPropertyParts(doc, obj, name, kind, true);
      DirectPropertyParts(doc, obj, name, kind, false);
      var props, patterns := PropertySchemas(doc, obj), PatternSchemas(doc, obj);
      if name in props {
        found := ChildHas(props[name], kind);
        if found {
          return true;
        }
      }
      var matched;
      found, matched := PatternHas(patterns, Sorted(patterns.Keys), name, kind);
      if !found && name !in props && !matched && "additionalProperties" in obj {
        found := ChildHas(obj["additionalProperties"], kind);
      }
    }

    /** propertyHas beyond the object's own keywords: reference, conjuncts, dependents, disjunctions. */
    method HasWithin(obj: Keywords, name: string, kind: Kind, depth: nat) returns (found: bool)
      requires depth < MAX_CONSTRAINT_DEPTH
      modifies this`active, this`activeRefs, this`visited, this`cut
      ensures active == old(active) && activeRefs == old(activeRefs) && (old(cut) ==> cut)
      ensures found ==> WithinFinds(doc, obj, name, kind, true)
      ensures !found && !cut ==> !WithinFinds(doc, obj, name, kind, false)
      ensures Fits(doc, m) ==> visited <= old(visited) + InPlaceCosts(doc, m, obj)
      ensures ReadyUnder(doc, m, old(Now()), obj, depth, InPlaceCosts(doc, m, obj)) ==> cut == old(cut)
      decreases MAX_CONSTRAINT_DEPTH - depth, 3
    {
      ghost var start, costs := Now(), InPlaceCosts(doc, m, obj);
      ghost var fine := ReadyUnder(doc, m, start, obj, depth, costs);
      if fine { ReadyStill(doc, m, start, obj, depth, costs, start, m.cost(RefTarget(doc, obj))); }
      found := ReferenceHas(obj, name, kind, depth);
      if found {
        return true;
      }
      if fine { StillReady(doc, m, start, obj, depth, costs, Now(), Branches(obj, "allOf")); }
      found := SomeHas(Branches(obj, "allOf"), name, kind, depth, fine);
      if found {
        return true;
      }
      if fine { StillReady(doc, m, start, obj, depth, costs, Now(), RequiredDependents(doc, obj)); }
      found := SomeHas(RequiredDependents(doc, obj), name, kind, depth, fine);
      if found {
        return true;
      }
      if fine { StillReady(doc, m, start, obj, depth, costs, Now(), Branches(obj, "anyOf")); }
      found := EveryOpenHas(obj, Branches(obj, "anyOf"), name, kind, depth, fine);
      if found {
        return true;
      }
      if fine { StillReady(doc, m, start, obj, depth, costs, Now(), Branches(obj, "oneOf")); }
      found := EveryOpenHas(obj, Branches(obj, "oneOf"), name, kind, depth, fine);
    }

    /** The $ref keyword of propertyHas. */
    method ReferenceHas(obj: Keywords, name: string, kind: Kind, depth: nat) returns (found: bool)
      requires depth < MAX_CONSTRAINT_DEPTH
      modifies this`active, this`activeRefs, this`visited, this`cut
      ensures active == old(active) && activeRefs == old(activeRefs) && (old(cut) ==> cut)
      ensures found ==> !RefTarget(doc, obj).Invalid? && PropertyFinds(doc, RefTarget(doc, obj), name, kind, true)
      ensures !found && !cut ==>
              RefTarget(doc, obj).Invalid? || !PropertyFinds(doc, RefTarget(doc, obj), name, kind, false)
      ensures Fits(doc, m) ==> visited <= old(visited) + m.cost(RefTarget(doc, obj))
      ensures ReadyUnder(doc, m, old(Now()), obj, depth, m.cost(RefTarget(doc, obj))) ==> cut == old(cut)
      decreases MAX_CONSTRAINT_DEPTH - depth, 1
    {
      found := false;
      var ref := Get(obj, "$ref");
      if ref.String? {
        if ReadyUnder(doc, m, Now(), obj, depth, m.cost(RefTarget(doc, obj))) {
          ReadyReference(doc, m, Now(), obj, ref.text, depth, m.cost(RefTarget(doc, obj)));
        }
        if ref.text in activeRefs {
          cut := true;
          return;
        }
        var target := ResolveLocalRef(doc, ref.text);
        if !target.Invalid? {
          activeRefs := activeRefs + {ref.text};
          found := PropertyHas(target, name, kind, depth + 1);
          activeRefs := activeRefs - {ref.text};
        }
      }
    }

    method SomeHas(branches: seq<Schema>, name: string, kind: Kind, depth: nat, ghost fine: bool) returns (found: bool)
      requires depth < MAX_CONSTRAINT_DEPTH && (fine ==> AllReady(doc, m, Now(), branches, depth + 1))
      modifies this`active, this`activeRefs, this`visited, this`cut
      ensures active == old(active) && activeRefs == old(activeRefs) && (old(cut) ==> cut)
      ensures found ==> PropertyFindsSome(doc, branches, name, kind, true)
      ensures !found && !cut ==> !PropertyFindsSome(doc, branches, name, kind, false)
      ensures Fits(doc, m) ==> visited <= old(visited) + CostAll(m, branches)
      ensures fine ==> cut == old(cut)
      decreases MAX_CONSTRAINT_DEPTH - depth, 1
    {
      ghost var start := Now();
      for i := 0 to |branches|
        invariant active == old(active) && activeRefs == old(activeRefs) && (old(cut) ==> cut)
        invariant !cut ==> forall j | 0 <= j < i :: !PropertyFinds(doc, branches[j], name, kind, false)
        invariant Fits(doc, m) ==> visited <= start.visited + CostAll(m, branches[..i])
        invariant fine ==> cut == old(cut)
      {
        found := HasNext(branches, i, name, kind, depth, start, fine);
        if found {
          return true;
        }
      }
      assert branches[..|branches|] == branches;
      found := false;
    }

    method HasNext(ss: seq<Schema>, i: nat, name: string, kind: Kind, depth: nat, ghost start: Guards,
                   ghost fine: bool)
      returns (found: bool)
      requires depth < MAX_CONSTRAINT_DEPTH && i < |ss| && start.active == active && start.refs == activeRefs
      requires Fits(doc, m) ==> visited <= start.visited + CostAll(m, ss[..i])
      requires fine ==> AllReady(doc, m, start, ss, depth + 1)
      modifies this`active, this`activeRefs, this`visited, this`cut
      ensures active == old(active) && activeRefs == old(activeRefs) && (old(cut) ==> cut)
      ensures found ==> PropertyFinds(doc, ss[i], name, kind, true)
      ensures !found && !cut ==> !PropertyFinds(doc, ss[i], name, kind, false)
      ensures Fits(doc, m) ==> visited <= start.visited + CostAll(m, ss[..i + 1]) <= start.visited + CostAll(m, ss)
      ensures fine ==> cut == old(cut)
      decreases MAX_CONSTRAINT_DEPTH - depth, 0
    {
      if fine { ReadyNext(doc, m, start, ss, depth + 1, i, visited); }
      CostSoFar(m, ss, i);
      found := PropertyHas(ss[i], name, kind, depth + 1);
    }

    /** One of the disjuncts searched in order; those that contribute no object with the property are not. */
    method OpenHasNext(obj: Keywords, ss: seq<Schema>, i: nat, name: string, kind: Kind, depth: nat,
                       ghost start: Guards, ghost fine: bool)
      returns (closed: bool, found: bool)
      requires depth < MAX_CONSTRAINT_DEPTH && i < |ss| && start.active == active && start.refs == activeRefs
      requires Fits(doc, m) ==> visited <= start.visited + CostAll(m, ss[..i])
      requires fine ==> AllReady(doc, m, start, ss, depth + 1)
      modifies this`active, this`activeRefs, this`visited, this`cut
      ensures active == old(active) && activeRefs == old(activeRefs) && (old(cut) ==> cut)
      ensures closed ==> Closed(doc, obj, ss[i], name)
      ensures !closed && !cut ==> !Closed(doc, obj, ss[i], name)
      ensures !closed && found ==> PropertyFinds(doc, ss[i], name, kind, true)
      ensures !closed && !found && !cut ==> !PropertyFinds(doc, ss[i], name, kind, false)
      ensures Fits(doc, m) ==> visited <= start.visited + CostAll(m, ss[..i + 1]) <= start.visited + CostAll(m, ss)
      ensures fine ==> cut == old(cut)
      decreases MAX_CONSTRAINT_DEPTH - depth, 1
    {
      CostSoFar(m, ss, i);
      if fine { assert ss[i] in ss; }
      closed := BranchClosed(obj, ss[i], name, depth);
      found := false;
      if !closed {
        found := HasNext(ss, i, name, kind, depth, start, fine);
      }
    }

    method EveryOpenHas(obj: Keywords, branches: seq<Schema>, name: string, kind: Kind, depth: nat, ghost fine: bool)
      returns (found: bool)
      requires depth < MAX_CONSTRAINT_DEPTH && (fine ==> AllReady(doc, m, Now(), branches, depth + 1))
      modifies this`active, this`activeRefs, this`visited, this`cut
      ensures active == old(active) && activeRefs == old(activeRefs) && (old(cut) ==> cut)
      ensures found ==> PropertyFindsEvery(doc, obj, branches, name, kind, true)
      ensures !found && !cut ==> !PropertyFindsEvery(doc, obj, branches, name, kind, false)
      ensures Fits(doc, m) ==> visited <= old(visited) + CostAll(m, branches)
      ensures fine ==> cut == old(cut)
      decreases MAX_CONSTRAINT_DEPTH - depth, 2
    {
      ghost var start := Now();
      var anyOpen := false;
      for i := 0 to |branches|
        invariant active == old(active) && activeRefs == old(activeRefs) && (old(cut) ==> cut)
        invariant FoundSoFar(doc, obj, branches[..i], name, kind, anyOpen)
        invariant Fits(doc, m) ==> visited <= start.visited + CostAll(m, branches[..i])
        invariant fine ==> cut == old(cut)
      {
        var closed;
        closed, found := OpenHasNext(obj, branches, i, name, kind, depth, start, fine);
        if !closed && !found {
          OneNotFound(doc, obj, branches, i, name, kind);
          return false;
        }
        OneMoreFound(doc, obj, branches, i, name, kind, anyOpen, closed);
        anyOpen := anyOpen || !closed;
      }
      assert branches[..|branches|] == branches;
      found := anyOpen;
    }

    // ---- The whole question ----

    method ResetGuards()
      modifies this`active, this`activeRefs, this`visited
      ensures active == {} && activeRefs == {} && visited == 0
    {
      visited, active, activeRefs := 0, {}, {};
    }

    /** The part of unconstrained that looks at the object around: is the property forbidden there, does some
        keyword speak about it, and is it constrained by those that do? */
    method AskInstance(instance: Schema, propName: string, kind: Kind) returns (asked: bool, constrained: bool)
      modifies this`active, this`activeRefs, this`visited, this`cut
      ensures old(cut) ==> cut
      ensures asked ==> Forbidden(doc, instance, propName) || Speaks(doc, instance, propName)
      ensures ForbidsItself(doc, instance, propName) ==> asked && constrained
      ensures asked && constrained ==>
              Forbidden(doc, instance, propName) || PropertyFinds(doc, instance, propName, kind, true)
      ensures !cut ==> (asked <==> Forbidden(doc, instance, propName) || Applies(doc, instance, propName))
      ensures !cut && asked && !constrained ==>
                !Forbidden(doc, instance, propName) && !PropertyFinds(doc, instance, propName, kind, false)
      ensures activeRefs == {} && (Fits(doc, m) ==> cut == old(cut))
    {
      constrained := false;
      FreshIsReady(doc, m, instance);
      ResetGuards();
      var forbidden := PropertyForbidden(instance, propName, 0);
      if forbidden {
        return true, true;
      }
      ResetGuards();
      asked := PropertyApplies(instance, propName, 0);
      if asked {
        ResetGuards();
        constrained := PropertyHas(instance, propName, kind, 0);
      }
    }

    /** Does the node, or its origin, accept a string-like value that no constraint of this kind governs? */
    method Unconstrained(node: Schema, origin: Schema, instance: Schema, propName: string, kind: Kind)
      returns (open: bool)
      requires Valid()
      modifies this
      ensures Valid() && old(memo) <= memo
      ensures !open ==> ConstrainedAtMost(doc, node, origin, instance, propName, kind)
      ensures open ==> !SurelySilent(doc, instance, propName)
      ensures open && !cut ==> !Constrained(doc, node, origin, instance, propName, kind)
      ensures old(activeRefs) == {} ==> activeRefs == {} && (Fits(doc, m) ==> !cut)
    {
      cut := false;
      FreshIsReady(doc, m, origin);
      FreshIsReady(doc, m, node);
      var viable := ViableForKind(origin, 0);
      if !viable {
        return false;
      }
      viable := ViableForKind(node, 0);
      if !viable {
        return false;
      }
      open := OpenAround(origin, instance, propName, kind);
    }

    /** unconstrained once viability is settled. */
    method OpenAround(origin: Schema, instance: Schema, propName: string, kind: Kind) returns (open: bool)
      requires Valid()
      modifies this
      ensures Valid() && old(memo) <= memo && (old(cut) ==> cut)
      ensures !open ==> FoundAroundAtMost(doc, origin, instance, propName, kind)
      ensures open ==> !SurelySilent(doc, instance, propName)
      ensures open && !cut ==> !FoundAround(doc, origin, instance, propName, kind)
      ensures activeRefs == {} && (Fits(doc, m) ==> cut == old(cut))
    {
      if !instance.Invalid? && propName != "" {
        var asked, constrained := AskInstance(instance, propName, kind);
        if asked {
          return !constrained;
        }
      }
      var found := Has(origin, kind);
      open := !found;
    }
  }

  lemma PropertyFindsObject(doc: Document, id: ObjectId, name: string, kind: Kind)
    ensures forall v :: PropertyFinds(doc, Node(id), name, kind, v) <==>
              DirectPropertyFinds(doc, KeywordsOf(doc, id), name, kind, v)
              || WithinFinds(doc, KeywordsOf(doc, id), name, kind, v)
  {
  }

  /** What is kept of the entries looked at so far. */
  ghost predicate Sifted(doc: Document, items: seq<Json>, kept: seq<Json>, cut: bool) {
    && (forall j | j in items :: InertItem(doc, j) || j in kept)
    && (forall j | j in kept :: j in items && (!cut ==> !InertItem(doc, j)))
  }

  lemma SiftNone(doc: Document, m: Measure, items: seq<Json>, cut: bool)
    ensures Sifted(doc, items[..0], [], cut) && ItemCosts(m, items[..0]) == 0 && AllSchemas(items[..0])
  {
  }

  ghost predicate SiftedBranches(doc: Document, branches: seq<Schema>, viable: seq<Schema>, arrayCtx: bool, cut: bool) {
    && (forall b | b in branches :: Skipped(doc, b, arrayCtx) || b in viable)
    && (forall b | b in viable :: b in branches && (!cut ==> !Skipped(doc, b, arrayCtx)))
  }

  lemma SiftNoBranch(doc: Document, m: Measure, branches: seq<Schema>, arrayCtx: bool, cut: bool)
    ensures SiftedBranches(doc, branches[..0], [], arrayCtx, cut) && CostAll(m, branches[..0]) == 0
  {
  }

  lemma SiftBranch(doc: Document, m: Measure, branches: seq<Schema>, i: nat, viable: seq<Schema>, arrayCtx: bool,
                   before: bool, cut: bool, keep: bool)
    requires i < |branches| && SiftedBranches(doc, branches[..i], viable, arrayCtx, before) && (before ==> cut)
    requires if keep then !cut ==> !Skipped(doc, branches[i], arrayCtx) else Skipped(doc, branches[i], arrayCtx)
    requires CostAll(m, viable) <= CostAll(m, branches[..i])
    ensures var viable' := if keep then viable + [branches[i]] else viable;
            && SiftedBranches(doc, branches[..i + 1], viable', arrayCtx, cut)
            && CostAll(m, viable') <= CostAll(m, branches[..i + 1])
  {
    assert branches[..i + 1] == branches[..i] + [branches[i]];
    CostSoFar(m, branches, i);
    CostOneMore(m, viable, branches[i]);
  }

  predicate AllSchemas(items: seq<Json>) { forall j | j in items :: !AsSchema(j).Invalid? }

  lemma NextSchema(items: seq<Json>, i: nat)
    requires i < |items| && AllSchemas(items[..i])
    ensures if AsSchema(items[i]).Invalid? then !AllSchemas(items) else AllSchemas(items[..i + 1])
  {
    assert items[i] in items && items[..i + 1] == items[..i] + [items[i]];
  }

  lemma SiftOne(doc: Document, m: Measure, items: seq<Json>, i: nat, kept: seq<Json>, before: bool, cut: bool,
                keep: bool)
    requires i < |items| && Sifted(doc, items[..i], kept, before) && (before ==> cut)
    requires (!keep ==> InertItem(doc, items[i])) && (keep && !cut ==> !InertItem(doc, items[i]))
    requires ItemCosts(m, kept) <= ItemCosts(m, items[..i])
    ensures var kept' := if keep then kept + [items[i]] else kept;
            Sifted(doc, items[..i + 1], kept', cut) && ItemCosts(m, kept') <= ItemCosts(m, items[..i + 1])
    ensures keep ==> SchemasOf(kept + [items[i]]) == SchemasOf(kept) + [AsSchema(items[i])]
  {
    assert items[..i + 1] == items[..i] + [items[i]];
    SiftMore(doc, items[..i], kept, items[i], before, cut, keep);
    ItemCostSoFar(m, items, i);
    ItemCostOneMore(m, kept, items[i]);
    SchemasOneMore(kept, items[i]);
  }

  lemma SiftMore(doc: Document, items: seq<Json>, kept: seq<Json>, j: Json, before: bool, cut: bool, keep: bool)
    requires Sifted(doc, items, kept, before) && (before ==> cut)
    requires (!keep ==> InertItem(doc, j)) && (keep && !cut ==> !InertItem(doc, j))
    ensures Sifted(doc, items + [j], if keep then kept + [j] else kept, cut)
  {
  }

  /** The disjuncts so far contribute nothing with the property, or are found to constrain it. */
  ghost predicate FoundSoFar(doc: Document, obj: Keywords, branches: seq<Schema>, name: string, kind: Kind,
                             anyOpen: bool) {
    && (forall b | b in branches :: Closed(doc, obj, b, name) || PropertyFinds(doc, b, name, kind, true))
    && (if anyOpen then branches != [] else forall b | b in branches :: Closed(doc, obj, b, name))
  }

  lemma OneMoreFound(doc: Document, obj: Keywords, branches: seq<Schema>, i: nat, name: string, kind: Kind,
                     anyOpen: bool, closed: bool)
    requires i < |branches| && FoundSoFar(doc, obj, branches[..i], name, kind, anyOpen)
    requires if closed then Closed(doc, obj, branches[i], name) else PropertyFinds(doc, branches[i], name, kind, true)
    ensures FoundSoFar(doc, obj, branches[..i + 1], name, kind, anyOpen || !closed)
  {
    assert branches[..i + 1] == branches[..i] + [branches[i]];
  }

  lemma OneNotFound(doc: Document, obj: Keywords, branches: seq<Schema>, i: nat, name: string, kind: Kind)
    requires i < |branches|
    ensures !Closed(doc, obj, branches[i], name) && !PropertyFinds(doc, branches[i], name, kind, false) ==>
            !PropertyFindsEvery(doc, obj, branches, name, kind, false)
  {
    assert branches[i] in branches;
  }

  lemma KeptFound(doc: Document, items: seq<Json>, kept: seq<Json>, kind: Kind)
    requires forall j | j in items :: !AsSchema(j).Invalid? && (InertItem(doc, j) || j in kept)
    ensures (forall s | s in SchemasOf(kept) :: Finds(doc, s, kind, false, true)) ==>
              FindsElements(doc, Some(items), kind, true)
    ensures (exists s | s in SchemasOf(kept) :: !Finds(doc, s, kind, false, false))
            && (forall j | j in kept :: j in items && !InertItem(doc, j)) ==>
              !FindsElements(doc, Some(items), kind, false)
  {
    forall j | j in kept ensures AsSchema(j) in SchemasOf(kept) {
      var i :| 0 <= i < |kept| && kept[i] == j;
      assert SchemasOf(kept)[i] == AsSchema(j);
    }
    if s :| s in SchemasOf(kept) && !Finds(doc, s, kind, false, false) {
      var i :| 0 <= i < |kept| && s == AsSchema(kept[i]);
      assert kept[i] in kept;
    }
  }

  ghost predicate CompositionFinds(doc: Document, obj: Keywords, kind: Kind, arrayCtx: bool, vacuous: bool) {
    var anyCtx := arrayCtx || DeclaresArrayOnly(obj);
    || FindsSome(doc, Branches(obj, "allOf"), kind, arrayCtx || AllOfForces(doc, obj, vacuous), vacuous)
    || FindsEvery(doc, Branches(obj, "anyOf"), kind, anyCtx, vacuous)
    || FindsEvery(doc, Branches(obj, "oneOf"), kind, anyCtx, vacuous)
  }

  ghost predicate ObjectFinds(doc: Document, obj: Keywords, kind: Kind, arrayCtx: bool, vacuous: bool) {
    || Direct(obj, kind)
    || (!RefTarget(doc, obj).Invalid? && Finds(doc, RefTarget(doc, obj), kind, arrayCtx, vacuous))
    || CompositionFinds(doc, obj, kind, arrayCtx, vacuous)
    || (ArrayConstraintApplies(obj, arrayCtx) && FindsElements(doc, ElementSchemas(obj), kind, vacuous))
  }

  lemma FindsObject(doc: Document, id: ObjectId, kind: Kind, arrayCtx: bool)
    ensures forall v :: Finds(doc, Node(id), kind, arrayCtx, v) <==>
            ObjectFinds(doc, KeywordsOf(doc, id), kind, arrayCtx, v)
  {
  }

  ghost predicate WithinFinds(doc: Document, obj: Keywords, name: string, kind: Kind, vacuous: bool) {
    || (!RefTarget(doc, obj).Invalid? && PropertyFinds(doc, RefTarget(doc, obj), name, kind, vacuous))
    || PropertyFindsSome(doc, Branches(obj, "allOf"), name, kind, vacuous)
    || PropertyFindsSome(doc, RequiredDependents(doc, obj), name, kind, vacuous)
    || PropertyFindsEvery(doc, obj, Branches(obj, "anyOf"), name, kind, vacuous)
    || PropertyFindsEvery(doc, obj, Branches(obj, "oneOf"), name, kind, vacuous)
  }

  ghost predicate MatchFinds(doc: Document, patterns: Keywords, p: string, name: string, kind: Kind, vacuous: bool) {
    p in patterns && doc.matches(p, name) && Finds(doc, AsSchema(patterns[p]), kind, false, vacuous)
  }

  lemma DirectPropertyParts(doc: Document, obj: Keywords, name: string, kind: Kind, vacuous: bool)
    ensures DirectPropertyFinds(doc, obj, name, kind, vacuous) <==>
      || (PropertyDeclared(doc, obj, name)
          && Finds(doc, AsSchema(PropertySchemas(doc, obj)[name]), kind, false, vacuous))
      || (exists p :: MatchFinds(doc, PatternSchemas(doc, obj), p, name, kind, vacuous))
      || (!PropertyDeclared(doc, obj, name) && !PatternMatches(doc, obj, name) && "additionalProperties" in obj
          && Finds(doc, AsSchema(obj["additionalProperties"]), kind, false, vacuous))
  {
    var props, patterns := PropertySchemas(doc, obj), PatternSchemas(doc, obj);
    if name in props { assert Governs(doc, obj, name, props[name]); }
    if exists p :: MatchFinds(doc, patterns, p, name, kind, vacuous) {
      var p :| MatchFinds(doc, patterns, p, name, kind, vacuous);
      assert Governs(doc, obj, name, patterns[p]);
    } else if DirectPropertyFinds(doc, obj, name, kind, vacuous) {
      var child :| Governs(doc, obj, name, child) && Finds(doc, AsSchema(child), kind, false, vacuous);
      forall p | p in patterns && doc.matches(p, name) ensures patterns[p] != child {
        assert !MatchFinds(doc, patterns, p, name, kind, vacuous);
      }
    }
    if !PropertyDeclared(doc, obj, name) && !PatternMatches(doc, obj, name) && "additionalProperties" in obj {
      assert Governs(doc, obj, name, obj["additionalProperties"]);
    }
  }

  lemma BarrenParts(doc: Document, prefix: seq<Json>, elems: seq<Json>, tail: Json)
    ensures BarrenElements(doc, Some(prefix + elems + [tail])) <==>
            BarrenElements(doc, Some(prefix)) && BarrenElements(doc, Some(elems)) && BarrenElements(doc, Some([tail]))
  {
    var all := prefix + elems + [tail];
    assert forall e :: e in all <==> e in prefix || e in elems || e in [tail];
    assert BarrenElements(doc, Some([tail])) <==> !AsSchema(tail).Invalid? && Barren(doc, AsSchema(tail));
  }

  lemma BarrenPrefix(doc: Document, obj: Keywords)
    ensures BarrenElements(doc, ElementSchemas(obj)) ==> BarrenElements(doc, Some(PrefixItems(obj)))
  {
    if BarrenElements(doc, ElementSchemas(obj)) {
      forall e | e in PrefixItems(obj) ensures !AsSchema(e).Invalid? && Barren(doc, AsSchema(e)) {
        assert e in ElementSchemas(obj).value;
      }
    }
  }

  ghost predicate InertItem(doc: Document, e: Json) { !AsSchema(e).Invalid? && Barren(doc, AsSchema(e)) }

  lemma FindsParts(doc: Document, prefix: seq<Json>, elems: seq<Json>, tail: Json, kind: Kind, vacuous: bool)
    ensures FindsElements(doc, Some(prefix + elems + [tail]), kind, vacuous) <==>
            && FindsElements(doc, Some(prefix), kind, vacuous)
            && FindsElements(doc, Some(elems), kind, vacuous)
            && FindsElements(doc, Some([tail]), kind, vacuous)
  {
    var all := prefix + elems + [tail];
    assert forall e :: e in all <==> e in prefix || e in elems || e in [tail];
  }

  lemma FindsPrefix(doc: Document, obj: Keywords, kind: Kind)
    ensures FindsElements(doc, ElementSchemas(obj), kind, false) ==>
            FindsElements(doc, Some(PrefixItems(obj)), kind, false)
  {
    if FindsElements(doc, ElementSchemas(obj), kind, false) {
      forall e | e in PrefixItems(obj)
        ensures !AsSchema(e).Invalid? && (Barren(doc, AsSchema(e)) || Finds(doc, AsSchema(e), kind, false, false))
      {
        assert e in ElementSchemas(obj).value;
      }
    }
  }
}
