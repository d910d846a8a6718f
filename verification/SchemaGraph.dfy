/** The walk without limits, over any graph of schemas. It ends because the path it is on cannot
    hold every object twice, and it enters exactly what can be reached. */
module SchemaGraph {
  import opened Text
  import opened JsonDocument
  import opened SchemaWalk

  /** children are the entries below a frame, ref is the reference of a node and resolve its target. sub says
      which schemas apply to parts of an object's instances. Objects outside the finite set objects have a
      rank instead, higher than that of anything below them. */
  datatype Graph = Graph(children: Entry -> seq<Entry>, ref: ObjectId -> Option<string>, resolve: string -> Schema,
                         objects: set<ObjectId>, rank: Schema -> nat, sub: (ObjectId, Schema) -> bool)

  const MAX_RANK: nat := 2

  function RefOf(g: Graph, id: ObjectId): Schema {
    match g.ref(id)
    case None => Invalid
    case Some(ref) => g.resolve(ref)
  }

  ghost function MaxRank(g: Graph, entries: seq<Entry>): nat {
    if entries == [] then 0
    else
      var rest := MaxRank(g, entries[1..]);
      if rest < g.rank(entries[0].frame.node) then g.rank(entries[0].frame.node) else rest
  }

  ghost predicate SoundAt(g: Graph, e: Entry, id: ObjectId) {
    && (forall c | c in g.children(e) :: !c.frame.node.Invalid? && c.frame.depth == e.frame.depth + 1)
    && (if id in g.objects then MaxRank(g, g.children(e)) <= MAX_RANK && g.rank(RefOf(g, id)) <= MAX_RANK
        else MaxRank(g, g.children(e)) < g.rank(Node(id)) && g.rank(RefOf(g, id)) < g.rank(Node(id)))
    && (forall m: Schema | !m.Invalid? :: g.sub(id, m) <==> Enters(g.children(e), m) || RefOf(g, id) == m)
    && !g.sub(id, Invalid)
  }

  ghost predicate Sound(g: Graph) {
    forall e: Entry | e.frame.node.Node? :: SoundAt(g, e, e.frame.node.id)
  }

  /** A call of enter that passed the limits: entered, or turned back at a node that is on the path
      already (or is no schema). */
  datatype Attempt = Attempt(entry: Entry, entered: bool)

  /** There is strictly less room below every object entered. */
  ghost function Room(g: Graph, active: set<ObjectId>, rank: nat): nat {
    (MAX_RANK + 1) * |g.objects - active| + rank
  }

  lemma LessRoom(g: Graph, e: Entry, id: ObjectId, active: set<ObjectId>)
    requires Sound(g) && e.frame.node == Node(id) && id !in active
    ensures Room(g, active + {id}, MaxRank(g, g.children(e))) < Room(g, active, g.rank(Node(id)))
    ensures Room(g, active + {id}, g.rank(RefOf(g, id))) < Room(g, active, g.rank(Node(id)))
  {
    var before, after := g.objects - active, g.objects - (active + {id});
    assert SoundAt(g, e, id);
    if id in g.objects {
      assert after == before - {id};
    } else {
      assert after == before;
    }
  }

  /** Everything enter does when it is given no limit. active holds the objects on the path and refs
      the references being followed. */
  ghost function Walk(g: Graph, e: Entry, active: set<ObjectId>, refs: set<string>): seq<Attempt>
    requires Sound(g)
    decreases Room(g, active, g.rank(e.frame.node)), 0, 0
  {
    match e.frame.node
    case Invalid => [Attempt(e, false)]
    case Node(id) =>
      if id in active then [Attempt(e, false)]
      else
        LessRoom(g, e, id, active);
        [Attempt(e, true)] + Below(g, e, id, active + {id}, refs)
    case _ => [Attempt(e, true)]
  }

  /** What hangs off an object on the path: the reference first, then the applicators. */
  ghost function Below(g: Graph, e: Entry, id: ObjectId, active: set<ObjectId>, refs: set<string>): seq<Attempt>
    requires Sound(g)
    decreases Room(g, active, BelowRank(g, e, id)), 2, 0
  {
    WalkRef(g, e, id, active, refs) + WalkAll(g, g.children(e), active, refs)
  }

  ghost function BelowRank(g: Graph, e: Entry, id: ObjectId): nat {
    var r, c := g.rank(RefOf(g, id)), MaxRank(g, g.children(e));
    if r < c then c else r
  }

  ghost predicate Follows(g: Graph, id: ObjectId, refs: set<string>) {
    g.ref(id).Some? && g.ref(id).value !in refs && !RefOf(g, id).Invalid?
  }

  ghost function WalkRef(g: Graph, e: Entry, id: ObjectId, active: set<ObjectId>, refs: set<string>): seq<Attempt>
    requires Sound(g)
    decreases Room(g, active, g.rank(RefOf(g, id))), 1, 0
  {
    if Follows(g, id, refs) then Walk(g, RefEntry(e, RefOf(g, id)), active, refs + {g.ref(id).value}) else []
  }

  ghost function WalkAll(g: Graph, entries: seq<Entry>, active: set<ObjectId>, refs: set<string>): seq<Attempt>
    requires Sound(g)
    decreases Room(g, active, MaxRank(g, entries)), 1, |entries|
  {
    if entries == [] then []
    else Walk(g, entries[0], active, refs) + WalkAll(g, entries[1..], active, refs)
  }

  // ---- What it reaches ----

  least predicate Reachable(g: Graph, root: Schema, m: Schema) {
    m == root || exists id :: Reachable(g, root, Node(id)) && g.sub(id, m)
  }

  ghost predicate EntersNode(t: seq<Attempt>, m: Schema) {
    exists a | a in t :: a.entered && a.entry.frame.node == m
  }

  /** m was entered, or is on the path that led here. */
  ghost predicate Seen(t: seq<Attempt>, active: set<ObjectId>, m: Schema) {
    EntersNode(t, m) || (m.Node? && m.id in active)
  }

  ghost predicate SubschemasSeen(g: Graph, t: seq<Attempt>, active: set<ObjectId>, id: ObjectId) {
    forall m :: g.sub(id, m) ==> Seen(t, active, m)
  }

  ghost predicate Closed(g: Graph, t: seq<Attempt>, active: set<ObjectId>) {
    forall id :: EntersNode(t, Node(id)) ==> SubschemasSeen(g, t, active, id)
  }

  /** The targets of the references being followed are on the path, or just about to be. */
  ghost predicate RefsSeen(g: Graph, refs: set<string>, active: set<ObjectId>, next: Schema) {
    forall r | r in refs ::
      var target := g.resolve(r);
      target.Invalid? || target == next || (target.Node? && target.id in active)
  }

  lemma SeenMore(a: seq<Attempt>, b: seq<Attempt>, c: seq<Attempt>, active: set<ObjectId>, id: ObjectId, m: Schema)
    requires EntersNode(a, Node(id))
    requires Seen(a, active + {id}, m) || Seen(b, active + {id}, m) || Seen(c, active + {id}, m)
    ensures Seen(a + b + c, active, m)
  {
    EntersParts(a, b, c, m);
    EntersParts(a, b, c, Node(id));
  }

  lemma EntersParts(a: seq<Attempt>, b: seq<Attempt>, c: seq<Attempt>, m: Schema)
    ensures EntersNode(a + b + c, m) <==> EntersNode(a, m) || EntersNode(b, m) || EntersNode(c, m)
  {
    if EntersNode(a, m) { var x :| x in a && x.entered && x.entry.frame.node == m; assert x in a + b + c; }
    if EntersNode(b, m) { var x :| x in b && x.entered && x.entry.frame.node == m; assert x in a + b + c; }
    if EntersNode(c, m) { var x :| x in c && x.entered && x.entry.frame.node == m; assert x in a + b + c; }
  }

  /** Closure survives putting the parts of a walk together once the node they hang off is in it. */
  lemma ClosedTogether(g: Graph, a: seq<Attempt>, b: seq<Attempt>, c: seq<Attempt>, active: set<ObjectId>, id: ObjectId)
    requires EntersNode(a, Node(id)) && forall m :: EntersNode(a, m) ==> m == Node(id)
    requires forall m :: g.sub(id, m) ==>
             Seen(a, active + {id}, m) || Seen(b, active + {id}, m) || Seen(c, active + {id}, m)
    requires Closed(g, b, active + {id}) && Closed(g, c, active + {id})
    ensures Closed(g, a + b + c, active)
  {
    forall id' | EntersNode(a + b + c, Node(id')) ensures SubschemasSeen(g, a + b + c, active, id') {
      EntersParts(a, b, c, Node(id'));
      forall m | g.sub(id', m) ensures Seen(a + b + c, active, m) {
        SeenMore(a, b, c, active, id, m);
      }
    }
  }

  /** One object, what its reference leads to (b) and what is below it (c). */
  lemma ObjectIsClosed(g: Graph, e: Entry, id: ObjectId, active: set<ObjectId>, b: seq<Attempt>, c: seq<Attempt>)
    requires Sound(g) && e.frame.node == Node(id)
    requires Closed(g, b, active + {id}) && Closed(g, c, active + {id})
    requires forall m | Enters(g.children(e), m) :: Seen(c, active + {id}, m)
    requires var target := RefOf(g, id);
             !target.Invalid? ==> Seen(b, active + {id}, target)
    ensures var t := [Attempt(e, true)] + (b + c);
            Closed(g, t, active) && Seen(t, active, Node(id))
  {
    var here := [Attempt(e, true)];
    assert here[0] in here;
    forall m | g.sub(id, m) ensures Seen(b, active + {id}, m) || Seen(c, active + {id}, m) {
      assert SoundAt(g, e, id);
    }
    ClosedTogether(g, here, b, c, active, id);
    SeenMore(here, b, c, active, id, Node(id));
    assert here + b + c == here + (b + c);
  }

  lemma {:induction false} WalkIsClosed(g: Graph, e: Entry, active: set<ObjectId>, refs: set<string>)
    requires Sound(g) && !e.frame.node.Invalid? && RefsSeen(g, refs, active, e.frame.node)
    ensures var t := Walk(g, e, active, refs);
            Closed(g, t, active) && Seen(t, active, e.frame.node)
    decreases Room(g, active, g.rank(e.frame.node)), 0, 0
  {
    if e.frame.node.Node? && e.frame.node.id !in active {
      var id := e.frame.node.id;
      LessRoom(g, e, id, active);
      assert SoundAt(g, e, id);
      WalkRefIsClosed(g, e, id, active + {id}, refs);
      WalkAllIsClosed(g, g.children(e), active + {id}, refs);
      ObjectIsClosed(g, e, id, active, WalkRef(g, e, id, active + {id}, refs),
                     WalkAll(g, g.children(e), active + {id}, refs));
    } else if !e.frame.node.Node? {
      var here := [Attempt(e, true)];
      assert here[0] in here;
    }
  }

  lemma {:induction false} WalkRefIsClosed(g: Graph, e: Entry, id: ObjectId, active: set<ObjectId>, refs: set<string>)
    requires Sound(g) && RefsSeen(g, refs, active, Invalid)
    ensures var t, target := WalkRef(g, e, id, active, refs), RefOf(g, id);
            Closed(g, t, active) && (!target.Invalid? ==> Seen(t, active, target))
    decreases Room(g, active, g.rank(RefOf(g, id))), 1, 0
  {
    if Follows(g, id, refs) {
      WalkIsClosed(g, RefEntry(e, RefOf(g, id)), active, refs + {g.ref(id).value});
    }
  }

  lemma {:induction false} WalkAllIsClosed(g: Graph, entries: seq<Entry>, active: set<ObjectId>, refs: set<string>)
    requires Sound(g) && forall c | c in entries :: !c.frame.node.Invalid?
    requires RefsSeen(g, refs, active, Invalid)
    ensures var t := WalkAll(g, entries, active, refs);
            Closed(g, t, active) && forall m | Enters(entries, m) :: Seen(t, active, m)
    decreases Room(g, active, MaxRank(g, entries)), 1, |entries|
  {
    if entries != [] {
      var first, rest := Walk(g, entries[0], active, refs), WalkAll(g, entries[1..], active, refs);
      WalkIsClosed(g, entries[0], active, refs);
      WalkAllIsClosed(g, entries[1..], active, refs);
      ClosedInTurn(g, first, rest, active);
      forall m | Enters(entries, m) ensures Seen(first + rest, active, m) {
        SeenInTurn(first, rest, active, m);
      }
    }
  }

  lemma SeenInTurn(a: seq<Attempt>, b: seq<Attempt>, active: set<ObjectId>, m: Schema)
    ensures Seen(a + b, active, m) <==> Seen(a, active, m) || Seen(b, active, m)
  {
    EntersParts(a, b, [], m);
    assert a + b + [] == a + b;
  }

  lemma ClosedInTurn(g: Graph, a: seq<Attempt>, b: seq<Attempt>, active: set<ObjectId>)
    requires Closed(g, a, active) && Closed(g, b, active)
    ensures Closed(g, a + b, active)
  {
    forall id | EntersNode(a + b, Node(id)) ensures SubschemasSeen(g, a + b, active, id) {
      EntersParts(a, b, [], Node(id));
      assert a + b + [] == a + b;
      forall m | g.sub(id, m) ensures Seen(a + b, active, m) {
        SeenInTurn(a, b, active, m);
      }
    }
  }

  // ---- Nothing else is entered ----

  ghost predicate StaysWithin(t: seq<Attempt>, region: iset<Schema>) {
    forall m | EntersNode(t, m) :: m in region
  }

  /** A region that holds every subschema of the objects in it. */
  ghost predicate Region(g: Graph, region: iset<Schema>) {
    forall id, m :: Node(id) in region && g.sub(id, m) ==> m in region
  }

  lemma ChildrenWithin(g: Graph, region: iset<Schema>, e: Entry, id: ObjectId)
    requires Sound(g) && e.frame.node == Node(id) && Node(id) in region && Region(g, region)
    ensures forall c | c in g.children(e) :: c.frame.node in region
    ensures var target := RefOf(g, id); !target.Invalid? ==> target in region
  {
    var children, target := g.children(e), RefOf(g, id);
    forall m: Schema | !m.Invalid? && (Enters(children, m) || m == target) ensures m in region {
      assert SoundAt(g, e, id);
    }
    assert forall c | c in children :: Enters(children, c.frame.node);
  }

  lemma WithinTogether(region: iset<Schema>, a: seq<Attempt>, b: seq<Attempt>, c: seq<Attempt>)
    requires StaysWithin(a, region) && StaysWithin(b, region) && StaysWithin(c, region)
    ensures StaysWithin(a + b + c, region)
  {
    forall m | EntersNode(a + b + c, m) ensures m in region {
      EntersParts(a, b, c, m);
    }
  }

  lemma {:induction false} WalkStaysWithin(g: Graph, region: iset<Schema>, e: Entry, active: set<ObjectId>,
                                           refs: set<string>)
    requires Sound(g) && Region(g, region) && e.frame.node in region
    ensures StaysWithin(Walk(g, e, active, refs), region)
    decreases Room(g, active, g.rank(e.frame.node)), 0, 0
  {
    if e.frame.node.Node? && e.frame.node.id !in active {
      var id := e.frame.node.id;
      var children := g.children(e);
      LessRoom(g, e, id, active);
      ChildrenWithin(g, region, e, id);
      WalkRefStaysWithin(g, region, e, id, active + {id}, refs);
      WalkAllStaysWithin(g, region, children, active + {id}, refs);
      var here, b, c := [Attempt(e, true)], WalkRef(g, e, id, active + {id}, refs),
          WalkAll(g, children, active + {id}, refs);
      WithinTogether(region, here, b, c);
      assert here + b + c == here + (b + c);
    }
  }

  lemma {:induction false} WalkRefStaysWithin(g: Graph, region: iset<Schema>, e: Entry, id: ObjectId,
                                              active: set<ObjectId>, refs: set<string>)
    requires Sound(g) && Region(g, region)
    requires var target := RefOf(g, id); !target.Invalid? ==> target in region
    ensures StaysWithin(WalkRef(g, e, id, active, refs), region)
    decreases Room(g, active, g.rank(RefOf(g, id))), 1, 0
  {
    if Follows(g, id, refs) {
      WalkStaysWithin(g, region, RefEntry(e, RefOf(g, id)), active, refs + {g.ref(id).value});
    }
  }

  lemma {:induction false} WalkAllStaysWithin(g: Graph, region: iset<Schema>, entries: seq<Entry>,
                                              active: set<ObjectId>, refs: set<string>)
    requires Sound(g) && Region(g, region) && forall c | c in entries :: c.frame.node in region
    ensures StaysWithin(WalkAll(g, entries, active, refs), region)
    decreases Room(g, active, MaxRank(g, entries)), 1, |entries|
  {
    if entries != [] {
      var first, rest := Walk(g, entries[0], active, refs), WalkAll(g, entries[1..], active, refs);
      WalkStaysWithin(g, region, entries[0], active, refs);
      WalkAllStaysWithin(g, region, entries[1..], active, refs);
      WithinTogether(region, first, rest, []);
      assert first + rest + [] == first + rest;
    }
  }

  /** A set of entries without references that the walk does not leave. */
  ghost predicate Enclosed(g: Graph, region: iset<Entry>) {
    forall e | e in region && e.frame.node.Node? ::
      g.ref(e.frame.node.id).None? && forall c | c in g.children(e) :: c in region
  }

  lemma {:induction false} WalkIsEnclosed(g: Graph, region: iset<Entry>, e: Entry, active: set<ObjectId>,
                                          refs: set<string>)
    requires Sound(g) && Enclosed(g, region) && e in region
    ensures forall a | a in Walk(g, e, active, refs) :: a.entry in region
    decreases Room(g, active, g.rank(e.frame.node)), 0, 0
  {
    if e.frame.node.Node? && e.frame.node.id !in active {
      var id := e.frame.node.id;
      LessRoom(g, e, id, active);
      WalkAllIsEnclosed(g, region, g.children(e), active + {id}, refs);
      assert WalkRef(g, e, id, active + {id}, refs) == [];
      assert Walk(g, e, active, refs)
          == [Attempt(e, true)] + ([] + WalkAll(g, g.children(e), active + {id}, refs));
    }
  }

  lemma {:induction false} WalkAllIsEnclosed(g: Graph, region: iset<Entry>, entries: seq<Entry>,
                                             active: set<ObjectId>, refs: set<string>)
    requires Sound(g) && Enclosed(g, region) && forall c | c in entries :: c in region
    ensures forall a | a in WalkAll(g, entries, active, refs) :: a.entry in region
    decreases Room(g, active, MaxRank(g, entries)), 1, |entries|
  {
    if entries != [] {
      WalkIsEnclosed(g, region, entries[0], active, refs);
      WalkAllIsEnclosed(g, region, entries[1..], active, refs);
    }
  }

  least lemma {:induction false} ReachesAll(g: Graph, root: Schema, t: seq<Attempt>, m: Schema)
    requires Reachable(g, root, m) && Closed(g, t, {}) && EntersNode(t, root)
    ensures EntersNode(t, m)
  {
    if m != root {
      var id :| Reachable#[_k - 1](g, root, Node(id)) && g.sub(id, m);
      ReachesAll(g, root, t, Node(id));
      assert SubschemasSeen(g, t, {}, id);
    }
  }

  /** The walk enters what is reachable from its root and nothing else, cycles notwithstanding. */
  lemma WalkReachesExactly(g: Graph, e: Entry, m: Schema)
    requires Sound(g) && !e.frame.node.Invalid?
    ensures EntersNode(Walk(g, e, {}, {}), m) <==> Reachable(g, e.frame.node, m)
  {
    var root := e.frame.node;
    var region := iset m | Reachable(g, root, m);
    WalkIsClosed(g, e, {}, {});
    WalkStaysWithin(g, region, e, {}, {});
    if Reachable(g, root, m) {
      ReachesAll(g, root, Walk(g, e, {}, {}), m);
    }
  }
}
