/** The walk the program runs: the walk without limits over the graph of a document, cut short by a depth bound
    and a node budget. */
module SchemaWalkers {
  import opened Text
  import opened JsonDocument
  import opened JsonPointer
  import opened SchemaKeywords
  import opened SchemaWalk
  import opened SchemaGraph

  // ---- A document as a graph ----

  function ReferenceOf(doc: Document, id: ObjectId): Option<string> {
    var ref := Get(KeywordsOf(doc, id), "$ref");
    if ref.String? then Some(ref.text) else None
  }

  ghost function RankOf(doc: Document, s: Schema): nat {
    if IsBuilt(s) then 2 else if s.Node? && s.id.index >= |doc.heap| then 1 else 0
  }

  ghost function GraphOf(doc: Document): Graph {
    Graph(e => Applicators(doc, e), id => ReferenceOf(doc, id), ref => Resolve(doc, ref),
          set i | 0 <= i < |doc.heap| :: At(i), s => RankOf(doc, s), (id, m) => Subschema(doc, id, m))
  }

  /** What the walker needs of the graph of its document. */
  ghost predicate Describes(g: Graph, doc: Document) {
    && Sound(g)
    && (forall e {:trigger Applicators(doc, e)} :: g.children(e) == Applicators(doc, e))
    && (forall id {:trigger ReferenceOf(doc, id)} :: g.ref(id) == ReferenceOf(doc, id))
    && (forall ref {:trigger Resolve(doc, ref)} :: g.resolve(ref) == Resolve(doc, ref))
  }

  lemma {:induction false} MaxRankBound(g: Graph, entries: seq<Entry>, depth: nat, builds: bool)
    requires forall s :: g.rank(s) <= if IsBuilt(s) then 2 else 1
    requires AllDescend(entries, depth, builds)
    ensures MaxRank(g, entries) <= if builds then 2 else 1
  {
    if entries != [] {
      assert Descends(entries[0], depth, builds);
      MaxRankBound(g, entries[1..], depth, builds);
    }
  }

  lemma TargetRank(doc: Document, g: Graph, id: ObjectId)
    requires g == GraphOf(doc)
    ensures var target := RefTarget(doc, KeywordsOf(doc, id));
            && target == RefOf(g, id)
            && g.rank(target) <= MAX_RANK
            && (id in g.objects || g.rank(target) < g.rank(Node(id)))
  {
    assert RankOf(doc, RefTarget(doc, KeywordsOf(doc, id))) <= 1;
  }

  lemma ChildrenOf(doc: Document, g: Graph, e: Entry)
    requires g == GraphOf(doc)
    ensures g.children(e) == Applicators(doc, e)
  {
  }

  lemma RankIs(doc: Document, g: Graph)
    requires g == GraphOf(doc)
    ensures forall s :: g.rank(s) == RankOf(doc, s)
  {
  }

  lemma ChildrenRank(doc: Document, g: Graph, id: ObjectId, children: seq<Entry>, depth: nat)
    requires forall s :: g.rank(s) == RankOf(doc, s)
    requires AllDescend(children, depth, !IsBuilt(Node(id)))
    requires RankOf(doc, Node(id)) == 1 ==> children == []
    ensures MaxRank(g, children) <= MAX_RANK
    ensures RankOf(doc, Node(id)) == 0 || MaxRank(g, children) < g.rank(Node(id))
  {
    MaxRankBound(g, children, depth, !IsBuilt(Node(id)));
  }

  lemma ChildrenDescend(entries: seq<Entry>, depth: nat, builds: bool)
    requires AllDescend(entries, depth, builds)
    ensures forall c | c in entries :: !c.frame.node.Invalid? && c.frame.depth == depth
  {
  }

  lemma SubschemasHere(doc: Document, g: Graph, e: Entry, id: ObjectId)
    requires g == GraphOf(doc) && e.frame.node == Node(id)
    ensures forall m: Schema | !m.Invalid? :: g.sub(id, m) <==>
            Enters(Applicators(doc, e), m) || RefTarget(doc, KeywordsOf(doc, id)) == m
    ensures !g.sub(id, Invalid)
  {
    SubIs(doc, g);
    forall m: Schema | !m.Invalid?
      ensures g.sub(id, m) <==> Enters(Applicators(doc, e), m) || RefTarget(doc, KeywordsOf(doc, id)) == m
    {
      EnteredSubschemas(doc, e, id, m);
    }
  }

  lemma SubIs(doc: Document, g: Graph)
    requires g == GraphOf(doc)
    ensures forall id, m :: g.sub(id, m) <==> Subschema(doc, id, m)
  {
  }

  lemma SoundFrom(g: Graph, e: Entry, id: ObjectId, children: seq<Entry>, target: Schema)
    requires g.children(e) == children && target == RefOf(g, id)
    requires forall c | c in children :: !c.frame.node.Invalid? && c.frame.depth == e.frame.depth + 1
    requires MaxRank(g, children) <= MAX_RANK && (id in g.objects || MaxRank(g, children) < g.rank(Node(id)))
    requires g.rank(target) <= MAX_RANK && (id in g.objects || g.rank(target) < g.rank(Node(id)))
    requires forall m: Schema | !m.Invalid? :: g.sub(id, m) <==> Enters(children, m) || target == m
    requires !g.sub(id, Invalid)
    ensures SoundAt(g, e, id)
  {
  }

  lemma SoundHere(doc: Document, g: Graph, e: Entry, id: ObjectId)
    requires g == GraphOf(doc) && e.frame.node == Node(id)
    ensures SoundAt(g, e, id)
  {
    var children, target := Applicators(doc, e), RefTarget(doc, KeywordsOf(doc, id));
    ChildrenDescend(children, e.frame.depth + 1, !IsBuilt(e.frame.node));
    TargetRank(doc, g, id);
    ChildrenOf(doc, g, e);
    RankIs(doc, g);
    if RankOf(doc, Node(id)) == 1 {
      NothingBelow(doc, e, id);
    }
    ChildrenRank(doc, g, id, children, e.frame.depth + 1);
    SubschemasHere(doc, g, e, id);
    SoundFrom(g, e, id, children, target);
  }

  lemma GraphDescribes(doc: Document)
    ensures Describes(GraphOf(doc), doc)
  {
    var g := GraphOf(doc);
    forall e: Entry | e.frame.node.Node? ensures SoundAt(g, e, e.frame.node.id) {
      SoundHere(doc, g, e, e.frame.node.id);
    }
  }

  // ---- What a walk leaves behind ----

  ghost function Entered(t: seq<Attempt>): seq<Entry> {
    if t == [] then []
    else
      var last := t[|t| - 1];
      Entered(t[..|t| - 1]) + if last.entered then [last.entry] else []
  }

  ghost function Reports(entries: seq<Entry>): seq<Report> {
    if entries == [] then [] else Reports(entries[..|entries| - 1]) + ReportsOf(entries[|entries| - 1])
  }

  /** The limit, if any, that a walk with this many nodes entered meets at a given depth. */
  function LimitAt(depth: nat, visited: nat): string {
    if depth >= MAX_DEPTH then "depth" else if visited >= MAX_VISITED then "visited_nodes" else ""
  }

  /** The first limit met along a walk. */
  ghost function LimitOf(t: seq<Attempt>): string {
    if t == [] then ""
    else
      var before := t[..|t| - 1];
      if LimitOf(before) != "" then LimitOf(before)
      else LimitAt(t[|t| - 1].entry.frame.depth, |Entered(before)|)
  }

  /** The i-th attempt is less than 32 levels deep, and fewer than 256 nodes have been entered before it. */
  ghost predicate Affordable(t: seq<Attempt>, i: int) {
    0 <= i < |t| && t[i].entry.frame.depth < 32 && |Entered(t[..i])| < 256
  }

  /** The i-th attempt is the first that the limits refuse. */
  ghost predicate FirstRefused(t: seq<Attempt>, i: int) {
    0 <= i < |t| && !Affordable(t, i) && forall j | 0 <= j < i :: Affordable(t, j)
  }

  lemma AffordableBefore(t: seq<Attempt>, last: nat)
    requires |t| == last + 1
    ensures forall i | 0 <= i < last :: Affordable(t[..last], i) <==> Affordable(t, i)
    ensures forall i | 0 <= i < last :: FirstRefused(t[..last], i) <==> FirstRefused(t, i)
  {
    forall i | 0 <= i < last ensures Affordable(t[..last], i) <==> Affordable(t, i) {
      assert t[..last][..i] == t[..i];
    }
  }

  lemma LimitAtLast(t: seq<Attempt>, last: nat)
    requires |t| == last + 1 && LimitOf(t[..last]) == ""
    ensures LimitOf(t) == if t[last].entry.frame.depth >= 32 then "depth"
                          else if |Entered(t[..last])| >= 256 then "visited_nodes" else ""
  {
  }

  lemma {:induction false} NoLimit(t: seq<Attempt>)
    requires forall i | 0 <= i < |t| :: Affordable(t, i)
    ensures LimitOf(t) == ""
  {
    if t != [] {
      var last := |t| - 1;
      AffordableBefore(t, last);
      NoLimit(t[..last]);
      LimitAtLast(t, last);
      assert Affordable(t, last);
    }
  }

  /** The limit reported is that of the first attempt the limits refuse, depth before number; where they refuse none
      there is no limit (NoLimit). */
  lemma {:induction false} LimitExactly(t: seq<Attempt>, i: int)
    requires FirstRefused(t, i)
    ensures LimitOf(t) == if t[i].entry.frame.depth >= 32 then "depth" else "visited_nodes"
  {
    var last := |t| - 1;
    AffordableBefore(t, last);
    if i < last {
      assert FirstRefused(t[..last], i);
      LimitExactly(t[..last], i);
    } else {
      NoLimit(t[..last]);
      LimitAtLast(t, last);
    }
  }

  ghost predicate Subsequence<T>(a: seq<T>, b: seq<T>) {
    || a == []
    || (b != [] && (|| (a[|a| - 1] == b[|b| - 1] && Subsequence(a[..|a| - 1], b[..|b| - 1]))
                    || Subsequence(a, b[..|b| - 1])))
  }

  lemma {:induction false} SubsequenceConcat<T>(a: seq<T>, b: seq<T>, c: seq<T>, d: seq<T>)
    requires Subsequence(a, b) && Subsequence(c, d)
    ensures Subsequence(a + c, b + d)
    decreases |d|
  {
    if d == [] {
      assert a + c == a && b + d == b;
    } else {
      var d' := d[..|d| - 1];
      assert (b + d)[..|b + d| - 1] == b + d';
      if c == [] {
        assert a + c == a;
        SubsequenceConcat(a, b, [], d');
        assert a + [] == a;
      } else if c[|c| - 1] == d[|d| - 1] && Subsequence(c[..|c| - 1], d') {
        SubsequenceConcat(a, b, c[..|c| - 1], d');
        assert (a + c)[..|a + c| - 1] == a + c[..|c| - 1];
      } else {
        SubsequenceConcat(a, b, c, d');
      }
    }
  }

  lemma {:induction false} SubsequenceSelf<T>(a: seq<T>)
    ensures Subsequence(a, a)
  {
    if a != [] { SubsequenceSelf(a[..|a| - 1]); }
  }

  lemma {:induction false} SubsequenceOfEntered(a: seq<Attempt>, b: seq<Attempt>)
    requires Subsequence(a, b)
    ensures Subsequence(Entered(a), Entered(b))
    decreases |b|
  {
    if a != [] {
      var a', b' := a[..|a| - 1], b[..|b| - 1];
      var last := b[|b| - 1];
      var step := if last.entered then [last.entry] else [];
      if a[|a| - 1] == last && Subsequence(a', b') {
        SubsequenceOfEntered(a', b');
        SubsequenceSelf(step);
        SubsequenceConcat(Entered(a'), Entered(b'), step, step);
      } else {
        SubsequenceOfEntered(a, b');
        SubsequenceConcat(Entered(a), Entered(b'), [], step);
        assert Entered(a) + [] == Entered(a);
      }
    }
  }

  lemma {:induction false} SubsequenceOfReports(a: seq<Entry>, b: seq<Entry>)
    requires Subsequence(a, b)
    ensures Subsequence(Reports(a), Reports(b))
    decreases |b|
  {
    if a != [] {
      var a', b' := a[..|a| - 1], b[..|b| - 1];
      var step := ReportsOf(b[|b| - 1]);
      if a[|a| - 1] == b[|b| - 1] && Subsequence(a', b') {
        SubsequenceOfReports(a', b');
        SubsequenceSelf(step);
        SubsequenceConcat(Reports(a'), Reports(b'), step, step);
      } else {
        SubsequenceOfReports(a, b');
        SubsequenceConcat(Reports(a), Reports(b'), [], step);
        assert Reports(a) + [] == Reports(a);
      }
    }
  }

  lemma {:induction false} LimitOfLonger(a: seq<Attempt>, b: seq<Attempt>)
    ensures LimitOf(a) != "" ==> LimitOf(a + b) == LimitOf(a)
    decreases |b|
  {
    if b == [] {
      assert a + b == a;
    } else {
      LimitOfLonger(a, b[..|b| - 1]);
      assert (a + b)[..|a + b| - 1] == a + b[..|b| - 1];
    }
  }

  lemma EnteredOneMore(t: seq<Attempt>, a: Attempt)
    ensures Entered(t + [a]) == if a.entered then Entered(t) + [a.entry] else Entered(t)
    ensures LimitOf(t) == "" ==> LimitOf(t + [a]) == LimitAt(a.entry.frame.depth, |Entered(t)|)
  {
    assert (t + [a])[..|t|] == t;
    assert Entered(t) + [] == Entered(t);
  }

  lemma ReportsOneMore(entries: seq<Entry>, e: Entry)
    ensures Reports(entries + [e]) == Reports(entries) + ReportsOf(e)
  {
    assert (entries + [e])[..|entries|] == entries;
  }

  /** From (t0, hit0), a part of the walk with limits that stands for w in the walk without them leads to
      (t1, hit1): part of w is done; all of it unless a limit is hit; and the limit hit is the first one in
      the way of the walk without limits. */
  ghost predicate Explored(t0: seq<Attempt>, hit0: string, t1: seq<Attempt>, hit1: string, w: seq<Attempt>) {
    && t0 <= t1
    && Subsequence(t1[|t0|..], w)
    && (hit1 == "" ==> t1 == t0 + w)
    && hit1 == (if hit0 != "" then hit0 else LimitOf(t0 + w))
  }

  lemma ExploredThen(t0: seq<Attempt>, hit0: string, t1: seq<Attempt>, hit1: string, t2: seq<Attempt>, hit2: string,
                     w1: seq<Attempt>, w2: seq<Attempt>)
    requires Explored(t0, hit0, t1, hit1, w1) && Explored(t1, hit1, t2, hit2, w2)
    ensures Explored(t0, hit0, t2, hit2, w1 + w2)
  {
    assert t2[|t0|..] == t1[|t0|..] + t2[|t1|..];
    SubsequenceConcat(t1[|t0|..], w1, t2[|t1|..], w2);
    LimitOfLonger(t0 + w1, w2);
    assert t0 + w1 + w2 == t0 + (w1 + w2);
  }

  lemma ExploredNothing(t: seq<Attempt>, hit: string)
    requires hit == "" ==> LimitOf(t) == ""
    ensures Explored(t, hit, t, hit, [])
  {
    assert t + [] == t;
  }

  ghost predicate AllShallow(entries: seq<Entry>) {
    forall e | e in entries :: e.frame.depth < MAX_DEPTH
  }

  /** The counter and the visits are those of the nodes entered, which keep to the limits. */
  ghost predicate Tallied(t: seq<Attempt>, visits: seq<Report>, visited: nat, hit: string) {
    && visits == Reports(Entered(t))
    && visited == |Entered(t)| <= MAX_VISITED
    && AllShallow(Entered(t))
    && (hit == "" ==> LimitOf(t) == "")
  }

  /** One attempt the limits allow. */
  lemma ExploredOne(t: seq<Attempt>, visits: seq<Report>, visited: nat, hit: string, a: Attempt)
    requires Tallied(t, visits, visited, hit) && LimitAt(a.entry.frame.depth, visited) == ""
    ensures Explored(t, hit, t + [a], hit, [a])
    ensures if a.entered then Tallied(t + [a], visits + ReportsOf(a.entry), visited + 1, hit)
            else Tallied(t + [a], visits, visited, hit)
  {
    ReportsOneMore(Entered(t), a.entry);
    EnteredOneMore(t, a);
    SubsequenceSelf([a]);
    assert (t + [a])[|t|..] == [a];
  }

  /** The attempt the limits refuse, and all that would have followed from it. */
  lemma ExploredRefused(t: seq<Attempt>, hit: string, a: Attempt, w: seq<Attempt>, limit: string)
    requires hit == "" ==> LimitOf(t) == ""
    requires limit == LimitAt(a.entry.frame.depth, |Entered(t)|) && limit != ""
    requires [a] <= w
    ensures Explored(t, hit, t, if hit != "" then hit else limit, w)
  {
    EnteredOneMore(t, a);
    LimitOfLonger(t + [a], w[1..]);
    assert t + [a] + w[1..] == t + w;
  }

  class SchemaWalker {
    const doc: Document
    ghost const g: Graph
    var visits: seq<Report>
    var active: set<ObjectId>
    var activeRefs: set<string>
    var visited: nat
    var truncated: bool
    var limitHit: string
    /** Every attempt the limits have allowed. */
    ghost var trace: seq<Attempt>

    ghost predicate Valid()
      reads this
    {
      && Describes(g, doc)
      && Tallied(trace, visits, visited, limitHit)
      && (truncated <==> limitHit != "")
    }

    constructor (doc: Document)
      ensures this.doc == doc && g == GraphOf(doc) && Valid()
      ensures trace == [] && active == {} && activeRefs == {} && limitHit == ""
    {
      GraphDescribes(doc);
      this.doc, g := doc, GraphOf(doc);
      visits, active, activeRefs, visited, truncated, limitHit := [], {}, {}, 0, false, "";
      trace := [];
    }

    /** The guards are as they were, and w has been explored. */
    twostate predicate Did(w: seq<Attempt>)
      reads this
    {
      && Valid()
      && active == old(active) && activeRefs == old(activeRefs)
      && Explored(old(trace), old(limitHit), trace, limitHit, w)
    }

    method NoteTruncation(limit: string)
      requires limit != ""
      modifies this`truncated, this`limitHit
      ensures truncated && limitHit == if old(limitHit) == "" then limit else old(limitHit)
    {
      truncated := true;
      if limitHit == "" {
        limitHit := limit;
      }
    }

    method VisitFrame(e: Entry)
      modifies this`visits
      ensures visits == old(visits) + ReportsOf(e)
    {
      var f := e.frame;
      if e.visit {
        visits := visits + [Report(f.loc, f.propName, f.node, Constraint(f), f.instance)];
        return;
      }
      if f.inspect {
        var cueLoc, cueName := f.loc, f.propName;
        if f.cueLoc != "" {
          cueLoc, cueName := f.cueLoc, f.cueName;
        }
        visits := visits + [Report(cueLoc, cueName, f.node, Constraint(f), f.instance)];
      }
    }

    /** The two lines that count and report a node. */
    method Visit(e: Entry)
      requires Valid() && LimitAt(e.frame.depth, visited) == ""
      modifies this`visits, this`visited, this`trace
      ensures Valid() && Explored(old(trace), limitHit, trace, limitHit, [Attempt(e, true)])
    {
      ExploredOne(trace, visits, visited, limitHit, Attempt(e, true));
      visited := visited + 1;
      VisitFrame(e);
      trace := trace + [Attempt(e, true)];
    }

    method VisitBoolean(e: Entry)
      requires Valid() && LimitAt(e.frame.depth, visited) == "" && (e.frame.node.Always? || e.frame.node.Never?)
      modifies this`visits, this`visited, this`trace
      ensures Did(Walk(g, e, active, activeRefs))
    {
      Visit(e);
    }

    /** Neither an object already on the path nor anything that is no schema is entered. */
    method TurnBack(e: Entry)
      requires Valid() && LimitAt(e.frame.depth, visited) == ""
      requires e.frame.node.Invalid? || (e.frame.node.Node? && e.frame.node.id in active)
      modifies this`trace
      ensures Did(Walk(g, e, active, activeRefs))
    {
      ExploredOne(trace, visits, visited, limitHit, Attempt(e, false));
      trace := trace + [Attempt(e, false)];
    }

    method Enter(e: Entry)
      requires Valid() && e.frame.depth <= MAX_DEPTH
      modifies this
      ensures Did(Walk(g, e, old(active), old(activeRefs)))
      decreases MAX_DEPTH - e.frame.depth, 1, 0
    {
      if e.frame.depth >= MAX_DEPTH {
        Refuse(e, "depth");
        return;
      }
      if visited >= MAX_VISITED {
        Refuse(e, "visited_nodes");
        return;
      }
      match e.frame.node {
        case Always => VisitBoolean(e);
        case Never => VisitBoolean(e);
        case Invalid => TurnBack(e);
        case Node(id) =>
          if id in active {
            TurnBack(e);
          } else {
            EnterObject(e, id);
          }
      }
    }

    method Refuse(e: Entry, limit: string)
      requires Valid() && limit == LimitAt(e.frame.depth, visited) && limit != ""
      modifies this`truncated, this`limitHit
      ensures Did(Walk(g, e, active, activeRefs))
    {
      ghost var w := Walk(g, e, active, activeRefs);
      ExploredRefused(trace, limitHit, w[0], w, limit);
      NoteTruncation(limit);
    }

    method EnterObject(e: Entry, id: ObjectId)
      requires Valid() && e.frame.depth < MAX_DEPTH && visited < MAX_VISITED
      requires e.frame.node == Node(id) && id !in active
      modifies this
      ensures Did(Walk(g, e, old(active), old(activeRefs)))
      decreases MAX_DEPTH - e.frame.depth, 0, 3
    {
      active := active + {id};
      VisitAndDescend(e, id);
      active := active - {id};
      ObjectWalk(g, e, id, active, activeRefs);
    }

    /** An object just put on the path. */
    method VisitAndDescend(e: Entry, id: ObjectId)
      requires Valid() && e.frame.depth < MAX_DEPTH && visited < MAX_VISITED && e.frame.node == Node(id)
      modifies this
      ensures Did([Attempt(e, true)] + Below(g, e, id, old(active), old(activeRefs)))
      decreases MAX_DEPTH - e.frame.depth, 0, 2
    {
      Visit(e);
      ghost var t1, hit1, below := trace, limitHit, Below(g, e, id, active, activeRefs);
      Descend(e);
      ExploredThen(old(trace), old(limitHit), t1, hit1, trace, limitHit, [Attempt(e, true)], below);
    }

    /** The reference first, then the applicators. */
    method Descend(e: Entry)
      requires Valid() && e.frame.depth < MAX_DEPTH && e.frame.node.Node?
      modifies this
      ensures Did(Below(g, e, e.frame.node.id, old(active), old(activeRefs)))
      decreases MAX_DEPTH - e.frame.depth, 0, 1
    {
      FollowRef(e);
      ghost var t, hit, r, a := trace, limitHit, WalkRef(g, e, e.frame.node.id, active, activeRefs),
          WalkAll(g, g.children(e), active, activeRefs);
      WalkApplicators(e);
      ExploredThen(old(trace), old(limitHit), t, hit, trace, limitHit, r, a);
    }

    method WalkApplicators(e: Entry)
      requires Valid() && e.frame.depth < MAX_DEPTH && e.frame.node.Node?
      modifies this
      ensures Did(WalkAll(g, g.children(e), old(active), old(activeRefs)))
      decreases MAX_DEPTH - e.frame.depth, 0, 0
    {
      var entries := Subschemas(e);
      assert SoundAt(g, e, e.frame.node.id);
      EnterAll(entries, e.frame.depth + 1);
    }

    method Subschemas(e: Entry) returns (entries: seq<Entry>)
      requires Valid()
      ensures entries == g.children(e)
    {
      entries := Applicators(doc, e);
    }

    method FollowRef(e: Entry)
      requires Valid() && e.frame.depth < MAX_DEPTH && e.frame.node.Node?
      modifies this
      ensures Did(WalkRef(g, e, e.frame.node.id, old(active), old(activeRefs)))
      decreases MAX_DEPTH - e.frame.depth, 0, 0
    {
      var ref := ReferenceOf(doc, e.frame.node.id);
      ExploredNothing(trace, limitHit);
      if ref.None? || ref.value in activeRefs {
        return;
      }
      var target := ResolveLocalRef(doc, ref.value);
      if target.Invalid? {
        return;
      }
      activeRefs := activeRefs + {ref.value};
      Enter(RefEntry(e, target));
      activeRefs := activeRefs - {ref.value};
    }

    /** Enters frame after frame, as the loops of walkApplicators do. */
    method EnterAll(entries: seq<Entry>, depth: nat)
      requires Valid() && 0 < depth <= MAX_DEPTH && forall c | c in entries :: c.frame.depth == depth
      modifies this
      ensures Did(WalkAll(g, entries, old(active), old(activeRefs)))
      decreases MAX_DEPTH - depth, 2, 0
    {
      ExploredNothing(trace, limitHit);
      assert entries[..0] == [];
      for i := 0 to |entries|
        invariant Did(WalkAll(g, entries[..i], old(active), old(activeRefs)))
      {
        ghost var t, hit := trace, limitHit;
        Enter(entries[i]);
        ExploredOneMore(g, entries, i, active, activeRefs, old(trace), old(limitHit), t, hit, trace, limitHit);
      }
      assert entries[..|entries|] == entries;
    }
  }

  lemma {:induction false} WalkAllOneMore(g: Graph, entries: seq<Entry>, e: Entry, active: set<ObjectId>,
                                          refs: set<string>)
    requires Sound(g)
    ensures WalkAll(g, entries + [e], active, refs) == WalkAll(g, entries, active, refs) + Walk(g, e, active, refs)
  {
    if entries == [] {
      assert WalkAll(g, [], active, refs) == [];
      assert [e][1..] == [];
    } else {
      WalkAllOneMore(g, entries[1..], e, active, refs);
      assert (entries + [e])[1..] == entries[1..] + [e];
    }
  }

  lemma ExploredOneMore(g: Graph, entries: seq<Entry>, i: nat, active: set<ObjectId>, refs: set<string>,
                        t0: seq<Attempt>, hit0: string, t1: seq<Attempt>, hit1: string, t2: seq<Attempt>,
                        hit2: string)
    requires Sound(g) && i < |entries|
    requires Explored(t0, hit0, t1, hit1, WalkAll(g, entries[..i], active, refs))
    requires Explored(t1, hit1, t2, hit2, Walk(g, entries[i], active, refs))
    ensures Explored(t0, hit0, t2, hit2, WalkAll(g, entries[..i + 1], active, refs))
  {
    WalkAllOneMore(g, entries[..i], entries[i], active, refs);
    assert entries[..i + 1] == entries[..i] + [entries[i]];
    ExploredThen(t0, hit0, t1, hit1, t2, hit2, WalkAll(g, entries[..i], active, refs),
                 Walk(g, entries[i], active, refs));
  }

  lemma ObjectWalk(g: Graph, e: Entry, id: ObjectId, active: set<ObjectId>, refs: set<string>)
    requires Sound(g) && e.frame.node == Node(id) && id !in active
    ensures Walk(g, e, active, refs) == [Attempt(e, true)] + Below(g, e, id, active + {id}, refs)
  {
  }
}
