/** The review of one tool's input schema: walk it, and ask the constraint evaluator about every
    reported frame whose name or keywords hint at a URL, a path or a command. */
module SchemaReview {
  import opened JsonDocument
  import opened SchemaKeywords
  import opened SchemaWalk
  import opened SchemaGraph
  import opened SchemaWalkers
  import opened FramePlaces
  import opened ConstraintSearch
  import opened SchemaMeasure
  import opened ConstraintEvaluator

  /** The walk without limits. */
  ghost function FullWalk(doc: Document, loc: string): seq<Attempt> {
    GraphDescribes(doc);
    Walk(GraphOf(doc), RootEntry(loc), {}, {})
  }

  ghost predicate Reached(doc: Document, m: Schema) { Reachable(GraphOf(doc), Node(ROOT), m) }

  ghost predicate NodeIn(entries: seq<Entry>, m: Schema) { exists e | e in entries :: e.frame.node == m }

  lemma {:induction false} EnteredNodes(t: seq<Attempt>, m: Schema)
    ensures NodeIn(Entered(t), m) <==> EntersNode(t, m)
  {
    if t != [] {
      var before, last := t[..|t| - 1], t[|t| - 1];
      EnteredNodes(before, m);
      assert t == before + [last];
      EntersParts(before, [last], [], m);
      assert before + [last] + [] == t;
      assert EntersNode([last], m) <==> last.entered && last.entry.frame.node == m by { assert [last][0] == last; }
      NodeInParts(Entered(before), if last.entered then [last.entry] else [], m);
    }
  }

  lemma NodeInParts(a: seq<Entry>, b: seq<Entry>, m: Schema)
    ensures NodeIn(a + b, m) <==> NodeIn(a, m) || NodeIn(b, m)
  {
    if NodeIn(a, m) { var e :| e in a && e.frame.node == m; assert e in a + b; }
    if NodeIn(b, m) { var e :| e in b && e.frame.node == m; assert e in a + b; }
  }

  /** walkSchema. The limit reported is the first one in the way of the walk without limits; if there is
      none, the visits are that walk's and every reachable schema has been entered. Otherwise they are some
      of them, from at most 256 nodes less than 32 levels deep. */
  method WalkSchema(doc: Document, loc: string)
    returns (visits: seq<Report>, truncated: bool, limitHit: string, ghost entered: seq<Entry>)
    ensures limitHit == LimitOf(FullWalk(doc, loc)) && (truncated <==> limitHit != "")
    ensures visits == Reports(entered) && Subsequence(visits, Reports(Entered(FullWalk(doc, loc))))
    ensures |entered| <= 256 && forall e | e in entered :: e.frame.depth < 32
    ensures !truncated ==> visits == Reports(Entered(FullWalk(doc, loc)))
                            && forall m :: NodeIn(entered, m) <==> Reached(doc, m)
  {
    var w := new SchemaWalker(doc);
    ghost var full := FullWalk(doc, loc);
    w.Enter(RootEntry(loc));
    visits, truncated, limitHit := w.visits, w.truncated, w.limitHit;
    entered := Entered(w.trace);
    FromTheStart(w.trace, w.limitHit, full);
    SubsequenceOfEntered(w.trace, full);
    SubsequenceOfReports(entered, Entered(full));
    if !truncated {
      forall m ensures NodeIn(entered, m) <==> Reached(doc, m) {
        EnteredNodes(full, m);
        GraphDescribes(doc);
        WalkReachesExactly(GraphOf(doc), RootEntry(loc), m);
      }
    }
  }

  lemma FromTheStart(t: seq<Attempt>, hit: string, w: seq<Attempt>)
    requires Explored([], "", t, hit, w)
    ensures Subsequence(t, w) && hit == LimitOf(w) && (hit == "" ==> t == w)
  {
    assert t[0..] == t;
    assert [] + w == w;
  }

  // ---- The hypotheses ----

  const KINDS := [Url, Path, Command]

  function NodeKeywords(doc: Document, s: Schema): Keywords {
    if s.Node? then KeywordsOf(doc, s.id) else map[]
  }

  /** Does a frame's name or description hint at this kind of argument? */
  type Cue = (Kind, string, Keywords) -> bool

  predicate Cued(doc: Document, cue: Cue, kind: Kind, r: Report) {
    cue(kind, r.propName, NodeKeywords(doc, r.node))
  }

  ghost predicate ReportConstrained(doc: Document, r: Report, kind: Kind) {
    ConstrainedAtMost(doc, r.node, r.origin, r.instance, r.propName, kind)
  }

  /** Every question with a cue either raised a hypothesis at its location or was answered "constrained". */
  ghost predicate Settled(doc: Document, cue: Cue, hypotheses: set<(Kind, string)>, r: Report, kind: Kind) {
    Cued(doc, cue, kind, r) && (kind, r.loc) !in hypotheses ==> ReportConstrained(doc, r, kind)
  }

  ghost predicate AllSettled(doc: Document, cue: Cue, hypotheses: set<(Kind, string)>, visits: seq<Report>) {
    forall r, kind | r in visits :: Settled(doc, cue, hypotheses, r, kind)
  }

  /** A question about one report. */
  datatype Question = Question(report: Report, kind: Kind)

  /** A hypothesis names a location that was reported with a cue, where the instance does not itself forbid the
      property, and the unbounded recursion finds no constraint either, unless a guard cut the question short. */
  ghost predicate Grounded(doc: Document, cue: Cue, hypotheses: set<(Kind, string)>, visits: seq<Report>,
                           guarded: set<Question>) {
    forall h | h in hypotheses :: exists r | r in visits :: RaisedBy(doc, cue, h, r, guarded)
  }

  ghost predicate RaisedBy(doc: Document, cue: Cue, h: (Kind, string), r: Report, guarded: set<Question>) {
    && r.loc == h.1 && Cued(doc, cue, h.0, r) && !SurelySilent(doc, r.instance, r.propName)
    && (Question(r, h.0) in guarded || !Constrained(doc, r.node, r.origin, r.instance, r.propName, h.0))
  }

  /** The walk of reviewTool; guarded are the questions a guard cut short. */
  method ReviewSchema(doc: Document, loc: string, cue: Cue)
    returns (hypotheses: set<(Kind, string)>, truncated: bool, limitHit: string, ghost guarded: set<Question>)
    ensures limitHit == LimitOf(FullWalk(doc, loc)) && (truncated <==> limitHit != "")
    ensures Grounded(doc, cue, hypotheses, Reports(Entered(FullWalk(doc, loc))), guarded)
    ensures Tame(doc) ==> guarded == {}
    ensures !truncated ==> AllSettled(doc, cue, hypotheses, Reports(Entered(FullWalk(doc, loc))))
  {
    var visits;
    ghost var entered;
    visits, truncated, limitHit, entered := WalkSchema(doc, loc);
    hypotheses, guarded := ReviewFrames(doc, visits, cue);
    GroundedInMore(doc, cue, hypotheses, visits, Reports(Entered(FullWalk(doc, loc))), guarded);
  }

  lemma GroundedInMore(doc: Document, cue: Cue, hypotheses: set<(Kind, string)>, a: seq<Report>, b: seq<Report>,
                       guarded: set<Question>)
    requires Grounded(doc, cue, hypotheses, a, guarded) && Subsequence(a, b)
    ensures Grounded(doc, cue, hypotheses, b, guarded)
  {
    SubsequenceMembers(a, b);
  }

  /** The evaluator is one object for the whole review, its memo carried over from question to question. */
  method ReviewFrames(doc: Document, visits: seq<Report>, cue: Cue)
    returns (hypotheses: set<(Kind, string)>, ghost guarded: set<Question>)
    ensures AllSettled(doc, cue, hypotheses, visits)
    ensures Grounded(doc, cue, hypotheses, visits, guarded)
    ensures Tame(doc) ==> guarded == {}
  {
    var eval := new ConstraintEval(doc, MeasureOf(doc));
    hypotheses, guarded := {}, {};
    for i := 0 to |visits|
      invariant fresh(eval) && eval.Valid() && eval.doc == doc && eval.m == MeasureOf(doc) && eval.activeRefs == {}
      invariant Tame(doc) ==> guarded == {}
      invariant AllSettled(doc, cue, hypotheses, visits[..i])
      invariant Grounded(doc, cue, hypotheses, visits, guarded)
    {
      ghost var cut;
      var found;
      found, cut := ReviewFrame(eval, cue, visits[i]);
      assert visits[..i + 1] == visits[..i] + [visits[i]];
      assert visits[i] in visits;
      GroundedTogether(doc, cue, hypotheses, found, visits, visits[i], guarded, cut);
      SettledTogether(doc, cue, hypotheses, found, visits[..i], visits[i]);
      hypotheses, guarded := hypotheses + found, guarded + cut;
    }
    assert visits[..|visits|] == visits;
  }

  lemma SettledTogether(doc: Document, cue: Cue, before: set<(Kind, string)>, found: set<(Kind, string)>,
                        seen: seq<Report>, r: Report)
    requires AllSettled(doc, cue, before, seen)
    requires forall kind :: Settled(doc, cue, found, r, kind)
    ensures AllSettled(doc, cue, before + found, seen + [r])
  {
    forall r', kind | r' in seen + [r] ensures Settled(doc, cue, before + found, r', kind) {
      if r' in seen {
        assert Settled(doc, cue, before, r', kind);
      } else {
        assert Settled(doc, cue, found, r, kind);
      }
    }
  }

  lemma GroundedTogether(doc: Document, cue: Cue, before: set<(Kind, string)>, found: set<(Kind, string)>,
                         visits: seq<Report>, r: Report, guarded: set<Question>, cut: set<Question>)
    requires Grounded(doc, cue, before, visits, guarded)
    requires r in visits && forall h | h in found :: RaisedBy(doc, cue, h, r, cut)
    ensures Grounded(doc, cue, before + found, visits, guarded + cut)
  {
    forall h | h in before + found ensures exists r | r in visits :: RaisedBy(doc, cue, h, r, guarded + cut) {
      if h in before {
        var r' :| r' in visits && RaisedBy(doc, cue, h, r', guarded);
        assert RaisedBy(doc, cue, h, r', guarded + cut);
      } else {
        assert RaisedBy(doc, cue, h, r, cut);
        assert RaisedBy(doc, cue, h, r, guarded + cut);
      }
    }
  }

  /** The three questions about one frame. */
  method ReviewFrame(eval: ConstraintEval, cue: Cue, r: Report)
    returns (found: set<(Kind, string)>, ghost cut: set<Question>)
    requires eval.Valid()
    modifies eval
    ensures eval.Valid()
    ensures old(eval.activeRefs) == {} ==> eval.activeRefs == {} && (Fits(eval.doc, eval.m) ==> cut == {})
    ensures forall kind :: Settled(eval.doc, cue, found, r, kind)
    ensures forall h | h in found :: RaisedBy(eval.doc, cue, h, r, cut)
  {
    found, cut := {}, {};
    for k := 0 to |KINDS|
      invariant eval.Valid()
      invariant old(eval.activeRefs) == {} ==> eval.activeRefs == {} && (Fits(eval.doc, eval.m) ==> cut == {})
      invariant forall j | 0 <= j < k :: Settled(eval.doc, cue, found, r, KINDS[j])
      invariant forall h | h in found :: RaisedBy(eval.doc, cue, h, r, cut)
    {
      var raised;
      ghost var guarded;
      raised, guarded := Ask(eval, cue, r, KINDS[k]);
      cut := cut + guarded;
      if raised {
        found := found + {(KINDS[k], r.loc)};
      }
    }
    forall kind ensures Settled(eval.doc, cue, found, r, kind) {
      assert kind == KINDS[0] || kind == KINDS[1] || kind == KINDS[2];
    }
  }

  /** One question about it, if it has a cue. */
  method Ask(eval: ConstraintEval, cue: Cue, r: Report, kind: Kind) returns (raised: bool, ghost guarded: set<Question>)
    requires eval.Valid()
    modifies eval
    ensures eval.Valid()
    ensures old(eval.activeRefs) == {} ==> eval.activeRefs == {} && (Fits(eval.doc, eval.m) ==> guarded == {})
    ensures Cued(eval.doc, cue, kind, r) && !raised ==> ReportConstrained(eval.doc, r, kind)
    ensures raised ==> RaisedBy(eval.doc, cue, (kind, r.loc), r, guarded)
  {
    raised, guarded := false, {};
    if cue(kind, r.propName, NodeKeywords(eval.doc, r.node)) {
      raised := eval.Unconstrained(r.node, r.origin, r.instance, r.propName, kind);
      guarded := if eval.cut then {Question(r, kind)} else {};
    }
  }

  lemma {:induction false} SubsequenceMembers<T>(a: seq<T>, b: seq<T>)
    requires Subsequence(a, b)
    ensures forall x | x in a :: x in b
    decreases |b|
  {
    if a != [] {
      var a', b' := a[..|a| - 1], b[..|b| - 1];
      assert b == b' + [b[|b| - 1]];
      if a[|a| - 1] == b[|b| - 1] && Subsequence(a', b') {
        SubsequenceMembers(a', b');
        assert a == a' + [b[|b| - 1]];
      } else {
        SubsequenceMembers(a, b');
      }
    }
  }
}
