/** Which families receive work in a round, and why no active family waits for long. */
module Dispatch {
  import opened Text
  import opened Registries

  /** Fewest attempts first, then by name. */
  predicate Before(view: View, a: string, b: string)
    requires a in view && b in view
  {
    view[a].attempts < view[b].attempts || (view[a].attempts == view[b].attempts && Less(a, b))
  }

  lemma BeforeIsStrictOrder(view: View, a: string, b: string)
    requires a in view && b in view
    ensures a == b || Before(view, a, b) || Before(view, b, a)
    ensures !(Before(view, a, b) && Before(view, b, a)) && !Before(view, a, a)
  {
    LessTrichotomy(a, b);
    LessTrichotomy(a, a);
  }

  lemma BeforeTransitive(view: View, a: string, b: string, c: string)
    requires a in view && b in view && c in view && Before(view, a, b) && Before(view, b, c)
    ensures Before(view, a, c)
  {
    if Less(a, b) && Less(b, c) { LessTransitive(a, b, c); }
  }

  function ActiveFamilies(view: View): (s: set<string>) {
    set f | f in view && view[f].status == Active
  }

  predicate IsFirst(view: View, x: string, s: set<string>)
    requires s <= view.Keys
  {
    x in s && forall y | y in s :: y == x || Before(view, x, y)
  }

  lemma FirstExists(view: View, s: set<string>)
    requires s <= view.Keys && s != {}
    ensures exists x :: IsFirst(view, x, s)
  {
    var x :| x in s;
    if s == {x} {
      assert IsFirst(view, x, s);
    } else {
      FirstExists(view, s - {x});
      var y :| IsFirst(view, y, s - {x});
      BeforeIsStrictOrder(view, x, y);
      if Before(view, x, y) {
        forall z | z in s && z != x ensures Before(view, x, z) {
          if z != y { BeforeTransitive(view, x, y, z); }
        }
        assert IsFirst(view, x, s);
      } else {
        assert IsFirst(view, y, s);
      }
    }
  }

  lemma FirstUnique(view: View, s: set<string>)
    requires s <= view.Keys
    ensures forall x, y :: IsFirst(view, x, s) && IsFirst(view, y, s) ==> x == y
  {
    forall x, y | IsFirst(view, x, s) && IsFirst(view, y, s) ensures x == y {
      BeforeIsStrictOrder(view, x, y);
    }
  }

  function First(view: View, s: set<string>): (x: string)
    requires s <= view.Keys && s != {}
    ensures IsFirst(view, x, s)
  {
    FirstExists(view, s);
    FirstUnique(view, s);
    var x :| x in s && IsFirst(view, x, s);
    x
  }

  /** The families in s in dispatch order: what sort.Slice leaves. */
  function Ranked(view: View, s: set<string>): (names: seq<string>)
    requires s <= view.Keys
    ensures forall x :: x in names <==> x in s
    ensures forall i, j | 0 <= i < j < |names| :: Before(view, names[i], names[j])
  {
    if s == {} then []
    else
      var x := First(view, s);
      var rest := Ranked(view, s - {x});
      assert forall j | 0 <= j < |rest| :: rest[j] in s - {x};
      [x] + rest
  }

  /** The round's plan: the first workers active families in dispatch order. */
  function Plan(view: View, workers: nat): (plan: seq<string>)
    ensures |plan| <= workers
  {
    var names := Ranked(view, ActiveFamilies(view));
    if workers < |names| then names[..workers] else names
  }

  /** The view after each listed family received one dispatch. */
  function Dispatched(view: View, plan: seq<string>): (v: View)
    ensures v.Keys == view.Keys
  {
    map f | f in view :: if f in plan then view[f].(attempts := view[f].attempts + 1) else view[f]
  }

  predicate Distinct(names: seq<string>) { forall i, j | 0 <= i < j < |names| :: names[i] != names[j] }

  /** Fewer attempts, or as many and a name that comes first byte by byte. */
  ghost predicate Ahead(view: View, a: string, b: string)
    requires a in view && b in view
  {
    view[a].attempts < view[b].attempts || (view[a].attempts == view[b].attempts && Precedes(a, b))
  }

  lemma AheadExactly(view: View)
    ensures forall a, b | a in view && b in view :: Before(view, a, b) <==> Ahead(view, a, b)
  {
    forall a, b | a in view && b in view ensures Before(view, a, b) <==> Ahead(view, a, b) {
      LessExactly(a, b);
    }
  }

  /** What makes a plan fair: distinct active families, as many as there are workers for, in order, each ahead of
      every active family left out. */
  ghost predicate LeastPlan(view: View, plan: seq<string>, workers: nat) {
    && Distinct(plan)
    && |plan| <= workers
    && (forall f | f in plan :: f in ActiveFamilies(view))
    && (forall i, j | 0 <= i < j < |plan| :: plan[i] in view && plan[j] in view && Ahead(view, plan[i], plan[j]))
    && (forall f, g | f in plan && g in ActiveFamilies(view) && g !in plan :: Ahead(view, f, g))
    && (|plan| == workers || forall g | g in ActiveFamilies(view) :: g in plan)
  }

  lemma PlanIsLeast(view: View, workers: nat)
    ensures LeastPlan(view, Plan(view, workers), workers)
  {
    var names := Ranked(view, ActiveFamilies(view));
    assert forall i | 0 <= i < |names| :: names[i] in ActiveFamilies(view);
    RankedPrefixIsLeast(view, names, Plan(view, workers), workers);
  }

  lemma RankedPrefixIsLeast(view: View, names: seq<string>, plan: seq<string>, workers: nat)
    requires forall x :: x in names <==> x in ActiveFamilies(view)
    requires forall i | 0 <= i < |names| :: names[i] in view
    requires forall i, j | 0 <= i < j < |names| :: Before(view, names[i], names[j])
    requires plan == if workers < |names| then names[..workers] else names
    ensures LeastPlan(view, plan, workers)
  {
    forall i, j | 0 <= i < j < |names| ensures names[i] != names[j] {
      BeforeIsStrictOrder(view, names[i], names[j]);
    }
    assert forall i | 0 <= i < |plan| :: plan[i] == names[i];
    forall f | f in plan ensures f in ActiveFamilies(view) {
      assert f in names;
    }
    AheadExactly(view);
    forall f, g | f in plan && g in ActiveFamilies(view) && g !in plan ensures Ahead(view, f, g) {
      var i :| 0 <= i < |plan| && plan[i] == f;
      var j :| 0 <= j < |names| && names[j] == g;
    }
  }

  // ---- coordinator.State.Plan ----

  /** Chooses the round's families and records a dispatch for each. */
  method CoordinatorPlan(reg: Registry, maxWorkers: nat) returns (dispatched: seq<string>)
    modifies reg
    ensures dispatched == Plan(old(reg.approaches), maxWorkers)
    ensures reg.approaches == Dispatched(old(reg.approaches), dispatched)
  {
    PlanIsLeast(reg.approaches, maxWorkers);
    var active := Ranked(reg.approaches, ActiveFamilies(reg.approaches));
    var limit := maxWorkers;
    if |active| < limit {
      limit := |active|;
    }
    dispatched := active[..limit];
    RecordDispatches(reg, dispatched);
  }

  method RecordDispatches(reg: Registry, plan: seq<string>)
    requires Distinct(plan) && forall f | f in plan :: f in ActiveFamilies(reg.approaches)
    modifies reg
    ensures reg.approaches == Dispatched(old(reg.approaches), plan)
  {
    ghost var before := reg.approaches;
    for i := 0 to |plan|
      invariant reg.approaches == Dispatched(before, plan[..i])
    {
      assert plan[i] in plan && plan[i] !in plan[..i];
      var _ := reg.RecordDispatch(plan[i]);
      assert plan[..i + 1] == plan[..i] + [plan[i]];
    }
    assert plan[..|plan|] == plan;
  }

  ghost predicate Keyed(view: View) { forall f | f in view :: view[f].family == f }

  /** What the planner's scratch copy holds: families without a mechanism drop out, a block without a
      reason is lost, and attempts count from one. */
  function ScratchApproach(a: Approach): Approach {
    NewApproach(a.family, a.mechanism).(
      status := if a.status == Blocked && a.blockReason == "" then Active else a.status,
      blockReason := if a.status == Blocked then a.blockReason else "",
      attempts := if a.attempts > 1 && (a.status == Active || (a.status == Blocked && a.blockReason == ""))
                  then a.attempts else 1)
  }

  function Scratch(view: View): View {
    map f | f in view && f != "" && view[f].mechanism != "" :: ScratchApproach(view[f])
  }

  /** planFamilies: plans on a scratch copy, leaving the registry as it was. */
  method PlanFamilies(reg: Registry, maxWorkers: nat) returns (plan: seq<string>)
    requires Keyed(reg.approaches)
    ensures plan == Plan(Scratch(reg.approaches), maxWorkers)
  {
    var clone := CloneRegistry(reg);
    plan := CoordinatorPlan(clone, maxWorkers);
  }

  method CloneRegistry(reg: Registry) returns (clone: Registry)
    requires Keyed(reg.approaches)
    ensures fresh(clone) && clone.approaches == Scratch(reg.approaches)
  {
    clone := new Registry();
    var all := Sorted(reg.approaches.Keys);
    AscendingIsDistinct(all);
    CloneAll(reg, clone, all);
  }

  lemma AscendingIsDistinct(names: seq<string>)
    requires Ascending(names)
    ensures Distinct(names)
  {
    forall i, j | 0 <= i < j < |names| ensures names[i] != names[j] {
      LessTrichotomy(names[i], names[j]);
    }
  }

  method CloneAll(reg: Registry, clone: Registry, all: seq<string>)
    requires Keyed(reg.approaches) && clone != reg && clone.approaches == map[]
    requires Distinct(all) && forall f :: f in all <==> f in reg.approaches
    modifies clone
    ensures clone.approaches == Scratch(reg.approaches)
  {
    for i := 0 to |all|
      invariant forall f :: f in clone.approaches <==> f in all[..i] && f in Scratch(reg.approaches)
      invariant forall f | f in clone.approaches :: clone.approaches[f] == ScratchApproach(reg.approaches[f])
    {
      assert all[i] in all && all[i] !in all[..i];
      CloneApproach(clone, reg.approaches[all[i]]);
      assert all[..i + 1] == all[..i] + [all[i]];
    }
    assert all[..|all|] == all;
  }

  method CloneApproach(clone: Registry, approach: Approach)
    requires approach.family !in clone.approaches
    modifies clone
    ensures clone.approaches ==
            if approach.family != "" && approach.mechanism != ""
            then old(clone.approaches)[approach.family := ScratchApproach(approach)] else old(clone.approaches)
  {
    var family := approach.family;
    var added := clone.Add(family, approach.mechanism);
    if approach.status == Blocked {
      var _ := clone.Block(family, approach.blockReason);
    } else if approach.status == Exhausted {
      var _ := clone.Exhaust(family);
    }
    ghost var start := clone.approaches;
    var i := 1;
    while i < approach.attempts
      invariant 1 <= i && (approach.attempts >= 1 ==> i <= approach.attempts)
      invariant approach.attempts < 1 ==> i == 1
      invariant clone.approaches ==
                if added && start[family].status == Active
                then start[family := start[family].(attempts := i)] else start
    {
      var _ := clone.RecordDispatch(family);
      i := i + 1;
    }
  }

  /** A view the campaign could have produced. */
  ghost predicate Sane(view: View) {
    forall f | f in view ::
      && f != "" && view[f].family == f && view[f].mechanism != "" && view[f].attempts >= 1
      && (view[f].status == Blocked ==> view[f].blockReason != "")
  }

  /** On a sane view the scratch copy plans exactly as the registry itself would. */
  lemma ScratchPlansAlike(view: View, workers: nat)
    requires Sane(view)
    ensures Plan(Scratch(view), workers) == Plan(view, workers)
  {
    var scratch := Scratch(view);
    assert ActiveFamilies(scratch) == ActiveFamilies(view);
    RankedAlike(scratch, view, ActiveFamilies(view));
  }

  lemma {:induction false} RankedAlike(u: View, v: View, s: set<string>)
    requires s <= u.Keys && s <= v.Keys
    requires forall f | f in s :: u[f].attempts == v[f].attempts
    ensures Ranked(u, s) == Ranked(v, s)
  {
    if s != {} {
      var x, y := First(u, s), First(v, s);
      BeforeIsStrictOrder(u, x, y);
      RankedAlike(u, v, s - {x});
    }
  }

  // ---- Fairness over rounds with a fixed set of active families ----

  /** Two views in which the same families stand the same and have had the same attempts. */
  ghost predicate Alike(u: View, v: View) {
    u.Keys == v.Keys && forall f | f in u :: u[f].status == v[f].status && u[f].attempts == v[f].attempts
  }

  ghost predicate GapAtMostOne(view: View) {
    forall f, g | f in ActiveFamilies(view) && g in ActiveFamilies(view) :: view[f].attempts <= view[g].attempts + 1
  }
}
