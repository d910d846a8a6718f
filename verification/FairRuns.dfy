/** Fairness over runs of the commands: completed rounds do not starve a family that may be given work. */
module FairRuns {
  import opened Text
  import opened RequestIds
  import opened Registries
  import opened CampaignLedger
  import opened LedgerLaws
  import opened Dispatch
  import opened Campaigns
  import opened CampaignInvariant
  import opened CampaignSafety
  import opened FreshRounds
  import opened CampaignRuns

  /** A round plan that starts a fresh round, has someone to dispatch, and completes. */
  ghost predicate FullRound(w: World, step: Step) {
    && step.Execute? && step.command.PlanRound? && Fresh(w.disk, step.command.workers)
    && Plan(LoadedView(w.disk), step.command.workers) != []
    && PlanRun(w.disk, step.command.workers).ok
    && step.writes >= |PlanRun(w.disk, step.command.workers).effects|
  }

  /** A plan drawn up afresh that leaves out a family: its round, its max-workers, and the ledger at that time. */
  datatype Begun = Begun(round: int, plan: seq<string>, workers: nat, ledger: Events)

  /** A round plan with no plan pending, which draws one up. */
  predicate PlansRound(step: Step) { step.Execute? && step.command.PlanRound? }

  ghost predicate Starts(w: World, step: Step) { PlansRound(step) && Fresh(w.disk, step.command.workers) }

  ghost function Drawn(w: World, workers: nat): Begun {
    Begun(StartingRound(w.disk, workers), Plan(LoadedView(w.disk), workers), workers, w.disk.ledger)
  }

  /** The plan drawn up leaves out f, which may be given work. */
  ghost predicate LeavesOut(w: World, step: Step, f: string) {
    Starts(w, step) && IsActive(LoadedView(w.disk), f) && f !in Plan(LoadedView(w.disk), step.command.workers)
  }

  /** The latest plan drawn up, if it left out f and is yet to be completed. */
  ghost function Latest(w: World, step: Step, f: string, open: Option<Begun>): Option<Begun> {
    if LeavesOut(w, step, f) then Some(Drawn(w, step.command.workers)) else if Starts(w, step) then None else open
  }

  /** The whole plan has been published, by the invocation that drew it up or by any later one. */
  ghost predicate Completed(open: Option<Begun>, es: Events) {
    open.Some? && open.value.round >= 1 && AllPublished(es, open.value.plan, open.value.round)
  }

  /** The max-workers of the rounds of a run that leave out f while it may be given work, in the order in which they are
      completed; open is one that is under way at the start. */
  ghost function Served(w: World, steps: seq<Step>, f: string, open: Option<Begun>): seq<nat>
    decreases |steps|
  {
    if steps == [] then []
    else
      var w', latest := Perform(w, steps[0]), Latest(w, steps[0], f, open);
      if Completed(latest, w'.disk.ledger) then [latest.value.workers] + Served(w', steps[1..], f, None)
      else Served(w', steps[1..], f, latest)
  }

  /** Whoever may be given work besides f, whenever a plan leaves out f. */
  ghost predicate Rivals(w: World, steps: seq<Step>, f: string, others: seq<string>)
    decreases |steps|
  {
    steps == []
    || ((LeavesOut(w, steps[0], f) ==> forall g | IsActive(LoadedView(w.disk), g) && g != f :: g in others)
        && Rivals(Perform(w, steps[0]), steps[1..], f, others))
  }

  function Sum(ks: seq<nat>): nat { if ks == [] then 0 else ks[0] + Sum(ks[1..]) }

  /** How many are at least k? */
  function AtLeast(ks: seq<nat>, k: nat): nat {
    if ks == [] then 0 else (if ks[0] >= k then 1 else 0) + AtLeast(ks[1..], k)
  }

  lemma {:induction false} AtLeastFits(ks: seq<nat>, k: nat)
    ensures AtLeast(ks, k) * k <= Sum(ks)
  {
    if ks != [] {
      AtLeastFits(ks[1..], k);
      assert (1 + AtLeast(ks[1..], k)) * k == AtLeast(ks[1..], k) * k + k;
    }
  }

  lemma SumFirst(k: nat, ks: seq<nat>)
    ensures Sum([k] + ks) == k + Sum(ks)
  {
    assert ([k] + ks)[1..] == ks;
  }

  lemma PlanInFull(w: World, workers: nat, writes: nat, es: seq<Effect>)
    requires es == PlanRun(w.disk, workers).effects && writes >= |es|
    ensures Perform(w, Execute(PlanRound(workers), writes)) == DoAll(w, es)
  {
    PlanCommand(w.disk, workers);
    WrittenInFull(w.disk, PlanRound(workers), writes, es);
  }

  /** A full round takes the loaded view to that view with the fair plan dispatched. */
  lemma FullRoundDispatches(w: World, step: Step, view: View, plan: seq<string>)
    requires Inv(w) && FullRound(w, step) && view == LoadedView(w.disk) && plan == Plan(view, step.command.workers)
    ensures Inv(Perform(w, step)) && LeastPlan(view, plan, step.command.workers)
    ensures Alike(LoadedView(Perform(w, step).disk), Dispatched(view, plan))
    ensures forall f | f in plan :: Dispatches(Perform(w, step).disk.ledger, f) > Dispatches(w.disk.ledger, f)
  {
    var workers := step.command.workers;
    PlanInFull(w, workers, step.writes, PlanRun(w.disk, workers).effects);
    StartOk(w, workers);
    FullRunDispatches(w, workers, view, plan, StartingRound(w.disk, workers), Perform(w, step));
  }

  lemma FullRunDispatches(w: World, workers: nat, view: View, plan: seq<string>, round: nat, w': World)
    requires Inv(w) && Fresh(w.disk, workers) && PlanRun(w.disk, workers).ok
              && w' == DoAll(w, PlanRun(w.disk, workers).effects)
    requires view == LoadedView(w.disk) && plan == Plan(view, workers) && plan != []
              && round == StartingRound(w.disk, workers)
    ensures Inv(w') && LeastPlan(view, plan, workers) && Alike(LoadedView(w'.disk), Dispatched(view, plan))
    ensures forall f | f in plan :: Dispatches(w'.disk.ledger, f) > Dispatches(w.disk.ledger, f)
  {
    FreshPlanDispatches(w, workers, view, plan, round, w');
    PlanIsLeast(view, workers);
    forall f | f in plan ensures Dispatches(w'.disk.ledger, f) > Dispatches(w.disk.ledger, f) {
      DispatchesAfter(w.disk.ledger, view, plan, round, f);
    }
  }

  lemma {:induction false} DispatchesGrow(es: Events, es': Events, f: string)
    requires es <= es'
    ensures Dispatches(es, f) <= Dispatches(es', f)
    decreases |es'|
  {
    if |es| < |es'| {
      assert es <= Front(es');
      DispatchesGrow(es, Front(es'), f);
    } else {
      assert es == es';
    }
  }

  // ---- How many dispatches the others are ahead ----

  /** How far family g, added or not, is ahead of f in the queue, in dispatches. */
  function Lead(es: Events, g: string, f: string): nat {
    var lead := Dispatches(es, f) - Dispatches(es, g) + if Less(g, f) then 1 else 0;
    if lead > 0 then lead else 0
  }

  function TotalLead(es: Events, names: seq<string>, f: string): nat {
    if names == [] then 0 else Lead(es, names[0], f) + TotalLead(es, names[1..], f)
  }

  function Chosen(names: seq<string>, plan: seq<string>): nat {
    if names == [] then 0 else (if names[0] in plan then 1 else 0) + Chosen(names[1..], plan)
  }

  /** While f is not dispatched no lead over it grows, and every dispatch of a family ahead of it takes one off. */
  lemma {:induction false} LeadDrops(es: Events, es': Events, names: seq<string>, plan: seq<string>, f: string)
    requires es <= es' && Dispatches(es', f) == Dispatches(es, f)
    requires forall g | g in plan :: Lead(es, g, f) > 0 && Dispatches(es', g) > Dispatches(es, g)
    ensures TotalLead(es', names, f) + Chosen(names, plan) <= TotalLead(es, names, f)
  {
    if names != [] {
      DispatchesGrow(es, es', names[0]);
      LeadDrops(es, es', names[1..], plan, f);
    }
  }

  lemma {:induction false} ChosenCounts(names: seq<string>, plan: seq<string>)
    requires Distinct(names) && Distinct(plan) && forall g | g in plan :: g in names
    ensures Chosen(names, plan) == |plan|
  {
    assert plan != [] ==> plan[0] in plan;
    if names != [] {
      var g := names[0];
      if g in plan {
        var i :| 0 <= i < |plan| && plan[i] == g;
        var rest := plan[..i] + plan[i + 1..];
        forall h | h in rest ensures h in names[1..] {
          assert h in plan && h != g;
        }
        ChosenCounts(names[1..], rest);
        forall h | h in names[1..] ensures h in plan <==> h in rest {
          assert plan == plan[..i] + [g] + plan[i + 1..];
        }
        ChosenAlike(names[1..], plan, rest);
      } else {
        forall h | h in plan ensures h in names[1..] { assert h in names; }
        ChosenCounts(names[1..], plan);
      }
    }
  }

  lemma {:induction false} ChosenAlike(names: seq<string>, p: seq<string>, q: seq<string>)
    requires forall h | h in names :: h in p <==> h in q
    ensures Chosen(names, p) == Chosen(names, q)
  {
    if names != [] {
      ChosenAlike(names[1..], p, q);
    }
  }

  /** Whom a fair plan prefers is ahead. */
  lemma PreferredIsAhead(view: View, es: Events, g: string, f: string)
    requires Mirrors(view, es) && f in view && g in view && Ahead(view, g, f)
    ensures Lead(es, g, f) > 0
  {
    LessExactly(g, f);
    assert Agrees(view[f], Recorded(es, f)) && Agrees(view[g], Recorded(es, g));
  }

  // ---- One round ----

  /** What a plan that leaves out f finds: all its families ahead of f and none of them published in its round. */
  ghost predicate BegunOver(b: Begun, f: string, others: seq<string>) {
    && b.round >= 1 && Distinct(b.plan) && |b.plan| == b.workers
    && forall g | g in b.plan ::
         g in others && Lead(b.ledger, g, f) > 0 && RequestId(g, b.round) !in PublishedIds(b.ledger, b.round)
  }

  lemma DrawnIsBegun(w: World, step: Step, f: string, others: seq<string>)
    requires Inv(w) && LeavesOut(w, step, f)
    requires forall g | IsActive(LoadedView(w.disk), g) && g != f :: g in others
    ensures BegunOver(Drawn(w, step.command.workers), f, others)
  {
    var view, workers := LoadedView(w.disk), step.command.workers;
    var plan, round := Plan(view, workers), StartingRound(w.disk, workers);
    PlanIsLeast(view, workers);
    StartOk(w, workers);
    LoadedViewMirrors(w);
    assert f in ActiveFamilies(view);
    FreshTodo(w.disk.ledger, StartState(w.disk, workers), round, plan);
    forall g | g in plan
      ensures g in others && Lead(w.disk.ledger, g, f) > 0
              && RequestId(g, round) !in PublishedIds(w.disk.ledger, round)
    {
      assert IsActive(view, g) && g in Unpublished(w.disk.ledger, plan, round);
      PreferredIsAhead(view, w.disk.ledger, g, f);
    }
  }

  /** A publication among later events is one dispatch more. */
  lemma {:induction false} DispatchedIn(es: Events, more: Events, e: Event, f: string)
    requires e in more && e.RequestPublished? && e.family == f
    ensures Dispatches(es + more, f) > Dispatches(es, f)
  {
    assert Front(es + more) == es + Front(more) && Last(es + more) == Last(more);
    if e in Front(more) {
      DispatchedIn(es, Front(more), e, f);
    } else {
      assert more == Front(more) + [Last(more)];
      DispatchesGrow(es, es + Front(more), f);
    }
  }

  lemma PublishedSince(es: Events, es': Events, f: string, round: nat)
    requires es <= es' && Lawful(es')
    requires RequestId(f, round) in PublishedIds(es', round) && RequestId(f, round) !in PublishedIds(es, round)
    ensures Dispatches(es', f) > Dispatches(es, f)
  {
    var more := es'[|es|..];
    assert es' == es + more;
    LawfulIds(es');
    var e :| e in es' && e.RequestPublished? && e.round == round && e.id == RequestId(f, round);
    assert IsPublication(es', e);
    RequestIdInjective(e.family, e.round, f, round);
    assert e in more;
    DispatchedIn(es, more, e, f);
  }

  /** From drawing up a plan that leaves out f to completing it, the others lose as much lead as there are workers,
      however many invocations it takes and whatever happens in between. */
  lemma PassedOver(b: Begun, es: Events, f: string, others: seq<string>)
    requires BegunOver(b, f, others) && Distinct(others) && b.ledger <= es && Lawful(es)
    requires AllPublished(es, b.plan, b.round) && Dispatches(es, f) == Dispatches(b.ledger, f)
    ensures TotalLead(es, others, f) + b.workers <= TotalLead(b.ledger, others, f)
  {
    forall g | g in b.plan ensures Dispatches(es, g) > Dispatches(b.ledger, g) {
      PublishedSince(b.ledger, es, g, b.round);
    }
    LeadDrops(b.ledger, es, others, b.plan, f);
    ChosenCounts(others, b.plan);
  }

  // ---- Over whole runs ----

  /** The ledger the lead is counted from. */
  ghost function Base(w: World, open: Option<Begun>): Events {
    if open.Some? then open.value.ledger else w.disk.ledger
  }

  ghost predicate Underway(w: World, open: Option<Begun>, f: string, others: seq<string>) {
    open.Some? ==> BegunOver(open.value, f, others) && open.value.ledger <= w.disk.ledger
  }

  lemma SameAllAlong(a: Events, b: Events, c: Events, f: string)
    requires a <= b <= c && Dispatches(c, f) == Dispatches(a, f)
    ensures Dispatches(b, f) == Dispatches(a, f)
  {
    DispatchesGrow(a, b, f);
    DispatchesGrow(b, c, f);
  }

  /** Drawing up another plan only moves the count to a later ledger. */
  lemma LatestUnderway(w: World, step: Step, f: string, others: seq<string>, open: Option<Begun>)
    requires Inv(w) && Distinct(others) && Underway(w, open, f, others)
    requires LeavesOut(w, step, f) ==> forall g | IsActive(LoadedView(w.disk), g) && g != f :: g in others
    requires Dispatches(w.disk.ledger, f) == Dispatches(Base(w, open), f)
    ensures Underway(w, Latest(w, step, f, open), f, others)
    ensures TotalLead(Base(w, Latest(w, step, f, open)), others, f) <= TotalLead(Base(w, open), others, f)
    ensures Dispatches(Base(w, Latest(w, step, f, open)), f) == Dispatches(w.disk.ledger, f)
  {
    if LeavesOut(w, step, f) { DrawnIsBegun(w, step, f, others); }
    LeadDrops(Base(w, open), w.disk.ledger, others, [], f);
  }

  lemma {:induction false} ServedFitsLead(w: World, steps: seq<Step>, f: string, others: seq<string>,
                                          open: Option<Begun>)
    requires Inv(w) && Distinct(others) && Rivals(w, steps, f, others) && Underway(w, open, f, others)
    requires Dispatches(Continued(w, steps).disk.ledger, f) == Dispatches(Base(w, open), f)
    ensures Sum(Served(w, steps, f, open)) <= TotalLead(Base(w, open), others, f)
    decreases |steps|
  {
    if steps != [] {
      var w', rest, latest := Perform(w, steps[0]), steps[1..], Latest(w, steps[0], f, open);
      StepKeepsInv(w, steps[0]);
      StepGrowsLedger(w, steps[0]);
      ContinuedGrowsLedger(w', rest);
      SameAllAlong(Base(w, open), w.disk.ledger, Continued(w', rest).disk.ledger, f);
      SameAllAlong(Base(w, open), w'.disk.ledger, Continued(w', rest).disk.ledger, f);
      LatestUnderway(w, steps[0], f, others, open);
      if Completed(latest, w'.disk.ledger) {
        PassedOver(latest.value, w'.disk.ledger, f, others);
        ServedFitsLead(w', rest, f, others, None);
        SumFirst(latest.value.workers, Served(w', rest, f, None));
      } else {
        LeadDrops(Base(w, latest), w'.disk.ledger, others, [], f);
        ServedFitsLead(w', rest, f, others, latest);
      }
    }
  }

  /** No starvation, over every run: any commands with any max-workers, complete or cut short and resumed, and anything
      that may happen in between. While f is neither given work nor reopened, the workers of the completed rounds that
      left it out though it could have been given work are no more than the total lead over it of the others that could
      have been at those times, newly added ones included. */
  lemma WaitingIsBounded(w: World, steps: seq<Step>, workers: nat, f: string, others: seq<string>)
    requires Inv(w) && Distinct(others) && Rivals(w, steps, f, others)
    requires Dispatches(Continued(w, steps).disk.ledger, f) == Dispatches(w.disk.ledger, f)
    ensures Sum(Served(w, steps, f, None)) <= TotalLead(w.disk.ledger, others, f)
    ensures workers >= 1 ==>
              AtLeast(Served(w, steps, f, None), workers) <= TotalLead(w.disk.ledger, others, f) / workers
  {
    ServedFitsLead(w, steps, f, others, None);
    AtLeastFits(Served(w, steps, f, None), workers);
    if workers >= 1 {
      RoundsWithin(AtLeast(Served(w, steps, f, None), workers), workers, TotalLead(w.disk.ledger, others, f));
    }
  }

  lemma ProductGrows(a: nat, b: nat, k: nat)
    requires a <= b
    ensures a * k <= b * k
  {
  }

  lemma RoundsWithin(n: nat, k: nat, total: nat)
    requires k >= 1 && n * k <= total
    ensures n <= total / k
  {
    var q := total / k;
    assert (q + 1) * k == q * k + k > total;
    if n > q {
      ProductGrows(q + 1, n, k);
    }
  }
}
