/** Attempts that are close stay close, over runs in which round plans may be cut short anywhere and resumed. Between
    the writes of a plan the families still waiting for their dispatch are those with the fewest, in order. */
module EvenRuns {
  import opened Text
  import opened RequestIds
  import opened Registries
  import opened CampaignLedger
  import opened LedgerLaws
  import opened Dispatch
  import opened Campaigns
  import opened CampaignInvariant
  import opened CampaignSafety
  import opened PlanningSafety
  import opened PlanRetry
  import opened PlanPursuit
  import opened FreshRounds
  import opened CampaignRuns
  import opened FairRuns
  import opened ExhaustedFamilies
  import opened Wedges

  ghost predicate MayWork(w: World, f: string) { Known(w.disk.ledger, f) && Workable(w.disk, f) }

  /** No two families that may be given work are more than one dispatch apart. */
  ghost predicate Even(w: World) {
    forall f, g | MayWork(w, f) && MayWork(w, g) ::
      Dispatches(w.disk.ledger, f) <= Dispatches(w.disk.ledger, g) + 1
  }

  /** The i-th family of the plan is still to be published. */
  ghost predicate Waits(w: World, plan: seq<string>, round: nat, i: int) {
    0 <= i < |plan| && MayWork(w, plan[i]) && RequestId(plan[i], round) !in PublishedIds(w.disk.ledger, round)
  }

  ghost predicate InLine(w: World, plan: seq<string>, round: nat, f: string) {
    exists i :: Waits(w, plan, round, i) && plan[i] == f
  }

  /** Those still to be published have had the fewest dispatches, the earlier in the plan no more than the later. */
  ghost predicate Lowest(w: World, plan: seq<string>, round: nat) {
    && (forall i, j | i < j && Waits(w, plan, round, i) && Waits(w, plan, round, j) ::
          Dispatches(w.disk.ledger, plan[i]) <= Dispatches(w.disk.ledger, plan[j]))
    && (forall i, g | Waits(w, plan, round, i) && MayWork(w, g) && !InLine(w, plan, round, g) ::
          Dispatches(w.disk.ledger, plan[i]) <= Dispatches(w.disk.ledger, g))
  }

  ghost predicate PendingLowest(w: World, s: RoundState) {
    Pending(s, s.round) ==> s.round >= 1 && Distinct(s.pendingPlan) && Lowest(w, s.pendingPlan, s.round)
  }

  ghost predicate Balanced(w: World) {
    Even(w) && (w.disk.state.Some? ==> PendingLowest(w, w.disk.state.value))
  }

  // ---- Writes that keep the balance ----

  ghost predicate FirstInLine(w: World, plan: seq<string>, round: nat, i: int) {
    Waits(w, plan, round, i) && forall j | j < i :: !Waits(w, plan, round, j)
  }

  /** A publication for the first family in line of the pending plan. */
  ghost predicate PublishesFirst(w: World, e: Event) {
    && e.RequestPublished? && w.disk.state.Some?
    && var s := w.disk.state.value;
    && s.round >= 1 && Pending(s, s.round) && e.round == s.round && e.id == RequestId(e.family, s.round)
    && exists i :: FirstInLine(w, s.pendingPlan, s.round, i) && s.pendingPlan[i] == e.family
  }

  ghost predicate Gentle(w: World, e: Effect) {
    match e
    case Append(event) => PublishesFirst(w, event)
    case SaveState(s) => !Pending(s, s.round)
    case RecordPlan(s, _) => PendingLowest(w, s)
    case SaveRegistry(view) => SameExhaustion(w.disk, view)
    case _ => true
  }

  ghost predicate AllGentle(w: World, es: seq<Effect>)
    decreases |es|
  {
    es == [] || (Gentle(w, es[0]) && AllGentle(Do(w, es[0]), es[1..]))
  }

  lemma PublicationKeepsWork(w: World, e: Event, f: string)
    requires e.RequestPublished?
    ensures MayWork(Do(w, Append(e)), f) <==> MayWork(w, f)
    ensures Dispatches(w.disk.ledger + [e], f) == Dispatches(w.disk.ledger, f) + if e.family == f then 1 else 0
  {
    Extended(w.disk.ledger, e);
    KnownAfter(w.disk.ledger + [e], f);
  }

  /** Who waits after the first in line has been published. */
  lemma WaitsAfter(w: World, e: Event, plan: seq<string>, round: nat, i: int, j: int)
    requires e.RequestPublished? && e.round == round && e.id == RequestId(e.family, round)
    requires Distinct(plan) && Waits(w, plan, round, i) && plan[i] == e.family
    ensures Waits(Do(w, Append(e)), plan, round, j) <==> Waits(w, plan, round, j) && j != i
  {
    PublishedIdsAfter(w.disk.ledger, e, round);
    if 0 <= j < |plan| {
      PublicationKeepsWork(w, e, plan[j]);
      if RequestId(plan[j], round) == e.id { RequestIdInjective(plan[j], round, e.family, round); }
    }
  }

  lemma PublicationKeepsBalance(w: World, e: Event)
    requires Balanced(w) && PublishesFirst(w, e)
    ensures Balanced(Do(w, Append(e)))
  {
    var s, w' := w.disk.state.value, Do(w, Append(e));
    var plan, round := s.pendingPlan, s.round;
    var i :| FirstInLine(w, plan, round, i) && plan[i] == e.family;
    forall f ensures MayWork(w', f) <==> MayWork(w, f)
             ensures Dispatches(w'.disk.ledger, f) == Dispatches(w.disk.ledger, f) + if e.family == f then 1 else 0 {
      PublicationKeepsWork(w, e, f);
    }
    forall j ensures Waits(w', plan, round, j) <==> Waits(w, plan, round, j) && j != i {
      WaitsAfter(w, e, plan, round, i, j);
    }
    FirstIsFewest(w, plan, round, i);
    TailIsLowest(w, w', plan, round, i);
  }

  lemma FirstIsFewest(w: World, plan: seq<string>, round: nat, i: int)
    requires Lowest(w, plan, round) && FirstInLine(w, plan, round, i)
    ensures forall g | MayWork(w, g) :: Dispatches(w.disk.ledger, plan[i]) <= Dispatches(w.disk.ledger, g)
  {
    forall g | MayWork(w, g) ensures Dispatches(w.disk.ledger, plan[i]) <= Dispatches(w.disk.ledger, g) {
      if InLine(w, plan, round, g) {
        var j :| Waits(w, plan, round, j) && plan[j] == g;
        assert i <= j;
      }
    }
  }

  lemma TailIsLowest(w: World, w': World, plan: seq<string>, round: nat, i: int)
    requires Even(w) && Lowest(w, plan, round) && Waits(w, plan, round, i) && Distinct(plan)
    requires forall f :: MayWork(w', f) <==> MayWork(w, f)
    requires forall f :: Dispatches(w'.disk.ledger, f) == Dispatches(w.disk.ledger, f) + if plan[i] == f then 1 else 0
    requires forall j :: Waits(w', plan, round, j) <==> Waits(w, plan, round, j) && j != i
    ensures Lowest(w', plan, round)
  {
    forall g | MayWork(w', g) && !InLine(w', plan, round, g)
      ensures g == plan[i] || !InLine(w, plan, round, g)
    {
      forall k | Waits(w, plan, round, k) && k != i ensures plan[k] != g {
        assert Waits(w', plan, round, k);
      }
    }
  }

  /** Worlds whose ledgers and exhausted families are the same. */
  lemma SameWork(w: World, w': World)
    requires w'.disk.ledger == w.disk.ledger && forall f :: ExhaustedIn(w'.disk, f) <==> ExhaustedIn(w.disk, f)
    ensures forall f :: MayWork(w', f) <==> MayWork(w, f)
    ensures Even(w') <==> Even(w)
    ensures forall plan, round :: Lowest(w, plan, round) ==> Lowest(w', plan, round)
  {
    forall plan, round | Lowest(w, plan, round) ensures Lowest(w', plan, round) {
      assert forall i :: Waits(w', plan, round, i) <==> Waits(w, plan, round, i);
      forall g ensures InLine(w', plan, round, g) <==> InLine(w, plan, round, g) {
      }
    }
  }

  lemma GentleKeepsBalance(w: World, e: Effect)
    requires Balanced(w) && Gentle(w, e)
    ensures Balanced(Do(w, e))
  {
    if e.Append? {
      PublicationKeepsBalance(w, e.event);
    } else {
      SameWork(w, Do(w, e));
    }
  }

  lemma {:induction false} PrefixKeepsBalance(w: World, es: seq<Effect>, n: nat)
    requires Balanced(w) && AllGentle(w, es) && n <= |es|
    ensures Balanced(DoAll(w, es[..n]))
    decreases n
  {
    if n > 0 {
      GentleKeepsBalance(w, es[0]);
      PrefixKeepsBalance(Do(w, es[0]), es[1..], n - 1);
      assert es[..n][1..] == es[1..][..n - 1];
    }
  }

  lemma {:induction false} GentleTogether(w: World, a: seq<Effect>, b: seq<Effect>)
    requires AllGentle(w, a) && AllGentle(DoAll(w, a), b)
    ensures AllGentle(w, a + b)
    decreases |a|
  {
    if a == [] {
      assert a + b == b;
    } else {
      GentleTogether(Do(w, a[0]), a[1..], b);
      FirstGentle(w, a[0], a[1..] + b);
      assert a + b == [a[0]] + (a[1..] + b);
    }
  }

  lemma FirstGentle(w: World, e: Effect, rest: seq<Effect>)
    requires Gentle(w, e) && AllGentle(Do(w, e), rest)
    ensures AllGentle(w, [e] + rest)
  {
    assert ([e] + rest)[1..] == rest;
  }

  // ---- A round plan writes only such ----

  ghost predicate ShowsWork(view: View, w: World) { forall f :: IsActive(view, f) <==> MayWork(w, f) }

  lemma LoadedShowsWork(w: World)
    requires Inv(w)
    ensures ShowsWork(LoadedView(w.disk), w)
  {
    LoadedViewMirrors(w);
    forall f ensures IsActive(LoadedView(w.disk), f) <==> MayWork(w, f) {
      if Known(w.disk.ledger, f) { WorkableIsActive(w, f); }
    }
  }

  lemma {:induction false} FirstToDo(w: World, view: View, plan: seq<string>, round: nat, todo: seq<string>)
    requires ShowsWork(view, w) && todo == Unpublished(w.disk.ledger, ValidActive(view, plan), round) && todo != []
    ensures exists i :: FirstInLine(w, plan, round, i) && plan[i] == todo[0]
  {
    if MayWork(w, plan[0]) && RequestId(plan[0], round) !in PublishedIds(w.disk.ledger, round) {
      assert FirstInLine(w, plan, round, 0);
    } else {
      FirstToDo(w, view, plan[1..], round, todo);
      var i :| FirstInLine(w, plan[1..], round, i) && plan[1..][i] == todo[0];
      forall j | j < i + 1 ensures !Waits(w, plan, round, j) {
        if j > 0 { assert !Waits(w, plan[1..], round, j - 1) && plan[1..][j - 1] == plan[j]; }
      }
      assert FirstInLine(w, plan, round, i + 1);
    }
  }

  lemma {:induction false} UnpublishedTail(es: Events, e: Event, fs: seq<string>, round: nat)
    requires Distinct(fs) && Unpublished(es, fs, round) != [] && e.RequestPublished? && e.round == round
    requires e.id == RequestId(Unpublished(es, fs, round)[0], round)
    ensures Unpublished(es + [e], fs, round) == Unpublished(es, fs, round)[1..]
  {
    PublishedIdsAfter(es, e, round);
    if RequestId(fs[0], round) in PublishedIds(es, round) {
      UnpublishedTail(es, e, fs[1..], round);
    } else {
      OthersUnpublished(es, e, fs[1..], round, fs[0]);
    }
  }

  lemma {:induction false} OthersUnpublished(es: Events, e: Event, fs: seq<string>, round: nat, f: string)
    requires f !in fs && e.RequestPublished? && e.round == round && e.id == RequestId(f, round)
    ensures Unpublished(es + [e], fs, round) == Unpublished(es, fs, round)
  {
    if fs != [] {
      PublishedIdsAfter(es, e, round);
      OthersUnpublished(es, e, fs[1..], round, f);
      if RequestId(fs[0], round) == e.id { RequestIdInjective(fs[0], round, f, round); }
    }
  }

  /** The plan is pending on disk, and these are its active families that are yet to be published. */
  ghost predicate AtWork(w: World, view: View, plan: seq<string>, round: nat, todo: seq<string>) {
    && w.disk.state.Some? && w.disk.state.value.round == round >= 1 && Pending(w.disk.state.value, round)
    && w.disk.state.value.pendingPlan == plan && Distinct(plan) && ShowsWork(view, w)
    && todo == Unpublished(w.disk.ledger, ValidActive(view, plan), round)
  }

  lemma OnePublication(w: World, view: View, plan: seq<string>, round: nat, todo: seq<string>, r: Request)
    requires AtWork(w, view, plan, round, todo) && todo != [] && todo[0] in view
    requires r == RequestFor(view, todo[0], round) && Publishable(w.disk.requests, r)
    ensures var effects := PublicationEffects(w.disk.requests, r); var w' := DoAll(w, effects);
            && AllGentle(w, effects) && AtWork(w', view, plan, round, todo[1..])
            && w'.disk.requests == w.disk.requests[r.id := r]
  {
    var e := PublicationEvent(r);
    var w1 := if r.id in w.disk.requests then w else Do(w, WriteRequest(r));
    FirstToDo(w, view, plan, round, todo);
    SameWork(w, w1);
    FirstToDo(w1, view, plan, round, todo);
    assert PublishesFirst(w1, e);
    ValidActiveDistinct(view, plan);
    UnpublishedTail(w.disk.ledger, e, ValidActive(view, plan), round);
    forall f ensures MayWork(Do(w1, Append(e)), f) <==> MayWork(w, f) {
      PublicationKeepsWork(w1, e, f);
    }
    PublicationIs(w, r, w1);
  }

  lemma PublicationIs(w: World, r: Request, w1: World)
    requires w1 == if r.id in w.disk.requests then w else Do(w, WriteRequest(r))
    requires Gentle(w1, Append(PublicationEvent(r)))
    ensures var effects := PublicationEffects(w.disk.requests, r);
            DoAll(w, effects) == Do(w1, Append(PublicationEvent(r))) && AllGentle(w, effects)
  {
    var append := Append(PublicationEvent(r));
    FirstGentle(w1, append, []);
    assert [append] + [] == [append] && DoAll(w1, [append]) == Do(w1, append);
    if r.id !in w.disk.requests {
      FirstGentle(w, WriteRequest(r), [append]);
      assert ([WriteRequest(r)] + [append])[1..] == [append];
    }
  }

  lemma {:induction false} PublishGentle(w: World, view: View, plan: seq<string>, round: nat, todo: seq<string>)
    requires AtWork(w, view, plan, round, todo)
    ensures AllGentle(w, PublishRun(w.disk.requests, view, todo, round).effects)
    decreases |todo|
  {
    if todo != [] && todo[0] in view && !Blank(view[todo[0]].mechanism)
        && Publishable(w.disk.requests, RequestFor(view, todo[0], round)) {
      var r := RequestFor(view, todo[0], round);
      var first := PublicationEffects(w.disk.requests, r);
      OnePublication(w, view, plan, round, todo, r);
      PublishGentle(DoAll(w, first), view, plan, round, todo[1..]);
      GentleTogether(w, first, PublishRun(w.disk.requests[r.id := r], view, todo[1..], round).effects);
    }
  }

  lemma SaveGentle(w: World, view: View)
    requires SameExhaustion(w.disk, view)
    ensures AllGentle(w, SaveView(view).effects)
  {
    if SaveView(view).ok {
      FirstGentle(w, SaveRegistry(view), []);
      assert [SaveRegistry(view)] + [] == [SaveRegistry(view)];
    }
  }

  /** A state with no plan pending at its own round, then a registry with the same exhausted families. */
  lemma StateThenSaveGentle(w: World, s: RoundState, view: View)
    requires !Pending(s, s.round) && SameExhaustion(w.disk, view)
    ensures AllGentle(w, [SaveState(s)] + SaveView(view).effects)
  {
    SaveGentle(Do(w, SaveState(s)), view);
    FirstGentle(w, SaveState(s), SaveView(view).effects);
  }

  lemma FinishGentle(w: World, view: View, s: RoundState, round: nat)
    requires SameExhaustion(w.disk, view)
    ensures AllGentle(w, FinishRun(w.disk.ledger, view, s, round).effects)
  {
    var saved := Reconcile(view, w.disk.ledger);
    forall f ensures f in saved && saved[f].status == Exhausted <==> f in view && view[f].status == Exhausted {
      ReconcileKeepsExhaustion(view, w.disk.ledger, f);
    }
    SaveGentle(w, saved);
    StateThenSaveGentle(w, Advanced(s, s.publishedRounds, round), saved);
  }

  lemma DispatchGentle(w: World, view: View, s: RoundState, plan: seq<string>, round: nat, todo: seq<string>)
    requires AtWork(w, view, plan, round, todo) && SameExhaustion(w.disk, view)
    ensures AllGentle(w, DispatchRun(w.disk, view, s, todo, round).effects)
  {
    var pubs := PublishRun(w.disk.requests, view, todo, round).effects;
    PublishGentle(w, view, plan, round, todo);
    PublishShape(w.disk.requests, view, todo, round, round);
    OnlyPublications(w, pubs);
    LedgerGrows(w, pubs);
    FinishGentle(DoAll(w, pubs), view, s, round);
    GentleTogether(w, pubs, FinishRun(w.disk.ledger + Appended(pubs), view, s, round).effects);
  }

  /** A fresh plan picks the families with the fewest dispatches, in order. */
  lemma FreshPlanLowest(w: World, view: View, plan: seq<string>, workers: nat, round: nat)
    requires Mirrors(view, w.disk.ledger) && ShowsWork(view, w) && plan == Plan(view, workers)
    requires Unpublished(w.disk.ledger, plan, round) == plan
    ensures Distinct(plan) && Lowest(w, plan, round)
  {
    PlanIsLeast(view, workers);
    forall f | f in ActiveFamilies(view) ensures view[f].attempts == 1 + Dispatches(w.disk.ledger, f) {
      assert Agrees(view[f], Recorded(w.disk.ledger, f));
    }
    forall i | 0 <= i < |plan| ensures Waits(w, plan, round, i) {
      assert plan[i] in Unpublished(w.disk.ledger, plan, round) && IsActive(view, plan[i]);
    }
    forall g | MayWork(w, g) && !InLine(w, plan, round, g) ensures g in ActiveFamilies(view) && g !in plan {
      assert IsActive(view, g);
      assert forall i | 0 <= i < |plan| :: plan[i] != g || InLine(w, plan, round, g);
    }
    AllWaitLowest(w, view, plan, workers, round);
  }

  lemma AllWaitLowest(w: World, view: View, plan: seq<string>, workers: nat, round: nat)
    requires forall f | f in ActiveFamilies(view) :: view[f].attempts == 1 + Dispatches(w.disk.ledger, f)
    requires LeastPlan(view, plan, workers)
    requires forall g | MayWork(w, g) && !InLine(w, plan, round, g) :: g in ActiveFamilies(view) && g !in plan
    ensures Lowest(w, plan, round)
  {
    forall i, j | i < j && Waits(w, plan, round, i) && Waits(w, plan, round, j)
      ensures Dispatches(w.disk.ledger, plan[i]) <= Dispatches(w.disk.ledger, plan[j])
    {
      assert Ahead(view, plan[i], plan[j]) && plan[i] in plan && plan[j] in plan;
    }
    forall i, g | Waits(w, plan, round, i) && MayWork(w, g) && !InLine(w, plan, round, g)
      ensures Dispatches(w.disk.ledger, plan[i]) <= Dispatches(w.disk.ledger, g)
    {
      assert plan[i] in plan && Ahead(view, plan[i], g);
    }
  }

  /** One round, whether its plan is pending or fresh, whatever of it is left. */
  lemma RoundGentle(w: World, view: View, s: RoundState, workers: nat)
    requires Inv(w) && Balanced(w) && w.disk.state == Some(s) && ShowsWork(view, w) && Mirrors(view, w.disk.ledger)
    requires SameExhaustion(w.disk, view)
    ensures AllGentle(w, StartRound(w.disk, view, s, workers).effects)
  {
    var es, round := w.disk.ledger, CurrentRound(w.disk.ledger, s);
    var plan := CurrentPlan(view, s, round, workers);
    var here := s.(round := round, publishedRounds := Marks(es, s));
    var todo := Unpublished(es, plan, round);
    if view == map[] {
    } else if plan == [] || todo == [] {
      StateThenSaveGentle(w, Advanced(here, Marks(es, s), round), view);
      FirstGentle(w, SaveState(here.(pendingRound := 0, pendingPlan := [])), []);
    } else if Pending(s, round) {
      assert round == s.round;
      DispatchGentle(w, view, here, s.pendingPlan, round, todo);
    } else {
      FreshGentle(w, view, s, round, plan, workers);
    }
  }

  lemma FreshGentle(w: World, view: View, s: RoundState, round: nat, plan: seq<string>, workers: nat)
    requires Inv(w) && w.disk.state == Some(s) && ShowsWork(view, w) && Mirrors(view, w.disk.ledger)
    requires SameExhaustion(w.disk, view) && round == CurrentRound(w.disk.ledger, s) && !Pending(s, round)
    requires plan == Plan(Scratch(view), workers) && plan != []
    ensures Unpublished(w.disk.ledger, plan, round) == plan
    ensures var recorded := RecordedState(w.disk.ledger, s, round, plan);
            AllGentle(w, [RecordPlan(recorded, workers)] + DispatchRun(w.disk, view, recorded, plan, round).effects)
  {
    MirrorIsSane(view, w.disk.ledger);
    ScratchPlansAlike(view, workers);
    FreshTodo(w.disk.ledger, s, round, plan);
    FreshPlanLowest(w, view, plan, workers, round);
    PlanIsLeast(view, workers);
    RecordGentle(w, view, RecordedState(w.disk.ledger, s, round, plan), plan, round, workers);
  }

  lemma RecordGentle(w: World, view: View, recorded: RoundState, plan: seq<string>, round: nat, workers: nat)
    requires recorded.round == recorded.pendingRound == round >= 1 && recorded.pendingPlan == plan != []
    requires Distinct(plan) && Lowest(w, plan, round) && Unpublished(w.disk.ledger, plan, round) == plan
    requires ShowsWork(view, w) && SameExhaustion(w.disk, view) && forall f | f in plan :: IsActive(view, f)
    ensures AllGentle(w, [RecordPlan(recorded, workers)] + DispatchRun(w.disk, view, recorded, plan, round).effects)
  {
    var record := RecordPlan(recorded, workers);
    var w1 := Do(w, record);
    SameWork(w, w1);
    ValidActiveDistinct(view, plan);
    DispatchGentle(w1, view, recorded, plan, round, plan);
    assert DispatchRun(w1.disk, view, recorded, plan, round) == DispatchRun(w.disk, view, recorded, plan, round);
    FirstGentle(w, record, DispatchRun(w.disk, view, recorded, plan, round).effects);
  }

  lemma PlanGentle(w: World, workers: nat)
    requires Inv(w) && Balanced(w)
    ensures AllGentle(w, PlanRun(w.disk, workers).effects)
  {
    if workers >= 1 {
      var view, s := LoadedView(w.disk), StartState(w.disk, workers);
      LoadedViewMirrors(w);
      LoadedShowsWork(w);
      LoadedSameExhaustion(w.disk);
      PlanFromStart(w, workers);
      if w.disk.state.Some? {
        RoundGentle(w, view, s, workers);
      } else {
        RecoveredGentle(w, view, s, workers);
      }
    }
  }

  lemma RecoveredGentle(w: World, view: View, s: RoundState, workers: nat)
    requires Inv(w) && Balanced(w) && w.disk.state.None? && s == Recovered(w.disk.ledger, workers) && s.round >= 1
    requires ShowsWork(view, w) && Mirrors(view, w.disk.ledger) && SameExhaustion(w.disk, view)
    ensures AllGentle(w, [SaveState(s)] + StartRound(w.disk, view, s, workers).effects)
  {
    var w1 := Do(w, SaveState(s));
    RecoveredIsOk(w.disk.ledger, workers);
    AllowedKeepsInv(w, SaveState(s));
    SameWork(w, w1);
    RoundGentle(w1, view, s, workers);
    StartIgnoresState(w.disk, Some(s), view, s, workers);
    FirstGentle(w, SaveState(s), StartRound(w.disk, view, s, workers).effects);
  }

  // ---- Over runs ----

  /** A step after which no family is newly allowed to work, and none that is has had another dispatch: it may block
      families, exhaust them, ingest results, lose the state, or be any command cut before its first write. */
  ghost predicate NoNewcomers(w: World, step: Step) {
    var w' := Perform(w, step);
    forall f | MayWork(w', f) :: MayWork(w, f) && Dispatches(w'.disk.ledger, f) == Dispatches(w.disk.ledger, f)
  }

  ghost predicate EvenRun(w: World, steps: seq<Step>)
    decreases |steps|
  {
    steps == []
    || ((PlansRound(steps[0]) || NoNewcomers(w, steps[0])) && EvenRun(Perform(w, steps[0]), steps[1..]))
  }

  /** Events that neither add, reopen nor publish for a family. */
  ghost predicate NoWork(more: Events) {
    forall e | e in more :: !e.FamilyAdded? && !e.FamilyReopened? && !e.RequestPublished?
  }

  lemma {:induction false} NoWorkRecords(es: Events, more: Events, f: string)
    requires NoWork(more)
    ensures Known(es + more, f) <==> Known(es, f)
    ensures Dispatches(es + more, f) == Dispatches(es, f)
    ensures StandingOf(es, f).Shut? ==> StandingOf(es + more, f).Shut?
  {
    if more == [] {
      assert es + more == es;
    } else {
      NoWorkRecords(es, Front(more), f);
      assert Front(es + more) == es + Front(more) && Last(es + more) == Last(more);
      assert Last(more) in more;
      KnownAfter(es + more, f);
    }
  }

  /** Which steps these are: all that append nothing but blocks and results, whatever else they write, and take the mark
      of exhaustion from no family but one that is blocked. */
  lemma QuietStepHasNoNewcomers(w: World, step: Step, w': World, more: Events)
    requires w' == Perform(w, step) && w'.disk.ledger == w.disk.ledger + more && NoWork(more)
    requires forall f | ExhaustedIn(w.disk, f) :: ExhaustedIn(w'.disk, f) || StandingOf(w'.disk.ledger, f).Shut?
    ensures NoNewcomers(w, step)
  {
    forall f | MayWork(w', f)
      ensures MayWork(w, f) && Dispatches(w'.disk.ledger, f) == Dispatches(w.disk.ledger, f)
    {
      NoWorkRecords(w.disk.ledger, more, f);
    }
  }

  lemma PlanKeepsBalance(w: World, step: Step)
    requires Inv(w) && Balanced(w) && PlansRound(step)
    ensures Balanced(Perform(w, step))
  {
    var effects := PlanRun(w.disk, step.command.workers).effects;
    PlanGentle(w, step.command.workers);
    PlanCommand(w.disk, step.command.workers);
    assert effects[..|effects|] == effects;
    PrefixKeepsBalance(w, effects, if step.writes < |effects| then step.writes else |effects|);
  }

  lemma {:induction false} EventsBetween(w: World, w': World, more: Events, f: string, round: nat)
    requires Inv(w') && w'.disk.ledger == w.disk.ledger + more && round >= 1
    requires MayWork(w', f) && Dispatches(w'.disk.ledger, f) == Dispatches(w.disk.ledger, f)
    ensures RequestId(f, round) in PublishedIds(w'.disk.ledger, round)
       <==> RequestId(f, round) in PublishedIds(w.disk.ledger, round)
  {
    LawfulIds(w'.disk.ledger);
    assert forall e | e in w.disk.ledger :: e in w'.disk.ledger;
    if e :| e in more && e.RequestPublished? && e.round == round && e.id == RequestId(f, round) {
      assert IsPublication(w'.disk.ledger, e);
      RequestIdInjective(e.family, e.round, f, round);
      DispatchedIn(w.disk.ledger, more, e, f);
    }
  }

  lemma OtherStepKeepsBalance(w: World, step: Step)
    requires Inv(w) && Balanced(w) && NoNewcomers(w, step) && !PlansRound(step)
    ensures Balanced(Perform(w, step))
  {
    var w' := Perform(w, step);
    StepKeepsInv(w, step);
    StepGrowsLedger(w, step);
    StateKeptOrLost(w, step);
    if w'.disk.state.Some? && Pending(w.disk.state.value, w.disk.state.value.round) {
      var plan, round := w.disk.state.value.pendingPlan, w.disk.state.value.round;
      var more := w'.disk.ledger[|w.disk.ledger|..];
      assert w'.disk.ledger == w.disk.ledger + more;
      forall i | Waits(w', plan, round, i) ensures Waits(w, plan, round, i) {
        EventsBetween(w, w', more, plan[i], round);
      }
      forall i | Waits(w, plan, round, i) && MayWork(w', plan[i]) ensures Waits(w', plan, round, i) {
        EventsBetween(w, w', more, plan[i], round);
      }
      FewerLowest(w, w', plan, round);
    }
  }

  /** Taking families out keeps the rest in order. */
  lemma FewerLowest(w: World, w': World, plan: seq<string>, round: nat)
    requires Lowest(w, plan, round)
    requires forall f | MayWork(w', f) :: MayWork(w, f) && Dispatches(w'.disk.ledger, f) == Dispatches(w.disk.ledger, f)
    requires forall i | Waits(w', plan, round, i) :: Waits(w, plan, round, i)
    requires forall i | Waits(w, plan, round, i) && MayWork(w', plan[i]) :: Waits(w', plan, round, i)
    ensures Lowest(w', plan, round)
  {
    forall g | MayWork(w', g) && !InLine(w', plan, round, g) ensures !InLine(w, plan, round, g) {
      forall i | Waits(w, plan, round, i) ensures plan[i] != g {
        assert MayWork(w', plan[i]) ==> Waits(w', plan, round, i);
      }
    }
  }

  lemma OthersWriteNoState(w: World, c: Command)
    requires !c.PlanRound?
    ensures NoState(CommandRun(w.disk, c).effects)
  {
    var view := LoadedView(w.disk);
    match c
    case SeedFamilies(seeds) => SeedsSaveNoState(view, seeds);
    case IngestRound => IngestWritesNoState(w.disk);
    case _ =>
  }

  lemma {:induction false} SeedsSaveNoState(view: View, seeds: seq<Seed>)
    ensures NoState(SeedEffects(view, seeds).effects)
    decreases |seeds|
  {
    if seeds != [] {
      SeedsSaveNoState(view, seeds[1..]);
      SeedsSaveNoState(view[seeds[0].family := NewApproach(seeds[0].family, seeds[0].mechanism)], seeds[1..]);
    }
  }

  /** Only round plans write the state. */
  lemma StateKeptOrLost(w: World, step: Step)
    requires Inv(w) && !PlansRound(step)
    ensures Perform(w, step).disk.state in {w.disk.state, None}
  {
    if step.Execute? {
      OthersWriteNoState(w, step.command);
      var effects := CommandRun(w.disk, step.command).effects;
      assert forall e | e in Written(w.disk, step.command, step.writes) :: e in effects;
      StateAfter(w, Written(w.disk, step.command, step.writes));
    }
  }

  lemma {:induction false} BalanceOverRuns(w: World, steps: seq<Step>)
    requires Inv(w) && Balanced(w) && EvenRun(w, steps)
    ensures Balanced(Continued(w, steps))
    decreases |steps|
  {
    if steps != [] {
      StepKeepsInv(w, steps[0]);
      if PlansRound(steps[0]) {
        PlanKeepsBalance(w, steps[0]);
      } else {
        OtherStepKeepsBalance(w, steps[0]);
      }
      BalanceOverRuns(Perform(w, steps[0]), steps[1..]);
    }
  }

  /** Once no plan is pending and the attempts of the active families are within one of each other, they stay so: over
      every run of round plans, with any max-workers, complete or cut short anywhere and resumed or not, and of steps
      that let no family newly work. */
  lemma GapStaysBoundedOverRuns(w: World, steps: seq<Step>)
    requires Inv(w) && EvenRun(w, steps) && GapAtMostOne(LoadedView(w.disk))
    requires w.disk.state.Some? ==> !Pending(w.disk.state.value, w.disk.state.value.round)
    ensures GapAtMostOne(LoadedView(Continued(w, steps).disk))
  {
    EvenIsGap(w);
    BalanceOverRuns(w, steps);
    ContinuedKeepsInv(w, steps);
    EvenIsGap(Continued(w, steps));
  }

  lemma EvenIsGap(w: World)
    requires Inv(w)
    ensures Even(w) <==> GapAtMostOne(LoadedView(w.disk))
  {
    var view := LoadedView(w.disk);
    LoadedShowsWork(w);
    LoadedViewMirrors(w);
    forall f ensures f in ActiveFamilies(view) <==> MayWork(w, f)
             ensures f in view ==> view[f].attempts == 1 + Dispatches(w.disk.ledger, f) {
      assert IsActive(view, f) <==> MayWork(w, f);
    }
  }
}
