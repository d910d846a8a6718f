/** What a round plan does when no plan is pending: it publishes the fair plan on the view it loads, and the view
    loaded afterwards is that view with one dispatch more for each family of the plan. */
module FreshRounds {
  import opened Text
  import opened Registries
  import opened CampaignLedger
  import opened LedgerLaws
  import opened Dispatch
  import opened Campaigns
  import opened CampaignInvariant
  import opened CampaignSafety
  import opened PlanningSafety
  import opened PlanRetry

  /** The round state an invocation starts from. */
  function StartState(d: Disk, workers: nat): RoundState {
    if d.state.Some? then ReadState(d.state.value) else Recovered(d.ledger, workers)
  }

  function StartingRound(d: Disk, workers: nat): int { CurrentRound(d.ledger, StartState(d, workers)) }

  /** No plan is pending for the round the invocation works on. */
  ghost predicate Fresh(d: Disk, workers: nat) {
    workers >= 1 && !Pending(StartState(d, workers), StartingRound(d, workers))
  }

  function Publications(view: View, fs: seq<string>, round: nat): Events
    requires forall f | f in fs :: f in view
  {
    if fs == [] then [] else [PublicationEvent(RequestFor(view, fs[0], round))] + Publications(view, fs[1..], round)
  }

  lemma {:induction false} PublishedAll(requests: map<string, Request>, view: View, todo: seq<string>, round: nat)
    requires PublishRun(requests, view, todo, round).ok
    ensures forall f | f in todo :: f in view
    ensures Appended(PublishRun(requests, view, todo, round).effects) == Publications(view, todo, round)
    decreases |todo|
  {
    if todo != [] {
      var r := RequestFor(view, todo[0], round);
      PublishedAll(requests[r.id := r], view, todo[1..], round);
      AppendedPublication(requests, r, PublishRun(requests[r.id := r], view, todo[1..], round).effects);
    }
  }

  lemma {:induction false} DispatchesAfter(es: Events, view: View, fs: seq<string>, round: nat, f: string)
    requires Distinct(fs) && forall g | g in fs :: g in view
    ensures Dispatches(es + Publications(view, fs, round), f) == Dispatches(es, f) + if f in fs then 1 else 0
    ensures Known(es + Publications(view, fs, round), f) <==> Known(es, f)
    decreases |fs|
  {
    if fs == [] {
      assert es + [] == es;
    } else {
      var e, rest := PublicationEvent(RequestFor(view, fs[0], round)), Publications(view, fs[1..], round);
      Extended(es, e);
      KnownAfter(es + [e], f);
      DispatchesAfter(es + [e], view, fs[1..], round, f);
      assert es + ([e] + rest) == (es + [e]) + rest;
      assert f in fs <==> f == fs[0] || f in fs[1..];
    }
  }

  lemma {:induction false} PublicationsOnly(view: View, fs: seq<string>, round: nat)
    requires forall g | g in fs :: g in view
    ensures forall e | e in Publications(view, fs, round) :: e.RequestPublished? && e.family in fs && e.round == round
  {
    if fs != [] {
      PublicationsOnly(view, fs[1..], round);
    }
  }

  lemma DispatchedFamily(view: View, es: Events, view': View, fs: seq<string>, round: nat, f: string)
    requires Distinct(fs) && forall g | g in fs :: g in view
    requires Mirrors(view, es) && Mirrors(view', es + Publications(view, fs, round)) && ExhaustedAlike(view', view)
    ensures f in view' <==> f in view
    ensures f in view ==> view'[f].status == view[f].status
                          && view'[f].attempts == view[f].attempts + if f in fs then 1 else 0
  {
    PublicationsOnly(view, fs, round);
    DispatchesAfter(es, view, fs, round, f);
    PublicationsKeepStanding(es, Publications(view, fs, round), f);
  }

  /** The view loaded after the publications of a plan, and nothing else, is the view with that plan dispatched. */
  lemma DispatchedView(w: World, w': World, view: View, fs: seq<string>, round: nat)
    requires Inv(w) && Inv(w') && view == LoadedView(w.disk) && Distinct(fs) && forall g | g in fs :: g in view
    requires w'.disk.ledger == w.disk.ledger + Publications(view, fs, round) && SameExhaustion(w'.disk, view)
    ensures Alike(LoadedView(w'.disk), Dispatched(view, fs))
  {
    LoadedViewMirrors(w);
    LoadedViewMirrors(w');
    LoadedSameExhaustion(w'.disk);
    DispatchedAlike(view, w.disk.ledger, LoadedView(w'.disk), fs, round);
  }

  lemma DispatchedAlike(view: View, es: Events, view': View, fs: seq<string>, round: nat)
    requires Distinct(fs) && forall g | g in fs :: g in view
    requires Mirrors(view, es) && Mirrors(view', es + Publications(view, fs, round)) && ExhaustedAlike(view', view)
    ensures Alike(view', Dispatched(view, fs))
  {
    forall f ensures f in view' <==> f in view
             ensures f in view ==> view'[f].status == view[f].status
                                   && view'[f].attempts == view[f].attempts + if f in fs then 1 else 0
    {
      DispatchedFamily(view, es, view', fs, round, f);
    }
  }

  // ---- The run of a fresh round ----

  /** With no plan pending the round has none of its plan published, so all of it is to be done. */
  lemma FreshTodo(es: Events, s: RoundState, round: nat, plan: seq<string>)
    requires Lawful(es) && !Pending(s, round) && round >= 1 && !Marked(Marks(es, s), round)
    ensures Unpublished(es, plan, round) == plan
  {
    FreshRoundIsEmpty(es, s, round);
    NothingPublished(es, round);
    AllUnpublished(es, plan, round);
  }

  lemma NothingPublished(es: Events, round: int)
    requires forall e | IsPublication(es, e) :: e.round != round
    ensures PublishedIds(es, round) == {}
  {
    assert forall e | e in es && e.RequestPublished? :: IsPublication(es, e);
  }

  lemma {:induction false} AllUnpublished(es: Events, plan: seq<string>, round: nat)
    requires PublishedIds(es, round) == {}
    ensures Unpublished(es, plan, round) == plan
  {
    if plan != [] {
      AllUnpublished(es, plan[1..], round);
    }
  }

  lemma StartOk(w: World, workers: nat)
    requires Inv(w)
    ensures StateOk(StartState(w.disk, workers), w.disk.ledger)
    ensures StartingRound(w.disk, workers) >= 1
  {
    RecoveredIsOk(w.disk.ledger, workers);
  }

  /** The run from the state it starts from on. */
  function FreshRest(d: Disk, view: View, s0: RoundState, round: nat, plan: seq<string>, workers: nat): Run {
    var s := RecordedState(d.ledger, s0, round, plan);
    After([RecordPlan(s, workers)], DispatchRun(d, view, s, plan, round))
  }

  /** A fresh round plan records the fair plan on the loaded view and dispatches all of it. */
  lemma FreshRun(w: World, workers: nat, view: View, plan: seq<string>, round: nat)
    requires Inv(w) && Fresh(w.disk, workers) && view == LoadedView(w.disk) && round == StartingRound(w.disk, workers)
    requires plan == Plan(view, workers) && plan != []
    ensures var s0 := StartState(w.disk, workers);
            PlanRun(w.disk, workers)
            == After(if w.disk.state.Some? then [] else [SaveState(s0)],
                     FreshRest(w.disk, view, s0, round, plan, workers))
  {
    var s0 := StartState(w.disk, workers);
    StartOk(w, workers);
    LoadedViewMirrors(w);
    FreshPlanIs(view, w.disk.ledger, workers, plan);
    FreshTodo(w.disk.ledger, s0, round, plan);
    FreshStart(w.disk, view, s0, round, plan, workers);
    LawfulRounds(w.disk.ledger);
    PlanRunIs(w.disk, view, s0, workers, FreshRest(w.disk, view, s0, round, plan, workers));
  }

  lemma LawfulRounds(es: Events)
    requires Lawful(es)
    ensures RoundsValid(es)
  {
    LawfulIds(es);
    assert forall e | e in es && e.RequestPublished? :: IsPublication(es, e);
  }

  lemma FreshPlanIs(view: View, es: Events, workers: nat, plan: seq<string>)
    requires Lawful(es) && Mirrors(view, es) && plan == Plan(view, workers) && plan != []
    ensures Plan(Scratch(view), workers) == plan && view != map[]
    ensures LeastPlan(view, plan, workers)
  {
    MirrorIsSane(view, es);
    ScratchPlansAlike(view, workers);
    PlanIsLeast(view, workers);
    assert plan[0] in plan && plan[0] in ActiveFamilies(view);
  }

  lemma FreshStart(d: Disk, view: View, s0: RoundState, round: nat, plan: seq<string>, workers: nat)
    requires s0.round >= 1 && view != map[] && round == CurrentRound(d.ledger, s0) && !Pending(s0, round)
    requires plan == Plan(Scratch(view), workers) && plan != [] && Unpublished(d.ledger, plan, round) == plan
    ensures StartRound(d, view, s0, workers) == FreshRest(d, view, s0, round, plan, workers)
  {
    assert CurrentPlan(view, s0, round, workers) == plan;
  }

  lemma StartIgnoresState(d: Disk, s: Option<RoundState>, view: View, s0: RoundState, workers: nat)
    requires s0.round >= 1
    ensures StartRound(d.(state := s), view, s0, workers) == StartRound(d, view, s0, workers)
  {
  }

  lemma PlanRunIs(d: Disk, view: View, s0: RoundState, workers: nat, rest: Run)
    requires workers >= 1 && RoundsValid(d.ledger) && view == LoadedView(d) && s0 == StartState(d, workers)
              && s0.round >= 1
    requires StartRound(d, view, s0, workers) == rest
    ensures PlanRun(d, workers) == After(if d.state.Some? then [] else [SaveState(s0)], rest)
  {
    if d.state.None? {
      StartIgnoresState(d, Some(s0), view, s0, workers);
    } else {
      assert [] + rest.effects == rest.effects;
    }
  }

  lemma {:induction false} NothingAppendedBy(effects: seq<Effect>)
    requires forall e | e in effects :: !e.Append?
    ensures Appended(effects) == []
    decreases |effects|
  {
    if effects != [] {
      NothingAppendedBy(effects[1..]);
    }
  }

  /** What a dispatch of a whole plan that goes through appends. */
  lemma DispatchAppends(d: Disk, view: View, s: RoundState, plan: seq<string>, round: nat)
    requires DispatchRun(d, view, s, plan, round).ok
    ensures forall f | f in plan :: f in view
    ensures Appended(DispatchRun(d, view, s, plan, round).effects) == Publications(view, plan, round)
  {
    PublishedAll(d.requests, view, plan, round);
    var pubs := PublishRun(d.requests, view, plan, round).effects;
    var finish := FinishRun(d.ledger + Appended(pubs), view, s, round).effects;
    NothingAppendedBy(finish);
    AppendedConcat(pubs, finish);
    assert Appended(pubs) + [] == Appended(pubs);
  }

  /** A fresh round plan that completes: the fair plan on the loaded view, and only that, has been published, and the
      view loaded next is the loaded view with that plan dispatched. */
  lemma FreshPlanDispatches(w: World, workers: nat, view: View, plan: seq<string>, round: nat, w': World)
    requires Inv(w) && Fresh(w.disk, workers) && PlanRun(w.disk, workers).ok
              && w' == DoAll(w, PlanRun(w.disk, workers).effects)
    requires view == LoadedView(w.disk) && plan == Plan(view, workers) && plan != []
              && round == StartingRound(w.disk, workers)
    ensures (forall f | f in plan :: f in view) && w'.disk.ledger == w.disk.ledger + Publications(view, plan, round)
    ensures Inv(w') && Alike(LoadedView(w'.disk), Dispatched(view, plan))
  {
    var effects := PlanRun(w.disk, workers).effects;
    FreshRun(w, workers, view, plan, round);
    PlanAllowed(w, workers);
    WholeKeepsInv(w, effects);
    LedgerGrows(w, effects);
    FreshAppends(w, workers, view, plan, round, effects);
    FreshExhaustion(w, workers, view, plan, round, effects);
    PlanIsLeast(view, workers);
    DispatchedView(w, w', view, plan, round);
  }

  lemma FreshAppends(w: World, workers: nat, view: View, plan: seq<string>, round: nat, effects: seq<Effect>)
    requires var s0 := StartState(w.disk, workers);
             var rest := FreshRest(w.disk, view, s0, round, plan, workers);
             rest.ok && effects == (if w.disk.state.Some? then [] else [SaveState(s0)]) + rest.effects
    ensures forall f | f in plan :: f in view
    ensures Appended(effects) == Publications(view, plan, round)
  {
    var s0 := StartState(w.disk, workers);
    var s := RecordedState(w.disk.ledger, s0, round, plan);
    var first := (if w.disk.state.Some? then [] else [SaveState(s0)]) + [RecordPlan(s, workers)];
    var dispatch := DispatchRun(w.disk, view, s, plan, round);
    assert effects == first + dispatch.effects;
    DispatchAppends(w.disk, view, s, plan, round);
    NothingAppendedBy(first);
    AppendedConcat(first, dispatch.effects);
    assert [] + Appended(dispatch.effects) == Appended(dispatch.effects);
  }

  lemma FreshExhaustion(w: World, workers: nat, view: View, plan: seq<string>, round: nat, effects: seq<Effect>)
    requires view == LoadedView(w.disk)
    requires var s0 := StartState(w.disk, workers);
             var rest := FreshRest(w.disk, view, s0, round, plan, workers);
             effects == (if w.disk.state.Some? then [] else [SaveState(s0)]) + rest.effects
    ensures SameExhaustion(DoAll(w, effects).disk, view)
  {
    var s0 := StartState(w.disk, workers);
    var rest := FreshRest(w.disk, view, s0, round, plan, workers);
    var s := RecordedState(w.disk.ledger, s0, round, plan);
    LoadedSameExhaustion(w.disk);
    DispatchShape(w.disk, view, s, plan, round, round);
    ShapeTogether([RecordPlan(s, workers)], DispatchRun(w.disk, view, s, plan, round).effects, round, view);
    if w.disk.state.Some? {
      assert effects == rest.effects;
      ShapeKeepsExhaustion(w, effects, round, view);
    } else {
      assert effects[1..] == rest.effects && effects[0] == SaveState(s0);
      ShapeKeepsExhaustion(Do(w, SaveState(s0)), rest.effects, round, view);
    }
  }
}
