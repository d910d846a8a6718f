/** The round plan command keeps the campaign invariant, and a retry finishes the pending plan. */
module PlanningSafety {
  import opened Text
  import opened RequestIds
  import opened Registries
  import opened CampaignLedger
  import opened LedgerLaws
  import opened Dispatch
  import opened Campaigns
  import opened CampaignInvariant
  import opened CampaignSafety

  // ---- Facts about the pieces of a plan ----

  lemma {:induction false} LawfulMechanisms(es: Events, f: string)
    requires Lawful(es) && Known(es, f)
    ensures MechanismOf(es, f) != ""
  {
    KnownAfter(es, f);
    if Known(Front(es), f) {
      LawfulMechanisms(Front(es), f);
    }
  }

  lemma MirrorIsSane(view: View, es: Events)
    requires Lawful(es) && Mirrors(view, es)
    ensures Sane(view)
  {
    forall f | f in view
      ensures f != "" && MechanismOf(es, f) != "" && (StandingOf(es, f).Shut? ==> StandingOf(es, f).reason != "")
    {
      LawfulFamilies(es, f);
      LawfulMechanisms(es, f);
    }
  }

  /** A freshly computed plan: distinct active families, no more than the workers asked for. */
  lemma FreshPlan(view: View, es: Events, workers: nat)
    requires Lawful(es) && Mirrors(view, es)
    ensures var plan := Plan(Scratch(view), workers);
            Distinct(plan) && |plan| <= workers && forall f | f in plan :: IsActive(view, f)
  {
    MirrorIsSane(view, es);
    ScratchPlansAlike(view, workers);
    PlanIsLeast(view, workers);
    forall f | f in Plan(view, workers) ensures IsActive(view, f) {
      assert f in ActiveFamilies(view);
    }
  }

  lemma {:induction false} ValidActiveDistinct(view: View, fs: seq<string>)
    requires Distinct(fs)
    ensures Distinct(ValidActive(view, fs))
    ensures (forall f | f in fs :: IsActive(view, f)) ==> ValidActive(view, fs) == fs
  {
    if fs != [] {
      ValidActiveDistinct(view, fs[1..]);
      assert forall f | f in fs[1..] :: f in fs && f != fs[0];
    }
  }

  lemma {:induction false} UnpublishedDistinct(es: Events, plan: seq<string>, round: nat)
    requires Distinct(plan)
    ensures Distinct(Unpublished(es, plan, round))
  {
    if plan != [] {
      UnpublishedDistinct(es, plan[1..], round);
      assert forall f | f in plan[1..] :: f != plan[0];
    }
  }

  lemma {:induction false} PublishedFamiliesFacts(es: Events, round: int)
    requires Lawful(es)
    ensures forall f :: f in PublishedFamilies(es, round) <==>
            exists e | IsPublication(es, e) :: e.round == round && e.family == f
    ensures Distinct(PublishedFamilies(es, round))
  {
    if es != [] {
      var e := Last(es);
      PublishedFamiliesFacts(Front(es), round);
      LawfulIds(Front(es));
      assert es == Front(es) + [e];
      if e.RequestPublished? && e.round == round {
        forall p | IsPublication(Front(es), p) && p.round == round ensures p.family != e.family {
          assert p.id != e.id;
        }
        assert e.family !in PublishedFamilies(Front(es), round);
      }
    }
  }

  lemma {:induction false} HighestRoundBounds(es: Events)
    ensures forall e | IsPublication(es, e) :: e.round <= HighestRound(es)
  {
    if es != [] {
      HighestRoundBounds(Front(es));
      assert es == Front(es) + [Last(es)];
    }
  }

  lemma PublishedAreKnown(es: Events, e: Event)
    requires Lawful(es) && IsPublication(es, e)
    ensures Known(es, e.family)
  {
    LawfulFamilies(es, e.family);
    assert Published(es, e.id, e.family);
  }

  /** The state rebuilt after a loss: past every recorded round, so nothing old is dispatched again. */
  lemma RecoveredIsOk(es: Events, workers: int)
    requires Lawful(es)
    ensures var s := Recovered(es, workers); StateOk(s, es) && !Pending(s, s.round)
  {
    var s := Recovered(es, workers);
    HighestRoundBounds(es);
    PublishedFamiliesFacts(es, HighestRound(es));
    forall f | f in s.pendingPlan ensures Known(es, f) {
      var e :| IsPublication(es, e) && e.round == HighestRound(es) && e.family == f;
      PublishedAreKnown(es, e);
    }
  }

  /** A round that is not pending and not complete has no publication at all. */
  lemma FreshRoundIsEmpty(es: Events, s: RoundState, round: int)
    requires Lawful(es) && !Pending(s, round) && round >= 1
    requires !Marked(Marks(es, s), round)
    ensures forall e | IsPublication(es, e) :: e.round != round
  {
    PublishedFamiliesFacts(es, round);
    LawfulIds(es);
    forall f | f in PublishedFamilies(es, round) ensures RequestId(f, round) in PublishedIds(es, round) {
      var e :| IsPublication(es, e) && e.round == round && e.family == f;
      assert e.id in PublishedIds(es, round);
    }
    forall e | IsPublication(es, e) ensures e.round != round {
      assert e.round in RecordedRounds(es);
    }
  }

  /** Families of a plan that are active and unpublished are ready for their requests. */
  lemma TodoIsReady(es: Events, view: View, plan: seq<string>, round: nat)
    requires Lawful(es) && Mirrors(view, es) && forall f | f in plan :: IsActive(view, f)
    ensures forall f | f in Unpublished(es, plan, round) :: Ready(es, view, f, round)
  {
  }

  // ---- The command ----

  lemma FinishAllowed(w: World, view: View, s: RoundState, round: nat)
    requires Inv(w) && round >= 1 && Faithful(view, w.disk.ledger)
    requires forall e | IsPublication(w.disk.ledger, e) :: e.round <= round
    ensures AllAllowed(w, FinishRun(w.disk.ledger, view, s, round).effects)
    ensures Appended(FinishRun(w.disk.ledger, view, s, round).effects) == []
  {
    var es := w.disk.ledger;
    var view' := Reconcile(view, es);
    ReconcileMirrors(view, es);
    MirrorIsFaithful(view', es);
    SaveAllowed(w, view');
    var save := SaveState(Advanced(s, s.publishedRounds, round));
    if AllPublished(es, s.pendingPlan, round) {
      SaveThenView(w, save, view');
    }
    assert [SaveRegistry(view')][1..] == [];
  }

  /** A state save followed by a registry save. */
  lemma SaveThenView(w: World, save: Effect, view: View)
    requires Inv(w) && save.SaveState? && Allowed(w, save) && Faithful(view, w.disk.ledger)
    ensures AllAllowed(w, [save] + SaveView(view).effects)
    ensures Appended([save] + SaveView(view).effects) == []
  {
    AllowedKeepsInv(w, save);
    SaveAllowed(Do(w, save), view);
    assert ([save] + SaveView(view).effects)[1..] == SaveView(view).effects;
    assert SaveView(view).effects == [SaveRegistry(view)] && [SaveRegistry(view)][1..] == [];
    assert Appended(SaveView(view).effects) == [];
  }

  /** What working on a round comes to: allowed writes, publications of todo only, and all of todo on success. */
  ghost predicate Outcome(w: World, run: Run, round: nat, todo: seq<string>) {
    var es, es' := w.disk.ledger, DoAll(w, run.effects).disk.ledger;
    && AllAllowed(w, run.effects)
    && DispatchedInto(es, es', run.effects, round, todo)
    && (run.ok ==> Ids(todo, round) <= PublishedIds(es', round))
  }

  lemma SilentOutcome(w: World, run: Run, round: nat, todo: seq<string>)
    requires AllAllowed(w, run.effects) && Appended(run.effects) == [] && (run.ok ==> todo == [])
    ensures Outcome(w, run, round, todo)
  {
    LedgerGrows(w, run.effects);
    assert w.disk.ledger + [] == w.disk.ledger;
  }

  /** A write that is no append, before the rest. */
  lemma OutcomeAfter(w: World, e: Effect, rest: Run, round: nat, todo: seq<string>)
    requires Allowed(w, e) && !e.Append? && Outcome(Do(w, e), rest, round, todo)
    ensures Outcome(w, After([e], rest), round, todo)
  {
    assert ([e] + rest.effects)[1..] == rest.effects;
    assert [] + Appended(rest.effects) == Appended(rest.effects);
  }

  /** The publications of a round, then writes that append nothing. */
  lemma PublishedThenSilent(w: World, first: seq<Effect>, rest: Run, round: nat, todo: seq<string>)
    requires AllAllowed(w, first)
    requires var w1 := DoAll(w, first);
             && AllAllowed(w1, rest.effects) && Appended(rest.effects) == []
             && DispatchedInto(w.disk.ledger, w1.disk.ledger, first, round, todo)
             && Ids(todo, round) <= PublishedIds(w1.disk.ledger, round)
    ensures Outcome(w, After(first, rest), round, todo)
  {
    var w1 := DoAll(w, first);
    AllAllowedConcat(w, first, rest.effects);
    LedgerGrows(w1, rest.effects);
    AppendedConcat(first, rest.effects);
    assert Appended(first) + [] == Appended(first);
    assert w1.disk.ledger + [] == w1.disk.ledger;
  }

  /** Publishing what is left of the pending plan on disk, then finishing the round. */
  lemma DispatchAllowed(w: World, view: View, s: RoundState, todo: seq<string>, round: nat)
    requires Inv(w) && round >= 1 && Backed(w.disk, todo, round) && Faithful(view, w.disk.ledger)
    requires forall f | f in todo :: Ready(w.disk.ledger, view, f, round)
    ensures Outcome(w, DispatchRun(w.disk, view, s, todo, round), round, todo)
  {
    var published := PublishRun(w.disk.requests, view, todo, round);
    PublishAllowed(w, view, todo, round);
    FinishDispatch(w, view, s, todo, round, published);
  }

  lemma FinishDispatch(w: World, view: View, s: RoundState, todo: seq<string>, round: nat, published: Run)
    requires Inv(w) && round >= 1 && Faithful(view, w.disk.ledger)
    requires w.disk.state.Some? && w.disk.state.value.round == round
    requires published == PublishRun(w.disk.requests, view, todo, round)
    requires var w1 := DoAll(w, published.effects);
             && AllAllowed(w, published.effects) && Inv(w1) && PublishedInto(w, w1, published.effects, round, todo)
             && Faithful(view, w1.disk.ledger)
             && (published.ok ==> Ids(todo, round) <= PublishedIds(w1.disk.ledger, round))
    ensures Outcome(w, DispatchRun(w.disk, view, s, todo, round), round, todo)
  {
    if published.ok {
      var w1 := DoAll(w, published.effects);
      FinishAllowed(w1, view, s, round);
      PublishedThenSilent(w, published.effects, FinishRun(w1.disk.ledger, view, s, round), round, todo);
    }
  }

  lemma {:induction false} LedgerGrows(w: World, es: seq<Effect>)
    ensures DoAll(w, es).disk.ledger == w.disk.ledger + Appended(es)
    decreases |es|
  {
    if es != [] {
      LedgerGrows(Do(w, es[0]), es[1..]);
    }
  }

  /** What the current round and its plan satisfy, however they were arrived at. */
  ghost predicate Startable(es: Events, view: View, s: RoundState, round: nat, plan: seq<string>, workers: nat) {
    && StateOk(s, es) && Mirrors(view, es)
    && round >= s.round && !Marked(Marks(es, s), round)
    && (if Pending(s, round) then plan == ValidActive(view, s.pendingPlan)
        else Distinct(plan) && |plan| <= workers && forall f | f in plan :: IsActive(view, f))
  }

  lemma CurrentIsStartable(es: Events, view: View, s: RoundState, workers: nat)
    requires Lawful(es) && StateOk(s, es) && Mirrors(view, es)
    ensures var round := CurrentRound(es, s);
            Startable(es, view, s, round, CurrentPlan(view, s, round, workers), workers)
  {
    FreshPlan(view, es, workers);
  }

  lemma ClearAllowed(w: World, s: RoundState, round: nat, marks: map<int, bool>, todo: seq<string>)
    requires Inv(w) && w.disk.state == Some(s) && round >= s.round
    ensures var clear := SaveState(s.(round := round, publishedRounds := marks, pendingRound := 0, pendingPlan := []));
            Outcome(w, Run([clear], false), round, todo)
  {
    var clear := SaveState(s.(round := round, publishedRounds := marks, pendingRound := 0, pendingPlan := []));
    assert [clear][1..] == [];
    SilentOutcome(w, Run([clear], false), round, todo);
  }

  lemma AdvanceAllowed(w: World, view: View, s: RoundState, round: nat, marks: map<int, bool>)
    requires Inv(w) && w.disk.state == Some(s) && round >= s.round && Faithful(view, w.disk.ledger)
    ensures var advance := SaveState(Advanced(s.(round := round, publishedRounds := marks), marks, round));
            Outcome(w, After([advance], SaveView(view)), round, [])
  {
    var advance := SaveState(Advanced(s.(round := round, publishedRounds := marks), marks, round));
    SaveThenView(w, advance, view);
    SilentOutcome(w, After([advance], SaveView(view)), round, []);
  }

  lemma RoundAllowed(w: World, view: View, s: RoundState, round: nat, plan: seq<string>, workers: nat)
    requires Inv(w) && w.disk.state == Some(s) && Startable(w.disk.ledger, view, s, round, plan, workers)
    ensures Outcome(w, RoundRun(w.disk, view, s, round, plan, workers), round, Unpublished(w.disk.ledger, plan, round))
  {
    var es := w.disk.ledger;
    var todo := Unpublished(es, plan, round);
    MirrorIsFaithful(view, es);
    if Pending(s, round) && plan == [] {
      ClearAllowed(w, s, round, Marks(es, s), todo);
    } else if todo == [] {
      AdvanceAllowed(w, view, s, round, Marks(es, s));
    } else if Pending(s, round) {
      PendingTodo(es, view, s, round);
      DispatchAllowed(w, view, s.(round := round, publishedRounds := Marks(es, s)), todo, round);
    } else {
      FreshDispatch(w, view, s, round, plan, workers);
    }
  }

  lemma PendingTodo(es: Events, view: View, s: RoundState, round: nat)
    requires Lawful(es) && Mirrors(view, es) && StateOk(s, es) && Pending(s, round) && round >= s.round
    ensures var todo := Unpublished(es, ValidActive(view, s.pendingPlan), round);
            && round == s.round && Distinct(todo)
            && (forall f | f in todo :: f in s.pendingPlan)
            && forall f | f in todo :: Ready(es, view, f, round)
  {
    var plan := ValidActive(view, s.pendingPlan);
    ValidActiveDistinct(view, s.pendingPlan);
    UnpublishedDistinct(es, plan, round);
    TodoIsReady(es, view, plan, round);
  }

  /** The state that records a fresh plan before anything of it is published. */
  function RecordedState(es: Events, s: RoundState, round: nat, plan: seq<string>): RoundState {
    s.(round := round, publishedRounds := Marks(es, s), pendingRound := round, pendingPlan := plan)
  }

  lemma RecordAllowed(w: World, view: View, s: RoundState, round: nat, plan: seq<string>, workers: nat)
    requires Inv(w) && w.disk.state == Some(s) && Startable(w.disk.ledger, view, s, round, plan, workers)
    requires !Pending(s, round) && plan != []
    ensures Allowed(w, RecordPlan(RecordedState(w.disk.ledger, s, round, plan), workers))
  {
    FreshRoundIsEmpty(w.disk.ledger, s, round);
  }

  lemma FreshDispatch(w: World, view: View, s: RoundState, round: nat, plan: seq<string>, workers: nat)
    requires Inv(w) && w.disk.state == Some(s) && Startable(w.disk.ledger, view, s, round, plan, workers)
    requires !Pending(s, round) && Unpublished(w.disk.ledger, plan, round) != []
    ensures Outcome(w, RoundRun(w.disk, view, s, round, plan, workers), round, Unpublished(w.disk.ledger, plan, round))
  {
    var es := w.disk.ledger;
    var todo := Unpublished(es, plan, round);
    var recorded := RecordedState(es, s, round, plan);
    assert todo[0] in todo && todo[0] in plan;
    RecordAllowed(w, view, s, round, plan, workers);
    var record := RecordPlan(recorded, workers);
    RecordedDispatch(w, view, s, round, plan, workers);
    OutcomeAfter(w, record, DispatchRun(w.disk, view, recorded, todo, round), round, todo);
  }

  lemma RecordedDispatch(w: World, view: View, s: RoundState, round: nat, plan: seq<string>, workers: nat)
    requires Inv(w) && w.disk.state == Some(s) && Startable(w.disk.ledger, view, s, round, plan, workers)
    requires !Pending(s, round) && plan != []
    ensures var recorded := RecordedState(w.disk.ledger, s, round, plan);
            var todo := Unpublished(w.disk.ledger, plan, round);
            Outcome(Do(w, RecordPlan(recorded, workers)), DispatchRun(w.disk, view, recorded, todo, round), round, todo)
  {
    var es := w.disk.ledger;
    var todo := Unpublished(es, plan, round);
    var recorded := RecordedState(es, s, round, plan);
    UnpublishedDistinct(es, plan, round);
    TodoIsReady(es, view, plan, round);
    RecordAllowed(w, view, s, round, plan, workers);
    var record := RecordPlan(recorded, workers);
    AllowedKeepsInv(w, record);
    MirrorIsFaithful(view, es);
    DispatchAllowed(Do(w, record), view, recorded, todo, round);
    assert DispatchRun(Do(w, record).disk, view, recorded, todo, round)
        == DispatchRun(w.disk, view, recorded, todo, round);
  }

  lemma StartAllowed(w: World, view: View, s: RoundState, workers: nat)
    requires Inv(w) && w.disk.state == Some(s) && Mirrors(view, w.disk.ledger)
    ensures AllAllowed(w, StartRound(w.disk, view, s, workers).effects)
  {
    var round := CurrentRound(w.disk.ledger, s);
    CurrentIsStartable(w.disk.ledger, view, s, workers);
    RoundAllowed(w, view, s, round, CurrentPlan(view, s, round, workers), workers);
  }

  lemma PlanAllowed(w: World, workers: nat)
    requires Inv(w)
    ensures AllAllowed(w, PlanRun(w.disk, workers).effects)
  {
    LoadedViewMirrors(w);
    var view := LoadedView(w.disk);
    if w.disk.state.Some? {
      StartAllowed(w, view, w.disk.state.value, workers);
    } else {
      var save := SaveState(Recovered(w.disk.ledger, workers));
      RecoveredIsOk(w.disk.ledger, workers);
      AllowedKeepsInv(w, save);
      var w1 := Do(w, save);
      StartAllowed(w1, view, save.state, workers);
      var run := StartRound(w1.disk, view, save.state, workers);
      assert ([save] + run.effects)[1..] == run.effects;
    }
  }
}
