/** What a round plan that completes comes to: the requests it publishes, the round state it leaves, the registry it
    saves. */
module PlanOutcome {
  import opened Text
  import opened RequestIds
  import opened Registries
  import opened CampaignLedger
  import opened LedgerLaws
  import opened Dispatch
  import opened Campaigns
  import opened CampaignInvariant
  import opened CampaignSafety
  import opened PlanningSafety
  import opened FreshRounds
  import opened LedgerReading

  // ---- The state a lost state file is replaced by ----

  /** It is at the round after the highest one published, which it takes for pending with the families published in
      it, and it has every published round for complete. */
  lemma RecoveredExactly(es: Events, workers: int, s: RoundState, highest: int)
    requires RoundsValid(es) && s == Recovered(es, workers) && highest == s.round - 1
    ensures forall e | IsPublication(es, e) :: e.round < s.round
    ensures highest > 0 ==> exists e | IsPublication(es, e) :: e.round == highest
    ensures highest >= 0 && s.maxWorkers == workers && s.pendingRound == highest
    ensures exists at :: InLedgerOrder(es, highest, s.pendingPlan, at)
    ensures forall r :: r in s.publishedRounds.Keys <==> exists e | IsPublication(es, e) :: e.round == r
    ensures forall r | r in s.publishedRounds :: s.publishedRounds[r]
  {
    HighestRoundExactly(es);
    PublishedFamiliesExactly(es, highest);
    forall r ensures r in RecordedRounds(es) <==> exists e | IsPublication(es, e) :: e.round == r {
      if e :| IsPublication(es, e) && e.round == r {
        assert e in es && e.RequestPublished? && e.round >= 1;
      }
    }
  }

  // ---- Which rounds are complete ----

  /** The round has a publication for the family. */
  ghost predicate PublishedIn(es: Events, f: string, round: int) {
    exists e | IsPublication(es, e) :: e.round == round && e.family == f
  }

  lemma PublishedInExactly(es: Events, f: string, round: nat)
    requires Lawful(es)
    ensures RequestId(f, round) in PublishedIds(es, round) <==> PublishedIn(es, f, round)
  {
    LawfulIds(es);
    if RequestId(f, round) in PublishedIds(es, round) {
      var e :| e in es && e.RequestPublished? && e.round == round && e.id == RequestId(f, round);
      assert IsPublication(es, e);
      RequestIdInjective(e.family, e.round, f, round);
    }
  }

  /** A round with publications is complete if no plan is pending for it, or all of its pending plan is published; any
      other round keeps the mark it has. */
  lemma MarksExactly(es: Events, s: RoundState, round: nat)
    requires Lawful(es)
    ensures Marked(Marks(es, s), round) <==>
              if exists e | IsPublication(es, e) :: e.round == round
              then s.pendingRound == round ==> forall f | f in s.pendingPlan :: PublishedIn(es, f, round)
              else Marked(s.publishedRounds, round)
  {
    LawfulIds(es);
    assert round in RecordedRounds(es) <==> exists e | IsPublication(es, e) :: e.round == round;
    forall f ensures RequestId(f, round) in PublishedIds(es, round) <==> PublishedIn(es, f, round) {
      PublishedInExactly(es, f, round);
    }
    PublishedFamiliesFacts(es, round);
  }

  // ---- A round plan that completes ----

  /** The assignment of a family for a round: under the round's id, with the mechanism the view has for it. */
  function Assignment(view: View, f: string, round: nat): Request
    requires f in view
  {
    Request(f + "--r" + Decimal(round), round, f, view[f].mechanism)
  }

  /** One publication for each family, in that order. */
  ghost predicate PublishesEach(view: View, todo: seq<string>, round: nat, es: Events) {
    && |es| == |todo|
    && forall i | 0 <= i < |todo| ::
         && todo[i] in view
         && var r := Assignment(view, todo[i], round);
            es[i] == RequestPublished(r.id, round, todo[i], r)
  }

  /** The envelopes of the publications have been put under requests, and nothing else has changed there. */
  ghost predicate EnvelopesAdded(requests: map<string, Request>, requests': map<string, Request>, es: Events) {
    && (forall e | e in es && e.RequestPublished? :: e.id in requests' && requests'[e.id] == e.envelope)
    && (forall id | id in requests :: id in requests' && requests'[id] == requests[id])
    && (forall id | id in requests' && id !in requests :: exists e | e in es :: e.RequestPublished? && e.id == id)
  }

  lemma OneEnvelopeMore(requests: map<string, Request>, r: Request, requests': map<string, Request>, es: Events)
    requires r.id in requests ==> requests[r.id] == r
    requires EnvelopesAdded(requests[r.id := r], requests', es)
    ensures EnvelopesAdded(requests, requests', [PublicationEvent(r)] + es)
  {
    var e := PublicationEvent(r);
    assert e in [e] + es;
    forall id | id in requests' && id !in requests && id != r.id
      ensures exists x | x in [e] + es :: x.RequestPublished? && x.id == id
    {
      var x :| x in es && x.RequestPublished? && x.id == id;
      assert x in [e] + es;
    }
  }

  lemma {:induction false} PublicationsExactly(requests: map<string, Request>, view: View, todo: seq<string>,
                                               round: nat)
    requires PublishRun(requests, view, todo, round).ok
    ensures PublishesEach(view, todo, round, Appended(PublishRun(requests, view, todo, round).effects))
    decreases |todo|
  {
    if todo != [] {
      var r := RequestFor(view, todo[0], round);
      PublicationsExactly(requests[r.id := r], view, todo[1..], round);
      var rest := Appended(PublishRun(requests[r.id := r], view, todo[1..], round).effects);
      AppendedPublication(requests, r, PublishRun(requests[r.id := r], view, todo[1..], round).effects);
      FirstPublished(view, todo, round, rest);
    }
  }

  lemma FirstPublished(view: View, todo: seq<string>, round: nat, rest: Events)
    requires todo != [] && todo[0] in view && PublishesEach(view, todo[1..], round, rest)
    ensures PublishesEach(view, todo, round, [PublicationEvent(RequestFor(view, todo[0], round))] + rest)
  {
    assert todo == [todo[0]] + todo[1..];
  }

  /** What appending events, with their envelopes, makes of a directory. */
  ghost predicate Grown(w: World, w': World, es: Events) {
    && w' == w.(disk := w.disk.(ledger := w.disk.ledger + es, requests := w'.disk.requests))
    && EnvelopesAdded(w.disk.requests, w'.disk.requests, es)
  }

  lemma GrownFirst(w: World, w1: World, w2: World, r: Request, es: Events)
    requires Publishable(w.disk.requests, r)
    requires w1 == w.(disk := w.disk.(ledger := w.disk.ledger + [PublicationEvent(r)],
                                      requests := w.disk.requests[r.id := r]))
    requires Grown(w1, w2, es)
    ensures Grown(w, w2, [PublicationEvent(r)] + es)
  {
    OneEnvelopeMore(w.disk.requests, r, w2.disk.requests, es);
    assert w.disk.ledger + [PublicationEvent(r)] + es == w.disk.ledger + ([PublicationEvent(r)] + es);
  }

  lemma NothingGrown(w: World)
    ensures Grown(w, w, [])
  {
    assert w.disk.ledger + [] == w.disk.ledger;
  }

  lemma {:induction false} PublishingGrows(w: World, view: View, todo: seq<string>, round: nat, run: Run)
    requires run == PublishRun(w.disk.requests, view, todo, round) && run.ok
    ensures Grown(w, DoAll(w, run.effects), Appended(run.effects))
    decreases |todo|
  {
    if todo == [] {
      NothingGrown(w);
    } else {
      var r := RequestFor(view, todo[0], round);
      var first, rest := PublicationEffects(w.disk.requests, r),
          PublishRun(w.disk.requests[r.id := r], view, todo[1..], round);
      OnePublished(w, r);
      PublishingGrows(DoAll(w, first), view, todo[1..], round, rest);
      DoAllConcat(w, first, rest.effects);
      AppendedPublication(w.disk.requests, r, rest.effects);
      GrownFirst(w, DoAll(w, first), DoAll(w, run.effects), r, Appended(rest.effects));
    }
  }

  lemma OnePublished(w: World, r: Request)
    requires Publishable(w.disk.requests, r)
    ensures DoAll(w, PublicationEffects(w.disk.requests, r))
         == w.(disk := w.disk.(ledger := w.disk.ledger + [PublicationEvent(r)],
                               requests := w.disk.requests[r.id := r]))
  {
    var effects := PublicationEffects(w.disk.requests, r);
    var last := Append(PublicationEvent(r));
    assert [last][1..] == [];
    if r.id in w.disk.requests {
      assert w.disk.requests == w.disk.requests[r.id := r] && effects == [last];
      assert DoAll(w, effects) == Do(w, last);
    } else {
      var w1 := Do(w, WriteRequest(r));
      assert effects[1..] == [last];
      assert DoAll(w1, [last]) == Do(w1, last);
    }
  }

  /** The state after a round is done with. */
  ghost predicate RoundLeft(s: RoundState, s': RoundState, round: nat, marks: map<int, bool>) {
    && s'.round == round + 1 && s'.pendingRound == 0 && s'.pendingPlan == []
    && s'.maxWorkers == s.maxWorkers && s'.publishedRounds == marks[round := true]
  }

  lemma SaveStateWorld(w: World, s: RoundState, view: View)
    requires SavableView(view)
    ensures DoAll(w, [SaveState(s)] + SaveView(view).effects)
         == w.(disk := w.disk.(state := Some(s), registry := Some(view)))
  {
    assert ([SaveState(s)] + SaveView(view).effects)[1..] == SaveView(view).effects;
    SavedWorld(Do(w, SaveState(s)), view);
  }

  /** The end of a round plan: the round is left if the whole pending plan is published, and the registry says what the
      ledger records. */
  lemma FinishedWorld(w: World, view: View, s: RoundState, round: nat, run: Run)
    requires Inv(w) && Faithful(view, w.disk.ledger) && run == FinishRun(w.disk.ledger, view, s, round)
    ensures var w' := DoAll(w, run.effects);
            && w'.disk.registry.Some? && Mirrors(w'.disk.registry.value, w'.disk.ledger)
            && w' == w.(disk := w.disk.(registry := w'.disk.registry, state := w'.disk.state))
            && if forall f | f in s.pendingPlan :: PublishedIn(w.disk.ledger, f, round)
               then w'.disk.state.Some? && RoundLeft(s, w'.disk.state.value, round, s.publishedRounds)
               else w'.disk.state == w.disk.state
  {
    var es := w.disk.ledger;
    var saved := Reconcile(view, es);
    ReconcileMirrors(view, es);
    MirrorIsSavable(saved, es);
    SaveStateWorld(w, Advanced(s, s.publishedRounds, round), saved);
    SavedWorld(w, saved);
    forall f ensures RequestId(f, round) in PublishedIds(es, round) <==> PublishedIn(es, f, round) {
      PublishedInExactly(es, f, round);
    }
  }

  /** The directory after publishing todo and finishing the round of s. */
  ghost predicate DispatchedInFull(w: World, w': World, es: Events, view: View, s: RoundState, todo: seq<string>,
                                   round: nat)
  {
    && PublishesEach(view, todo, round, es) && EnvelopesAdded(w.disk.requests, w'.disk.requests, es)
    && w'.disk.registry.Some? && Mirrors(w'.disk.registry.value, w'.disk.ledger)
    && w' == w.(disk := w.disk.(ledger := w.disk.ledger + es, requests := w'.disk.requests,
                                registry := w'.disk.registry, state := w'.disk.state))
    && if forall f | f in s.pendingPlan :: PublishedIn(w'.disk.ledger, f, round)
       then w'.disk.state.Some? && RoundLeft(s, w'.disk.state.value, round, s.publishedRounds)
       else w'.disk.state == w.disk.state
  }

  lemma DispatchedWorld(w: World, view: View, s: RoundState, todo: seq<string>, round: nat, run: Run)
    requires Inv(w) && round >= 1 && Backed(w.disk, todo, round) && Faithful(view, w.disk.ledger)
    requires forall f | f in todo :: Ready(w.disk.ledger, view, f, round)
    requires run == DispatchRun(w.disk, view, s, todo, round) && run.ok
    ensures DispatchedInFull(w, DoAll(w, run.effects), Appended(run.effects), view, s, todo, round)
  {
    var published := PublishRun(w.disk.requests, view, todo, round);
    var w1 := DoAll(w, published.effects);
    PublishAllowed(w, view, todo, round);
    PublicationsExactly(w.disk.requests, view, todo, round);
    PublishingGrows(w, view, todo, round, published);
    var finish := FinishRun(w1.disk.ledger, view, s, round);
    FinishedWorld(w1, view, s, round, finish);
    DoAllConcat(w, published.effects, finish.effects);
    FinishAppendsNothing(w1.disk.ledger, view, s, round);
    AppendedConcat(published.effects, finish.effects);
    assert Appended(published.effects) + [] == Appended(published.effects);
  }

  lemma FinishAppendsNothing(es: Events, view: View, s: RoundState, round: nat)
    ensures Appended(FinishRun(es, view, s, round).effects) == []
  {
    NothingAppendedBy(FinishRun(es, view, s, round).effects);
  }

  /** What a completed round plan has done: published todo; left the round, if nothing was to be done or if the whole
      plan the round was started with is published, and otherwise kept that plan pending; saved the registry. */
  ghost predicate RoundCompleted(w: World, w': World, es: Events, view: View, s0: RoundState, round: nat,
                                 plan: seq<string>, todo: seq<string>) {
    && PublishesEach(view, todo, round, es) && EnvelopesAdded(w.disk.requests, w'.disk.requests, es)
    && w'.disk.registry.Some? && Mirrors(w'.disk.registry.value, w'.disk.ledger)
    && w'.disk == w.disk.(ledger := w.disk.ledger + es, requests := w'.disk.requests, registry := w'.disk.registry,
                          state := w'.disk.state)
    && w'.disk.state.Some?
    && var started := if Pending(s0, round) then s0.pendingPlan else plan;
       if todo == [] || forall f | f in started :: PublishedIn(w'.disk.ledger, f, round)
       then RoundLeft(s0, w'.disk.state.value, round, Marks(w.disk.ledger, s0))
       else w'.disk.state == Some(s0)
  }

  lemma NothingToDo(w: World, view: View, s0: RoundState, round: nat, plan: seq<string>, run: Run)
    requires Inv(w) && Mirrors(view, w.disk.ledger)
    requires var marks := Marks(w.disk.ledger, s0);
             run == After([SaveState(Advanced(s0.(round := round, publishedRounds := marks), marks, round))],
                          SaveView(view))
    ensures RoundCompleted(w, DoAll(w, run.effects), Appended(run.effects), view, s0, round, plan, [])
  {
    var marks := Marks(w.disk.ledger, s0);
    MirrorIsSavable(view, w.disk.ledger);
    SaveStateWorld(w, Advanced(s0.(round := round, publishedRounds := marks), marks, round), view);
    NothingAppendedBy(run.effects);
    assert w.disk.ledger + [] == w.disk.ledger;
  }

  lemma PendingCompletes(w: World, view: View, s0: RoundState, round: nat, plan: seq<string>, todo: seq<string>,
                         here: RoundState, run: Run)
    requires Inv(w) && w.disk.state == Some(s0) && Mirrors(view, w.disk.ledger) && Pending(s0, round)
    requires round >= s0.round && plan == ValidActive(view, s0.pendingPlan)
    requires todo == Unpublished(w.disk.ledger, plan, round) && todo != []
    requires here == s0.(round := round, publishedRounds := Marks(w.disk.ledger, s0))
    requires run == DispatchRun(w.disk, view, here, todo, round) && run.ok
    ensures RoundCompleted(w, DoAll(w, run.effects), Appended(run.effects), view, s0, round, plan, todo)
  {
    PendingTodo(w.disk.ledger, view, s0, round);
    MirrorIsFaithful(view, w.disk.ledger);
    DispatchedWorld(w, view, here, todo, round, run);
  }

  lemma FreshCompletes(w: World, view: View, s0: RoundState, round: nat, plan: seq<string>, todo: seq<string>,
                       workers: nat, run: Run)
    requires Inv(w) && w.disk.state == Some(s0) && Startable(w.disk.ledger, view, s0, round, plan, workers)
    requires !Pending(s0, round) && todo == Unpublished(w.disk.ledger, plan, round) && todo != []
    requires var recorded := RecordedState(w.disk.ledger, s0, round, plan);
             run == After([RecordPlan(recorded, workers)], DispatchRun(w.disk, view, recorded, todo, round))
    requires run.ok
    ensures RoundCompleted(w, DoAll(w, run.effects), Appended(run.effects), view, s0, round, plan, todo)
  {
    var recorded := RecordedState(w.disk.ledger, s0, round, plan);
    var dispatch := DispatchRun(w.disk, view, recorded, todo, round);
    var w1 := Do(w, RecordPlan(recorded, workers));
    FreshDispatched(w, view, s0, round, plan, todo, workers, dispatch, w1);
    assert run.effects[1..] == dispatch.effects;
    assert [] + Appended(dispatch.effects) == Appended(dispatch.effects);
    AllPublishedNow(w.disk.ledger, Appended(dispatch.effects), view, plan, todo, round);
  }

  lemma FreshDispatched(w: World, view: View, s0: RoundState, round: nat, plan: seq<string>, todo: seq<string>,
                        workers: nat, dispatch: Run, w1: World)
    requires Inv(w) && w.disk.state == Some(s0) && Startable(w.disk.ledger, view, s0, round, plan, workers)
    requires !Pending(s0, round) && todo == Unpublished(w.disk.ledger, plan, round) && todo != []
    requires var recorded := RecordedState(w.disk.ledger, s0, round, plan);
             && dispatch == DispatchRun(w.disk, view, recorded, todo, round) && dispatch.ok
             && w1 == Do(w, RecordPlan(recorded, workers))
    ensures DispatchedInFull(w1, DoAll(w1, dispatch.effects), Appended(dispatch.effects), view,
                             RecordedState(w.disk.ledger, s0, round, plan), todo, round)
  {
    var es, recorded := w.disk.ledger, RecordedState(w.disk.ledger, s0, round, plan);
    assert todo[0] in todo && todo[0] in plan;
    UnpublishedDistinct(es, plan, round);
    TodoIsReady(es, view, plan, round);
    RecordAllowed(w, view, s0, round, plan, workers);
    AllowedKeepsInv(w, RecordPlan(recorded, workers));
    MirrorIsFaithful(view, es);
    assert dispatch == DispatchRun(w1.disk, view, recorded, todo, round);
    DispatchedWorld(w1, view, recorded, todo, round, dispatch);
  }

  /** What is unpublished of a plan, published, makes the plan published. */
  lemma AllPublishedNow(es: Events, more: Events, view: View, plan: seq<string>, todo: seq<string>, round: nat)
    requires Lawful(es) && todo == Unpublished(es, plan, round) && PublishesEach(view, todo, round, more)
    ensures forall f | f in plan :: PublishedIn(es + more, f, round)
  {
    forall f | f in plan ensures PublishedIn(es + more, f, round) {
      if f in todo {
        var i :| 0 <= i < |todo| && todo[i] == f;
        assert more[i] in es + more;
        assert IsPublication(es + more, more[i]);
      } else {
        PublishedInExactly(es, f, round);
        var e :| IsPublication(es, e) && e.round == round && e.family == f;
        assert IsPublication(es + more, e);
      }
    }
  }

  lemma StartCompletes(w: World, view: View, s0: RoundState, workers: nat, round: nat, plan: seq<string>,
                       todo: seq<string>, run: Run)
    requires Inv(w) && w.disk.state == Some(s0) && Mirrors(view, w.disk.ledger)
    requires round == CurrentRound(w.disk.ledger, s0) && plan == CurrentPlan(view, s0, round, workers)
    requires todo == Unpublished(w.disk.ledger, plan, round)
    requires run == StartRound(w.disk, view, s0, workers) && run.ok
    ensures RoundCompleted(w, DoAll(w, run.effects), Appended(run.effects), view, s0, round, plan, todo)
  {
    CurrentIsStartable(w.disk.ledger, view, s0, workers);
    if todo == [] {
      NothingToDo(w, view, s0, round, plan, run);
    } else if Pending(s0, round) {
      var here := s0.(round := round, publishedRounds := Marks(w.disk.ledger, s0));
      PendingCompletes(w, view, s0, round, plan, todo, here, run);
    } else {
      FreshCompletes(w, view, s0, round, plan, todo, workers, run);
    }
  }

  // ---- Its round, its plan and what is left to do ----

  /** some lists names of all, in the order they have there. */
  ghost predicate KeepsOrder(some: seq<string>, all: seq<string>) {
    some == [] || (all != [] && (if some[0] == all[0] then KeepsOrder(some[1..], all[1..])
                                 else KeepsOrder(some, all[1..])))
  }

  lemma {:induction false} FilterKeepsOrder(view: View, es: Events, all: seq<string>, round: nat)
    ensures KeepsOrder(ValidActive(view, all), all) && KeepsOrder(Unpublished(es, all, round), all)
  {
    if all != [] {
      FilterKeepsOrder(view, es, all[1..], round);
      LaterKeepsOrder(ValidActive(view, all[1..]), all);
      LaterKeepsOrder(Unpublished(es, all[1..], round), all);
    }
  }

  lemma {:induction false} LaterKeepsOrder(some: seq<string>, all: seq<string>)
    requires all != [] && KeepsOrder(some, all[1..])
    ensures KeepsOrder(some, all)
    decreases |all|, 0
  {
    if some != [] && some[0] == all[0] {
      assert some == [some[0]] + some[1..];
      TailKeepsOrder(some, all[1..]);
    }
  }

  lemma {:induction false} TailKeepsOrder(some: seq<string>, all: seq<string>)
    requires some != [] && KeepsOrder(some, all)
    ensures KeepsOrder(some[1..], all)
    decreases |all|, 1
  {
    if some[0] == all[0] {
      LaterKeepsOrder(some[1..], all);
    } else {
      TailKeepsOrder(some, all[1..]);
      LaterKeepsOrder(some[1..], all);
    }
  }

  /** A round plan works on the first round, from the state's on, that is not complete; on the families of the pending
      plan that are still active, or else on the fair plan; and has yet to publish those without a request in it. */
  lemma WorkOfRound(w: World, workers: nat, view: View, s0: RoundState, round: nat, plan: seq<string>,
                    todo: seq<string>)
    requires Inv(w) && workers >= 1 && view == LoadedView(w.disk) && s0 == StartState(w.disk, workers)
    requires round == CurrentRound(w.disk.ledger, s0) && plan == CurrentPlan(view, s0, round, workers)
    requires todo == Unpublished(w.disk.ledger, plan, round)
    ensures s0.round <= round && !Marked(Marks(w.disk.ledger, s0), round)
    ensures forall q | s0.round <= q < round :: Marked(Marks(w.disk.ledger, s0), q)
    ensures if s0.pendingRound == round && s0.pendingPlan != []
            then KeepsOrder(plan, s0.pendingPlan)
                 && forall f :: f in plan <==> f in s0.pendingPlan && f in view && view[f].status == Active
            else LeastPlan(view, plan, workers)
    ensures KeepsOrder(todo, plan)
    ensures forall f :: f in todo <==> f in plan && !PublishedIn(w.disk.ledger, f, round)
  {
    LoadedViewMirrors(w);
    StartOk(w, workers);
    MirrorIsSane(view, w.disk.ledger);
    ScratchPlansAlike(view, workers);
    PlanIsLeast(view, workers);
    FilterKeepsOrder(view, w.disk.ledger, s0.pendingPlan, round);
    FilterKeepsOrder(view, w.disk.ledger, plan, round);
    var es := w.disk.ledger;
    forall f ensures RequestId(f, round) in PublishedIds(es, round) <==> PublishedIn(es, f, round) {
      PublishedInExactly(es, f, round);
    }
  }

  /** A round plan that completes publishes what is left to do of its plan, in that order; with nothing left unpublished
      of the plan the round was started with, it leaves the round; it saves a registry that says what the ledger
      records; and it changes nothing else. */
  lemma RoundPlanCompletes(w: World, workers: nat, run: Run, view: View, s0: RoundState, round: nat, plan: seq<string>,
                           todo: seq<string>)
    requires Inv(w) && run == CommandRun(w.disk, PlanRound(workers)) && run.ok
    requires view == LoadedView(w.disk) && s0 == StartState(w.disk, workers) && round == CurrentRound(w.disk.ledger, s0)
    requires plan == CurrentPlan(view, s0, round, workers) && todo == Unpublished(w.disk.ledger, plan, round)
    ensures RoundCompleted(w, DoAll(w, run.effects), Appended(run.effects), view, s0, round, plan, todo)
  {
    PlanCommand(w.disk, workers);
    LoadedViewMirrors(w);
    LawfulRounds(w.disk.ledger);
    StartOk(w, workers);
    if w.disk.state.Some? {
      StartCompletes(w, view, s0, workers, round, plan, todo, run);
    } else {
      var save := SaveState(s0);
      AllowedKeepsInv(w, save);
      var rest := StartRound(w.disk.(state := Some(s0)), view, s0, workers);
      StartCompletes(Do(w, save), view, s0, workers, round, plan, todo, rest);
      assert run.effects == [save] + rest.effects && run.effects[1..] == rest.effects;
      assert [] + Appended(rest.effects) == Appended(rest.effects);
    }
  }

  // ---- The registry comes last ----

  /** The run ends by saving the registry. */
  predicate EndsWithRegistry(run: Run) { run.effects != [] && run.effects[|run.effects| - 1].SaveRegistry? }

  lemma AfterEnds(first: seq<Effect>, rest: Run)
    requires EndsWithRegistry(rest)
    ensures EndsWithRegistry(After(first, rest))
  {
  }

  lemma DispatchEnds(d: Disk, view: View, s: RoundState, todo: seq<string>, round: nat, run: Run)
    requires run == DispatchRun(d, view, s, todo, round) && run.ok
    ensures EndsWithRegistry(run)
  {
    var published := PublishRun(d.requests, view, todo, round);
    AfterEnds(published.effects, FinishRun(d.ledger + Appended(published.effects), view, s, round));
  }

  lemma RoundEnds(d: Disk, view: View, s: RoundState, round: nat, plan: seq<string>, workers: nat, run: Run)
    requires run == RoundRun(d, view, s, round, plan, workers) && run.ok
    ensures EndsWithRegistry(run)
  {
    var here, todo := s.(round := round, publishedRounds := Marks(d.ledger, s)), Unpublished(d.ledger, plan, round);
    if todo != [] {
      if Pending(s, round) {
        DispatchEnds(d, view, here, todo, round, run);
      } else {
        var recorded := here.(pendingRound := round, pendingPlan := plan);
        DispatchEnds(d, view, recorded, todo, round, DispatchRun(d, view, recorded, todo, round));
      }
    }
  }

  /** A round plan that completes saves the registry last, so that no view on disk is ahead of what else it does. */
  lemma PlanEndsWithRegistry(d: Disk, workers: nat, run: Run)
    requires run == CommandRun(d, PlanRound(workers)) && run.ok
    ensures EndsWithRegistry(run)
  {
    PlanCommand(d, workers);
    var s := StartState(d, workers);
    var d' := if d.state.Some? then d else d.(state := Some(s));
    var view, round := LoadedView(d), CurrentRound(d.ledger, s);
    var plan := CurrentPlan(view, s, round, workers);
    RoundEnds(d', view, s, round, plan, workers, RoundRun(d', view, s, round, plan, workers));
  }
}
