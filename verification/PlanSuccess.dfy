/** When running a round plan again succeeds, and that after a crash it does. */
module PlanSuccess {
  import opened Text
  import opened RequestIds
  import opened Registries
  import opened CampaignLedger
  import opened LedgerLaws
  import opened Dispatch
  import opened Campaigns
  import opened CampaignInvariant
  import opened CampaignSafety
  import opened PlanningSafety
  import opened PlanRetry
  import opened PlanPursuit

  // ---- When the publication loop goes through ----

  /** The family's request can be published: it is valid, and no different envelope is in its place. */
  predicate Sends(requests: map<string, Request>, view: View, f: string, round: nat) {
    f in view && !Blank(view[f].mechanism) && Publishable(requests, RequestFor(view, f, round))
  }

  /** The same, read off the ledger. */
  predicate Sendable(requests: map<string, Request>, es: Events, f: string, round: nat) {
    !Blank(MechanismOf(es, f)) && Publishable(requests, Request(RequestId(f, round), round, f, MechanismOf(es, f)))
  }

  lemma SendsElsewhere(requests: map<string, Request>, view: View, f: string, g: string, round: nat)
    requires f in view && f != g
    ensures Sends(requests[RequestId(f, round) := RequestFor(view, f, round)], view, g, round) <==>
            Sends(requests, view, g, round)
  {
    if RequestId(f, round) == RequestId(g, round) {
      RequestIdInjective(f, round, g, round);
    }
  }

  /** No publication stands in the way of another. */
  lemma {:induction false} PublishRunSucceeds(requests: map<string, Request>, view: View, todo: seq<string>, round: nat)
    requires Distinct(todo)
    ensures PublishRun(requests, view, todo, round).ok <==> forall f | f in todo :: Sends(requests, view, f, round)
    decreases |todo|
  {
    if todo != [] {
      var f, rest := todo[0], todo[1..];
      assert todo == [f] + rest;
      if Sends(requests, view, f, round) {
        var requests' := requests[RequestId(f, round) := RequestFor(view, f, round)];
        PublishRunSucceeds(requests', view, rest, round);
        forall g | g in rest ensures Sends(requests', view, g, round) <==> Sends(requests, view, g, round) {
          SendsElsewhere(requests, view, f, g, round);
        }
      }
    }
  }

  lemma SendableIsSends(requests: map<string, Request>, view: View, es: Events, f: string, round: nat)
    requires Mirrors(view, es) && f in view
    ensures Sends(requests, view, f, round) <==> Sendable(requests, es, f, round)
  {
  }

  // ---- The retry ----

  /** A plan is pending on disk, all its families may still be worked on, and not all of it is published. */
  ghost predicate Unfinished(d: Disk, s: RoundState) {
    && d.state == Some(s) && Pending(s, s.round) && s.round >= 1
    && (forall f | f in s.pendingPlan :: Workable(d, f))
    && !AllPublished(d.ledger, s.pendingPlan, s.round)
  }

  lemma UnfinishedRound(w: World, s: RoundState, view: View)
    requires Inv(w) && Unfinished(w.disk, s) && view == LoadedView(w.disk)
    ensures CurrentRound(w.disk.ledger, s) == s.round
    ensures ValidActive(view, s.pendingPlan) == s.pendingPlan
    ensures view != map[]
  {
    assert !Marked(Marks(w.disk.ledger, s), s.round);
    PlanStillActive(w, view, s.pendingPlan);
    assert s.pendingPlan[0] in s.pendingPlan;
  }

  lemma SomeUnpublished(es: Events, plan: seq<string>, round: nat)
    requires !AllPublished(es, plan, round)
    ensures Unpublished(es, plan, round) != []
  {
    var f :| f in plan && RequestId(f, round) !in PublishedIds(es, round);
    assert f in Unpublished(es, plan, round);
  }

  lemma FinishSucceeds(w: World, view: View, s: RoundState, round: nat)
    requires Inv(w) && Faithful(view, w.disk.ledger)
    ensures FinishRun(w.disk.ledger, view, s, round).ok
  {
    ReconcileMirrors(view, w.disk.ledger);
    MirrorIsFaithful(Reconcile(view, w.disk.ledger), w.disk.ledger);
    SaveAllowed(w, Reconcile(view, w.disk.ledger));
  }

  lemma DispatchSucceeds(w: World, view: View, s: RoundState, todo: seq<string>, round: nat)
    requires Inv(w) && round >= 1 && Backed(w.disk, todo, round) && Faithful(view, w.disk.ledger)
    requires forall f | f in todo :: Ready(w.disk.ledger, view, f, round)
    ensures DispatchRun(w.disk, view, s, todo, round).ok <==>
            forall f | f in todo :: Sends(w.disk.requests, view, f, round)
  {
    PublishRunSucceeds(w.disk.requests, view, todo, round);
    PublishAllowed(w, view, todo, round);
    var published := PublishRun(w.disk.requests, view, todo, round);
    if published.ok {
      var w1 := DoAll(w, published.effects);
      LedgerGrows(w, published.effects);
      FinishSucceeds(w1, view, s, round);
    }
  }

  /** With an unfinished plan on disk, a round plan succeeds if and only if every unpublished family of the
      plan has a usable mechanism and no different envelope under its request's name, as reopening the
      family after its envelope was written would leave. */
  lemma RetrySucceedsExactly(w: World, s: RoundState, workers: nat)
    requires Inv(w) && Unfinished(w.disk, s) && workers >= 1
    ensures PlanRun(w.disk, workers).ok <==>
            forall f | f in Unpublished(w.disk.ledger, s.pendingPlan, s.round) ::
                Sendable(w.disk.requests, w.disk.ledger, f, s.round)
  {
    var es, view := w.disk.ledger, LoadedView(w.disk);
    LoadedViewMirrors(w);
    MirrorIsFaithful(view, es);
    UnfinishedRound(w, s, view);
    PendingTodo(es, view, s, s.round);
    var todo := Unpublished(es, s.pendingPlan, s.round);
    SomeUnpublished(es, s.pendingPlan, s.round);
    RetryIsDispatch(w, s, view, workers, todo);
    DispatchSucceeds(w, view, s.(publishedRounds := Marks(es, s)), todo, s.round);
    forall f | f in todo
      ensures Sends(w.disk.requests, view, f, s.round) <==> Sendable(w.disk.requests, es, f, s.round)
    {
      SendableIsSends(w.disk.requests, view, es, f, s.round);
    }
  }

  lemma RetryIsDispatch(w: World, s: RoundState, view: View, workers: nat, todo: seq<string>)
    requires w.disk.state == Some(s) && Pending(s, s.round) && s.round >= 1 && workers >= 1
    requires view == LoadedView(w.disk) && view != map[]
    requires CurrentRound(w.disk.ledger, s) == s.round && ValidActive(view, s.pendingPlan) == s.pendingPlan
    requires todo == Unpublished(w.disk.ledger, s.pendingPlan, s.round) && todo != []
    ensures PlanRun(w.disk, workers)
         == DispatchRun(w.disk, view, s.(publishedRounds := Marks(w.disk.ledger, s)), todo, s.round)
  {
    var here := s.(round := s.round, publishedRounds := Marks(w.disk.ledger, s));
    assert here == s.(publishedRounds := Marks(w.disk.ledger, s));
    assert PlanRun(w.disk, workers) == StartRound(w.disk, view, s, workers);
    assert CurrentPlan(view, s, s.round, workers) == s.pendingPlan;
  }

  // ---- After a crash ----

  lemma {:induction false} PublishRunEnvelopes(requests: map<string, Request>, view: View, todo: seq<string>,
                                               round: nat, r: Request)
    requires WriteRequest(r) in PublishRun(requests, view, todo, round).effects
    ensures exists f | f in todo :: f in view && r == RequestFor(view, f, round)
    decreases |todo|
  {
    var request := RequestFor(view, todo[0], round);
    var rest := PublishRun(requests[request.id := request], view, todo[1..], round).effects;
    assert todo[0] in todo;
    if WriteRequest(r) in rest {
      PublishRunEnvelopes(requests[request.id := request], view, todo[1..], round, r);
    } else {
      assert WriteRequest(r) in PublicationEffects(requests, request);
    }
  }

  /** The envelopes behind a recorded plan: all of its requests can be published, and no others are written. */
  ghost predicate Enveloped(d: Disk, view: View, effects: seq<Effect>, plan: seq<string>, round: nat) {
    && (forall f | f in Unpublished(d.ledger, plan, round) :: Sends(d.requests, view, f, round))
    && (forall r | WriteRequest(r) in effects :: exists f | f in plan :: f in view && r == RequestFor(view, f, round))
  }

  lemma DispatchEnvelopes(d: Disk, view: View, s: RoundState, plan: seq<string>, round: nat)
    requires Distinct(plan)
    requires DispatchRun(d, view, s, Unpublished(d.ledger, plan, round), round).ok
    ensures Enveloped(d, view, DispatchRun(d, view, s, Unpublished(d.ledger, plan, round), round).effects, plan, round)
  {
    var todo := Unpublished(d.ledger, plan, round);
    UnpublishedDistinct(d.ledger, plan, round);
    PublishRunSucceeds(d.requests, view, todo, round);
    var published := PublishRun(d.requests, view, todo, round).effects;
    var finish := FinishRun(d.ledger + Appended(published), view, s, round).effects;
    forall r | WriteRequest(r) in published + finish
      ensures exists f | f in plan :: f in view && r == RequestFor(view, f, round)
    {
      assert WriteRequest(r) !in finish;
      PublishRunEnvelopes(d.requests, view, todo, round, r);
    }
  }

  lemma RoundEnvelopes(d: Disk, view: View, s0: RoundState, round: nat, plan: seq<string>, workers: nat, s: RoundState)
    requires Distinct(plan) && RoundRun(d, view, s0, round, plan, workers).ok
    requires RecordPlan(s, workers) in RoundRun(d, view, s0, round, plan, workers).effects
    ensures s.round == round && s.pendingPlan == plan
    ensures Enveloped(d, view, RoundRun(d, view, s0, round, plan, workers).effects, plan, round)
  {
    RoundWrites(d, view, s0, round, plan, workers);
    var recorded := RecordedState(d.ledger, s0, round, plan);
    assert s == recorded;
    DispatchEnvelopes(d, view, recorded, plan, round);
  }

  lemma StartEnvelopes(w: World, view: View, s0: RoundState, workers: nat, s: RoundState, run: Run)
    requires Inv(w) && w.disk.state == Some(s0) && Mirrors(view, w.disk.ledger)
    requires s0.round >= 1 && run == StartRound(w.disk, view, s0, workers)
    requires run.ok && RecordPlan(s, workers) in run.effects
    ensures s.round >= 1 && Enveloped(w.disk, view, run.effects, s.pendingPlan, s.round)
  {
    var round := CurrentRound(w.disk.ledger, s0);
    var plan := CurrentPlan(view, s0, round, workers);
    CurrentIsStartable(w.disk.ledger, view, s0, workers);
    RoundWrites(w.disk, view, s0, round, plan, workers);
    RoundEnvelopes(w.disk, view, s0, round, plan, workers, s);
  }

  lemma PlanEnvelopes(w: World, workers: nat, s: RoundState, run: Run, view: View)
    requires Inv(w) && run == PlanRun(w.disk, workers) && view == LoadedView(w.disk)
    requires run.ok && RecordPlan(s, workers) in run.effects
    ensures s.round >= 1 && Enveloped(w.disk, view, run.effects, s.pendingPlan, s.round)
  {
    LoadedViewMirrors(w);
    if w.disk.state.Some? {
      StartEnvelopes(w, view, w.disk.state.value, workers, s, run);
    } else {
      var save := SaveState(Recovered(w.disk.ledger, workers));
      RecoveredIsOk(w.disk.ledger, workers);
      AllowedKeepsInv(w, save);
      StartEnvelopes(Do(w, save), view, save.state, workers, s,
                     StartRound(Do(w, save).disk, view, save.state, workers));
    }
  }

  /** An envelope on disk was there before or is among the writes. */
  lemma {:induction false} RequestsAfter(w: World, effects: seq<Effect>, id: string)
    requires id in DoAll(w, effects).disk.requests
    ensures var r := DoAll(w, effects).disk.requests[id];
            || (id in w.disk.requests && r == w.disk.requests[id])
            || (WriteRequest(r) in effects && r.id == id)
    decreases |effects|
  {
    if effects != [] {
      RequestsAfter(Do(w, effects[0]), effects[1..], id);
    }
  }

  lemma {:induction false} PublicationsKeepMechanism(es: Events, more: Events, f: string)
    requires forall e | e in more :: e.RequestPublished?
    ensures MechanismOf(es + more, f) == MechanismOf(es, f)
  {
    if more == [] {
      assert es + more == es;
    } else {
      PublicationsKeepMechanism(es, Front(more), f);
      assert Front(es + more) == es + Front(more) && Last(es + more) == Last(more);
      assert Last(more) in more;
    }
  }

  /** What an earlier, successful invocation would have sent, its successor can send. */
  lemma StillSendable(w: World, effects: seq<Effect>, view: View, f: string, plan: seq<string>, round: nat)
    requires Mirrors(view, w.disk.ledger) && f in view
    requires Sends(w.disk.requests, view, f, round)
    requires forall r | WriteRequest(r) in effects ::
              exists g | g in plan :: g in view && r == RequestFor(view, g, round)
    ensures Sendable(DoAll(w, effects).disk.requests, w.disk.ledger, f, round)
  {
    var id, requests := RequestId(f, round), DoAll(w, effects).disk.requests;
    if id in requests {
      RequestsAfter(w, effects, id);
      if WriteRequest(requests[id]) in effects && requests[id].id == id {
        var g :| g in plan && g in view && requests[id] == RequestFor(view, g, round);
        RequestIdInjective(f, round, g, round);
      }
    }
    SendableIsSends(requests, view, w.disk.ledger, f, round);
  }

  predicate PartlyPublished(es: Events, s: RoundState) {
    s.round >= 1 && !AllPublished(es, s.pendingPlan, s.round)
  }

  /** A round plan that would have succeeded stops anywhere after recording its plan and before all of it is
      published; run again, with whatever max-workers, it succeeds and the round comes to exactly that plan. */
  lemma RetryAfterCrashSucceeds(w: World, first: nat, run: Run, s: RoundState, n: nat, w1: World, second: nat,
                                retry: Run)
    requires Inv(w) && run == PlanRun(w.disk, first) && run.ok
    requires n <= |run.effects| && w1 == DoAll(w, run.effects[..n]) && RecordPlan(s, first) in run.effects[..n]
    requires PartlyPublished(w1.disk.ledger, s) && second >= 1 && retry == PlanRun(w1.disk, second)
    ensures retry.ok
    ensures PublishedIds(DoAll(w1, retry.effects).disk.ledger, s.round) == Ids(s.pendingPlan, s.round)
  {
    var prefix := run.effects[..n];
    assert forall e | e in prefix :: e in run.effects;
    FirstIsPursued(w, first, run.effects, s, n);
    var s1 := w1.disk.state.value;
    assert Unfinished(w1.disk, s1);
    PlanWrites(w, first);
    AppendedPublications(prefix);
    CrashedPlanSendable(w, first, run, n, w1, s);
    RetrySucceedsExactly(w1, s1, second);
    PursuitEnds(w1, s.pendingPlan, s.round, second);
  }

  lemma {:induction false} AppendedPublications(effects: seq<Effect>)
    requires forall e | e in effects && e.Append? :: e.event.RequestPublished?
    ensures forall e | e in Appended(effects) :: e.RequestPublished?
    decreases |effects|
  {
    if effects != [] {
      assert effects[0] in effects;
      AppendedPublications(effects[1..]);
    }
  }

  lemma CrashedPlanSendable(w: World, first: nat, run: Run, n: nat, w1: World, s: RoundState)
    requires Inv(w) && run == PlanRun(w.disk, first) && run.ok
    requires n <= |run.effects| && w1 == DoAll(w, run.effects[..n])
    requires RecordPlan(s, first) in run.effects[..n] && s.round >= 1
    requires forall e | e in Appended(run.effects[..n]) :: e.RequestPublished?
    ensures forall f | f in Unpublished(w1.disk.ledger, s.pendingPlan, s.round) ::
              Sendable(w1.disk.requests, w1.disk.ledger, f, s.round)
  {
    var prefix, view := run.effects[..n], LoadedView(w.disk);
    assert forall e | e in prefix :: e in run.effects;
    LedgerGrows(w, prefix);
    LoadedViewMirrors(w);
    PlanEnvelopes(w, first, s, run, view);
    forall f | f in Unpublished(w1.disk.ledger, s.pendingPlan, s.round)
      ensures Sendable(w1.disk.requests, w1.disk.ledger, f, s.round)
    {
      assert f in Unpublished(w.disk.ledger, s.pendingPlan, s.round);
      StillSendable(w, prefix, view, f, s.pendingPlan, s.round);
      PublicationsKeepMechanism(w.disk.ledger, Appended(prefix), f);
    }
  }
}
