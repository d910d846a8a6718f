/** A round plan that was cut short is finished, exactly, by running the command again. */
module PlanRetry {
  import opened Text
  import opened RequestIds
  import opened Registries
  import opened CampaignLedger
  import opened LedgerLaws
  import opened Campaigns
  import opened CampaignInvariant
  import opened CampaignSafety
  import opened PlanningSafety

  // ---- What a round plan writes ----

  /** Writes that neither record a plan nor append anything but publications. */
  ghost predicate OnlyPublishes(effects: seq<Effect>) {
    forall e | e in effects :: !e.RecordPlan? && (e.Append? ==> e.event.RequestPublished?)
  }

  lemma {:induction false} PublishRunPublishes(requests: map<string, Request>, view: View, todo: seq<string>,
                                               round: nat)
    ensures OnlyPublishes(PublishRun(requests, view, todo, round).effects)
    decreases |todo|
  {
    if todo != [] && todo[0] in view && !Blank(view[todo[0]].mechanism)
        && Publishable(requests, RequestFor(view, todo[0], round)) {
      var r := RequestFor(view, todo[0], round);
      PublishRunPublishes(requests[r.id := r], view, todo[1..], round);
      var rest := PublishRun(requests[r.id := r], view, todo[1..], round).effects;
      assert forall e | e in PublicationEffects(requests, r) + rest ::
          e in PublicationEffects(requests, r) || e in rest;
    }
  }

  lemma DispatchRunPublishes(d: Disk, view: View, s: RoundState, todo: seq<string>, round: nat)
    ensures OnlyPublishes(DispatchRun(d, view, s, todo, round).effects)
  {
    PublishRunPublishes(d.requests, view, todo, round);
  }

  /** A round plan records at most its fresh plan, bounded by its own workers, and otherwise only publishes. */
  lemma RoundWrites(d: Disk, view: View, s: RoundState, round: nat, plan: seq<string>, workers: nat)
    ensures var effects := RoundRun(d, view, s, round, plan, workers).effects;
            && (forall e | e in effects && e.Append? :: e.event.RequestPublished?)
            && forall e | e in effects && e.RecordPlan? ::
                 !Pending(s, round) && e == RecordPlan(RecordedState(d.ledger, s, round, plan), workers)
  {
    var here := s.(round := round, publishedRounds := Marks(d.ledger, s));
    var todo := Unpublished(d.ledger, plan, round);
    DispatchRunPublishes(d, view, here, todo, round);
    DispatchRunPublishes(d, view, RecordedState(d.ledger, s, round, plan), todo, round);
  }

  lemma StartWrites(w: World, view: View, s: RoundState, workers: nat)
    requires Inv(w) && w.disk.state == Some(s) && Mirrors(view, w.disk.ledger)
    ensures var effects := StartRound(w.disk, view, s, workers).effects;
            && (forall e | e in effects && e.Append? :: e.event.RequestPublished?)
            && forall e | e in effects && e.RecordPlan? ::
                 e.workers == workers && |e.state.pendingPlan| <= workers && e.state.pendingRound == e.state.round
                 && forall f | f in e.state.pendingPlan :: IsActive(view, f)
  {
    var round := CurrentRound(w.disk.ledger, s);
    var plan := CurrentPlan(view, s, round, workers);
    CurrentIsStartable(w.disk.ledger, view, s, workers);
    RoundWrites(w.disk, view, s, round, plan, workers);
  }

  /** Every plan an invocation records is bounded by its own max-workers and holds families that may be given
      work; every event it appends is a publication. */
  lemma PlanWrites(w: World, workers: nat)
    requires Inv(w)
    ensures var effects := PlanRun(w.disk, workers).effects;
            && (forall e | e in effects && e.Append? :: e.event.RequestPublished?)
            && forall e | e in effects && e.RecordPlan? ::
                 e.workers == workers && |e.state.pendingPlan| <= workers && e.state.pendingRound == e.state.round
                 && forall f | f in e.state.pendingPlan :: Workable(w.disk, f)
  {
    LoadedViewMirrors(w);
    var view := LoadedView(w.disk);
    forall f | IsActive(view, f) ensures Workable(w.disk, f) {
      LoadedExhaustion(w.disk, f);
    }
    if w.disk.state.Some? {
      StartWrites(w, view, w.disk.state.value, workers);
    } else if workers >= 1 {
      var save := SaveState(Recovered(w.disk.ledger, workers));
      RecoveredIsOk(w.disk.ledger, workers);
      AllowedKeepsInv(w, save);
      StartWrites(Do(w, save), view, save.state, workers);
      var rest := StartRound(Do(w, save).disk, view, save.state, workers).effects;
      assert forall e | e in [save] + rest :: e == save || e in rest;
    }
  }

  /** The retry, whatever max-workers it is given: with a plan pending on disk, all of whose families may still
      be worked on, a round plan that succeeds leaves exactly that plan published in that round, no matter
      how much of it had been published before. */
  lemma RetryFinishesPlan(w: World, workers: nat)
    requires Inv(w) && w.disk.state.Some? && Pending(w.disk.state.value, w.disk.state.value.round)
    requires forall f | f in w.disk.state.value.pendingPlan :: Workable(w.disk, f)
    requires PlanRun(w.disk, workers).ok
    ensures var s := w.disk.state.value;
            PublishedIds(DoAll(w, PlanRun(w.disk, workers).effects).disk.ledger, s.round) == Ids(s.pendingPlan, s.round)
  {
    var s, es, view := w.disk.state.value, w.disk.ledger, LoadedView(w.disk);
    LoadedViewMirrors(w);
    var round := CurrentRound(es, s);
    var plan := CurrentPlan(view, s, round, workers);
    CurrentIsStartable(es, view, s, workers);
    RoundAllowed(w, view, s, round, plan, workers);
    PublishedWithinPlan(es, s);
    if round == s.round {
      PlanStillActive(w, view, s.pendingPlan);
    } else {
      assert Marked(Marks(es, s), s.round);
      assert AllPublished(es, s.pendingPlan, s.round);
    }
  }

  lemma PlanStillActive(w: World, view: View, plan: seq<string>)
    requires Inv(w) && view == LoadedView(w.disk)
    requires forall f | f in plan :: Known(w.disk.ledger, f) && Workable(w.disk, f)
    ensures ValidActive(view, plan) == plan
  {
    forall f | f in plan ensures IsActive(view, f) {
      WorkableIsActive(w, f);
    }
    AllActive(view, plan);
  }

  lemma {:induction false} AllActive(view: View, plan: seq<string>)
    requires forall f | f in plan :: IsActive(view, f)
    ensures ValidActive(view, plan) == plan
  {
    if plan != [] {
      AllActive(view, plan[1..]);
    }
  }

  lemma PublishedWithinPlan(es: Events, s: RoundState)
    requires Lawful(es) && StateOk(s, es) && Pending(s, s.round)
    ensures PublishedIds(es, s.round) <= Ids(s.pendingPlan, s.round)
  {
    LawfulIds(es);
    forall id | id in PublishedIds(es, s.round) ensures id in Ids(s.pendingPlan, s.round) {
      var e :| e in es && e.RequestPublished? && e.round == s.round && e.id == id;
      assert IsPublication(es, e);
    }
  }

  // ---- The shape of what a round plan writes ----

  /** The same families are exhausted. */
  ghost predicate ExhaustedAlike(u: View, v: View) {
    forall f :: f in u && u[f].status == Exhausted <==> f in v && v[f].status == Exhausted
  }

  /** Publications of round c, states of round c or later, and registries with the same families exhausted. */
  ghost predicate PlanShape(effects: seq<Effect>, c: int, view: View) {
    forall e | e in effects :: ShapeOf(e, c, view)
  }

  ghost predicate ShapeOf(e: Effect, c: int, view: View) {
    match e
    case Append(event) => event.RequestPublished? && event.round == c
    case WriteRequest(_) => true
    case SaveState(s) => s.round >= c
    case RecordPlan(s, _) => s.round >= c
    case SaveRegistry(saved) => ExhaustedAlike(saved, view)
    case Consume(_) => false
  }

  lemma ShapeTogether(a: seq<Effect>, b: seq<Effect>, c: int, view: View)
    requires PlanShape(a, c, view) && PlanShape(b, c, view)
    ensures PlanShape(a + b, c, view)
  {
    assert forall e | e in a + b :: e in a || e in b;
  }

  lemma {:induction false} PublishShape(requests: map<string, Request>, view: View, todo: seq<string>, round: nat,
                                        c: int)
    requires c == round
    ensures PlanShape(PublishRun(requests, view, todo, round).effects, c, view)
    ensures forall e | e in PublishRun(requests, view, todo, round).effects :: e.Append? || e.WriteRequest?
    decreases |todo|
  {
    if todo != [] && todo[0] in view && !Blank(view[todo[0]].mechanism)
        && Publishable(requests, RequestFor(view, todo[0], round)) {
      var r := RequestFor(view, todo[0], round);
      PublishShape(requests[r.id := r], view, todo[1..], round, c);
      var rest := PublishRun(requests[r.id := r], view, todo[1..], round).effects;
      assert forall e | e in PublicationEffects(requests, r) + rest ::
          e in PublicationEffects(requests, r) || e in rest;
    }
  }

  lemma SaveShape(view: View, saved: View, c: int)
    requires ExhaustedAlike(saved, view)
    ensures PlanShape(SaveView(saved).effects, c, view)
  {
  }

  lemma FinishShape(es: Events, view: View, s: RoundState, round: nat, c: int)
    requires c == round
    ensures PlanShape(FinishRun(es, view, s, round).effects, c, view)
  {
    var saved := Reconcile(view, es);
    forall f ensures f in saved && saved[f].status == Exhausted <==> f in view && view[f].status == Exhausted {
      ReconcileKeepsExhaustion(view, es, f);
    }
    SaveShape(view, saved, c);
  }

  lemma DispatchShape(d: Disk, view: View, s: RoundState, todo: seq<string>, round: nat, c: int)
    requires c == round
    ensures PlanShape(DispatchRun(d, view, s, todo, round).effects, c, view)
  {
    PublishShape(d.requests, view, todo, round, c);
    var published := PublishRun(d.requests, view, todo, round);
    FinishShape(d.ledger + Appended(published.effects), view, s, round, c);
    ShapeTogether(published.effects, FinishRun(d.ledger + Appended(published.effects), view, s, round).effects, c,
                  view);
  }

  lemma RoundShape(d: Disk, view: View, s: RoundState, round: nat, plan: seq<string>, workers: nat, c: int)
    requires c == round
    ensures PlanShape(RoundRun(d, view, s, round, plan, workers).effects, c, view)
  {
    var here := s.(round := round, publishedRounds := Marks(d.ledger, s));
    var todo := Unpublished(d.ledger, plan, round);
    DispatchShape(d, view, here, todo, round, c);
    DispatchShape(d, view, here.(pendingRound := round, pendingPlan := plan), todo, round, c);
    SaveShape(view, view, c);
  }

  // ---- What a list of such writes leaves ----

  lemma {:induction false} ShapeKeepsExhaustion(w: World, effects: seq<Effect>, c: int, view: View)
    requires PlanShape(effects, c, view) && SameExhaustion(w.disk, view)
    ensures SameExhaustion(DoAll(w, effects).disk, view)
    decreases |effects|
  {
    if effects != [] {
      assert effects[0] in effects && ShapeOf(effects[0], c, view);
      ShapeKeepsExhaustion(Do(w, effects[0]), effects[1..], c, view);
    }
  }

  /** The state on disk is what it was, or was written. */
  lemma {:induction false} StateAfter(w: World, effects: seq<Effect>)
    ensures var state := DoAll(w, effects).disk.state;
            || state == w.disk.state
            || (state.Some? && exists e | e in effects :: (e.SaveState? || e.RecordPlan?) && e.state == state.value)
    decreases |effects|
  {
    if effects != [] {
      StateAfter(Do(w, effects[0]), effects[1..]);
      assert effects[0] in effects && forall e | e in effects[1..] :: e in effects;
    }
  }

  lemma {:induction false} AppendedShape(effects: seq<Effect>, c: int, view: View)
    requires PlanShape(effects, c, view)
    ensures forall e | e in Appended(effects) :: e.RequestPublished? && e.round == c
    decreases |effects|
  {
    if effects != [] {
      assert effects[0] in effects && ShapeOf(effects[0], c, view);
      AppendedShape(effects[1..], c, view);
    }
  }

  lemma ShapePrefix(effects: seq<Effect>, n: nat, c: int, view: View)
    requires n <= |effects| && PlanShape(effects, c, view)
    ensures PlanShape(effects[..n], c, view)
  {
    assert forall e | e in effects[..n] :: e in effects;
  }

  lemma {:induction false} PublicationsKeepStanding(es: Events, more: Events, f: string)
    requires forall e | e in more :: e.RequestPublished?
    ensures StandingOf(es + more, f) == StandingOf(es, f)
  {
    if more == [] {
      assert es + more == es;
    } else {
      PublicationsKeepStanding(es, Front(more), f);
      assert Front(es + more) == es + Front(more) && Last(es + more) == Last(more);
      assert Last(more) in more;
    }
  }

  /** The view marks the families exhausted that the registry file does. */
  ghost predicate SameExhaustion(d: Disk, view: View) {
    forall f :: f in view && view[f].status == Exhausted <==> ExhaustedIn(d, f)
  }

  lemma LoadedSameExhaustion(d: Disk)
    ensures SameExhaustion(d, LoadedView(d))
  {
    forall f ensures f in LoadedView(d) && LoadedView(d)[f].status == Exhausted <==> ExhaustedIn(d, f) {
      LoadedExhaustion(d, f);
    }
  }

  /** Writes of that shape keep every family workable that was. */
  lemma ShapeKeepsWorkable(w: World, effects: seq<Effect>, c: int, view: View, f: string)
    requires PlanShape(effects, c, view) && SameExhaustion(w.disk, view) && Workable(w.disk, f)
    ensures Workable(DoAll(w, effects).disk, f)
  {
    ShapeKeepsExhaustion(w, effects, c, view);
    AppendedShape(effects, c, view);
    LedgerGrows(w, effects);
    PublicationsKeepStanding(w.disk.ledger, Appended(effects), f);
  }

  lemma PublishedIdsGrow(es: Events, more: Events, c: int, r: int)
    requires forall e | e in more :: e.RequestPublished? && e.round == c
    ensures PublishedIds(es, r) <= PublishedIds(es + more, r)
    ensures r != c ==> PublishedIds(es + more, r) == PublishedIds(es, r)
  {
    assert forall e :: e in es + more <==> e in es || e in more;
  }
}
