/** Which rounds the count of FairRuns covers: those completed by the invocation that drew up the plan, and those it
    left unfinished, once a later one completes. */
module ResumedRounds {
  import opened Text
  import opened RequestIds
  import opened Registries
  import opened CampaignLedger
  import opened Dispatch
  import opened Campaigns
  import opened CampaignInvariant
  import opened CampaignSafety
  import opened PlanningSafety
  import opened PlanRetry
  import opened PlanPursuit
  import opened FreshRounds
  import opened CampaignRuns
  import opened FairRuns

  lemma {:induction false} PublicationsPublish(es: Events, view: View, fs: seq<string>, round: nat, f: string)
    requires (forall g | g in fs :: g in view) && f in fs
    ensures RequestId(f, round) in PublishedIds(es + Publications(view, fs, round), round)
    decreases |fs|
  {
    var e, rest := PublicationEvent(RequestFor(view, fs[0], round)), Publications(view, fs[1..], round);
    assert es + Publications(view, fs, round) == es + [e] + rest;
    if f == fs[0] {
      assert e in es + [e] + rest;
    } else {
      PublicationsPublish(es + [e], view, fs[1..], round, f);
    }
  }

  lemma FullRoundCompletes(w: World, workers: nat, w': World)
    requires Inv(w) && Fresh(w.disk, workers) && Plan(LoadedView(w.disk), workers) != []
    requires PlanRun(w.disk, workers).ok && w' == DoAll(w, PlanRun(w.disk, workers).effects)
    ensures Completed(Some(Drawn(w, workers)), w'.disk.ledger)
  {
    var view := LoadedView(w.disk);
    var plan, round := Plan(view, workers), StartingRound(w.disk, workers);
    StartOk(w, workers);
    FreshPlanDispatches(w, workers, view, plan, round, w');
    forall g | g in plan ensures RequestId(g, round) in PublishedIds(w'.disk.ledger, round) {
      PublicationsPublish(w.disk.ledger, view, plan, round, g);
    }
  }

  /** A round begun and completed at once. */
  lemma FullRoundIsServed(w: World, step: Step, f: string)
    requires Inv(w) && FullRound(w, step) && LeavesOut(w, step, f)
    ensures Served(w, [step], f, None) == [step.command.workers]
  {
    var workers := step.command.workers;
    PlanInFull(w, workers, step.writes, PlanRun(w.disk, workers).effects);
    FullRoundCompletes(w, workers, Perform(w, step));
    OneStep(w, step, f, None);
  }

  lemma OneStep(w: World, step: Step, f: string, open: Option<Begun>)
    ensures var latest := Latest(w, step, f, open);
            Served(w, [step], f, open) ==
            if Completed(latest, Perform(w, step).disk.ledger) then [latest.value.workers] else []
  {
    assert [step][1..] == [];
  }

  /** What a fresh round plan records is the plan it draws up. */
  lemma RecordedIsDrawn(w: World, workers: nat, s: RoundState)
    requires Inv(w) && Fresh(w.disk, workers) && Plan(LoadedView(w.disk), workers) != []
    requires RecordPlan(s, workers) in PlanRun(w.disk, workers).effects
    ensures s.round == StartingRound(w.disk, workers) && s.pendingPlan == Plan(LoadedView(w.disk), workers)
  {
    var view, s0 := LoadedView(w.disk), StartState(w.disk, workers);
    var plan, round := Plan(view, workers), StartingRound(w.disk, workers);
    StartOk(w, workers);
    FreshRun(w, workers, view, plan, round);
    var recorded := RecordedState(w.disk.ledger, s0, round, plan);
    DispatchRunPublishes(w.disk, view, recorded, plan, round);
    assert RecordPlan(s, workers) !in DispatchRun(w.disk, view, recorded, plan, round).effects;
    assert RecordPlan(s, workers) in FreshRest(w.disk, view, s0, round, plan, workers).effects;
  }

  /** With an unfinished plan pending an invocation does not start afresh. */
  lemma PendingIsResumed(w: World, plan: seq<string>, round: nat, workers: nat)
    requires Pursued(w, plan, round) && !AllPublished(w.disk.ledger, plan, round)
    ensures !Fresh(w.disk, workers)
  {
    var s := w.disk.state.value;
    assert PendingPlan(w, plan, round);
    if Marked(Marks(w.disk.ledger, s), round) { MarkedIsPublished(w.disk.ledger, s, round); }
  }

  lemma CutIs(w: World, workers: nat, n: nat, effects: seq<Effect>)
    requires effects == PlanRun(w.disk, workers).effects && n <= |effects|
    ensures Perform(w, Execute(PlanRound(workers), n)) == DoAll(w, effects[..n])
  {
    PlanCommand(w.disk, workers);
    CommandIs(w, PlanRound(workers), n, effects);
    assert effects[..|effects|] == effects;
  }

  /** A round plan cut after recording a plan that leaves out f, and the invocation that completes it: the round counts,
      with the max-workers of the first. */
  lemma ResumedRoundIsServed(w: World, first: nat, n: nat, s: RoundState, last: nat, m: nat, f: string, w1: World)
    requires Inv(w) && LeavesOut(w, Execute(PlanRound(first), n), f)
    requires n <= |PlanRun(w.disk, first).effects| && RecordPlan(s, first) in PlanRun(w.disk, first).effects[..n]
    requires w1 == Perform(w, Execute(PlanRound(first), n)) && !Completed(Some(Drawn(w, first)), w1.disk.ledger)
    requires PlanRun(w1.disk, last).ok && m >= |PlanRun(w1.disk, last).effects|
    ensures Served(w, [Execute(PlanRound(first), n), Execute(PlanRound(last), m)], f, None) == [first]
  {
    var effects, b := PlanRun(w.disk, first).effects, Drawn(w, first);
    assert forall e | e in effects[..n] :: e in effects;
    DrawnSomeone(w, first, f);
    RecordedIsDrawn(w, first, s);
    StartOk(w, first);
    CutIs(w, first, n, effects);
    FirstIsPursued(w, first, effects, s, n);
    PendingIsResumed(w1, b.plan, b.round, last);
    PursuitEnds(w1, b.plan, b.round, last);
    PlanInFull(w1, last, m, PlanRun(w1.disk, last).effects);
    AllOfIds(Perform(w1, Execute(PlanRound(last), m)).disk.ledger, b.plan, b.round);
    OneStep(w1, Execute(PlanRound(last), m), f, Some(b));
    FirstStep(w, Execute(PlanRound(first), n), Execute(PlanRound(last), m), f);
  }

  lemma DrawnSomeone(w: World, workers: nat, f: string)
    requires IsActive(LoadedView(w.disk), f) && workers >= 1
    ensures Plan(LoadedView(w.disk), workers) != []
  {
    PlanIsLeast(LoadedView(w.disk), workers);
    assert f in ActiveFamilies(LoadedView(w.disk));
  }

  lemma AllOfIds(es: Events, plan: seq<string>, round: nat)
    requires PublishedIds(es, round) == Ids(plan, round)
    ensures AllPublished(es, plan, round)
  {
  }

  lemma FirstStep(w: World, a: Step, b: Step, f: string)
    requires var latest := Latest(w, a, f, None); !Completed(latest, Perform(w, a).disk.ledger)
    ensures Served(w, [a, b], f, None) == Served(Perform(w, a), [b], f, Latest(w, a, f, None))
  {
    assert [a, b][1..] == [b];
  }
}
