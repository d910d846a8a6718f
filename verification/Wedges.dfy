/** A wedged round stays wedged: until somebody blocks or exhausts the family, or the state file is lost, nothing any
    command does gets the campaign past it. */
module Wedges {
  import opened Text
  import opened RequestIds
  import opened Registries
  import opened CampaignLedger
  import opened LedgerLaws
  import opened Inboxes
  import opened Campaigns
  import opened CampaignInvariant
  import opened CampaignSafety
  import opened PlanningSafety
  import opened IngestSafety
  import opened PlanRetry
  import opened PlanPursuit
  import opened PlanSuccess
  import opened CampaignRuns
  import opened ExhaustedFamilies
  import opened OrphanedEnvelopes

  /** No publication, and nothing about the family. */
  ghost predicate SparesFamily(more: Events, f: string) {
    forall e | e in more :: !e.RequestPublished? && EventFamily(e) != f
  }

  lemma {:induction false} SparedRecords(es: Events, more: Events, f: string)
    requires SparesFamily(more, f) && f != ""
    ensures StandingOf(es + more, f) == StandingOf(es, f) && MechanismOf(es + more, f) == MechanismOf(es, f)
  {
    if more == [] {
      assert es + more == es;
    } else {
      SparedRecords(es, Front(more), f);
      assert Front(es + more) == es + Front(more) && Last(es + more) == Last(more);
      assert Last(more) in more;
    }
  }

  /** Commands other than round plan write no round state. */
  ghost predicate NoState(effects: seq<Effect>) { forall e | e in effects :: !e.SaveState? && !e.RecordPlan? }

  lemma {:induction false} SeedsWriteNoState(view: View, seeds: seq<Seed>, f: string)
    requires f in view
    ensures NoState(SeedEffects(view, seeds).effects)
    ensures forall e | e in SeedEffects(view, seeds).effects && e.Append? ::
              !e.event.RequestPublished? && EventFamily(e.event) != f
    decreases |seeds|
  {
    if seeds != [] {
      if seeds[0].family in view {
        SeedsWriteNoState(view, seeds[1..], f);
      } else {
        SeedsWriteNoState(view[seeds[0].family := NewApproach(seeds[0].family, seeds[0].mechanism)], seeds[1..], f);
      }
    }
  }

  lemma {:induction false} Spared(effects: seq<Effect>, f: string)
    requires forall e | e in effects && e.Append? :: !e.event.RequestPublished? && EventFamily(e.event) != f
    ensures SparesFamily(Appended(effects), f)
    decreases |effects|
  {
    if effects != [] {
      assert effects[0] in effects;
      Spared(effects[1..], f);
    }
  }

  lemma IngestWritesNoState(d: Disk)
    ensures NoState(IngestRun(d).effects)
  {
    ConsumingSavesNothing(Leftovers(d));
    RestWritesNoState(LoadedView(d), d.requests, d.ledger, Remaining(d), Outstanding(d.requests, d.ledger));
    var rest := IngestRest(LoadedView(d), d.requests, d.ledger, Remaining(d),
                           Outstanding(d.requests, d.ledger)).effects;
    assert forall e | e in IngestRun(d).effects :: e in ConsumeAll(Leftovers(d)) || e in rest;
  }

  lemma RestWritesNoState(view: View, requests: map<string, Request>, es: Events, files: map<string, ResultFile>,
                          outstanding: map<string, string>)
    ensures NoState(IngestRest(view, requests, es, files, outstanding).effects)
  {
    if Collectable(files, outstanding) {
      BatchWritesNoState(view, outstanding, Batch(files));
    }
  }

  lemma BatchWritesNoState(view: View, outstanding: map<string, string>, batch: seq<Collected>)
    ensures NoState(BatchRun(view, outstanding, batch).effects)
  {
    EventsSaveNothing(outstanding, batch);
    ConsumingSavesNothing(Filenames(batch));
  }

  /** What a command other than round plan, and other than blocking f, does to an active family f: nothing. */
  lemma OtherCommand(w: World, c: Command, f: string)
    requires Inv(w) && IsActive(LoadedView(w.disk), f) && !c.PlanRound? && !(c.BlockFamily? && c.family == f)
    requires c.IngestRound? ==> !IngestRun(w.disk).ok
    ensures NoState(CommandRun(w.disk, c).effects) && SparesFamily(Appended(CommandRun(w.disk, c).effects), f)
  {
    var view := LoadedView(w.disk);
    match c
    case AddFamily(g, m) => if CanAdd(view, g, m) { OneEvent(FamilyAdded(g, m), view[g := NewApproach(g, m)], f); }
    case BlockFamily(g, r) => if CanBlock(view, g, r) {
      OneEvent(FamilyBlocked(g, r), view[g := BlockedApproach(view[g], r)], f);
    }
    case ReopenFamily(g, m) =>
      if CanReopen(view, g, m) { OneEvent(FamilyReopened(g, m), view[g := ReopenedApproach(view[g], m)], f); }
    case ListFamilies => Spared(ListRun(w.disk).effects, f);
    case SeedFamilies(seeds) =>
      SeedsWriteNoState(view, seeds, f);
      Spared(SeedEffects(view, seeds).effects, f);
    case IngestRound =>
      IngestWritesNoState(w.disk);
      IngestAllowed(w);
  }

  lemma OneEvent(e: Event, saved: View, f: string)
    requires !e.RequestPublished? && EventFamily(e) != f
    ensures NoState(After([Append(e)], SaveView(saved)).effects)
    ensures SparesFamily(Appended(After([Append(e)], SaveView(saved)).effects), f)
  {
    var effects := [Append(e)] + SaveView(saved).effects;
    assert forall x | x in effects :: x == Append(e) || x in SaveView(saved).effects;
    Spared(effects, f);
  }

  // ---- The wedge stays ----

  /** The steps that can lift a wedge. */
  predicate Lifts(step: Step, f: string) {
    || step.LoseState? || (step.Exhaust? && step.family == f)
    || (step.Execute? && step.command.BlockFamily? && step.command.family == f)
  }

  /** From one wedged directory to the next: same state and envelope, the family's record unchanged. */
  lemma StillWedged(w: World, w': World, f: string, round: nat)
    requires Inv(w) && Inv(w') && Wedged(w.disk, f, round) && w'.disk.state == w.disk.state
    requires var id := RequestId(f, round); id in w'.disk.requests && w'.disk.requests[id] == w.disk.requests[id]
    requires Workable(w'.disk, f) && w.disk.ledger <= w'.disk.ledger
    requires forall n | |w.disk.ledger| <= n <= |w'.disk.ledger| ::
              MechanismOf(w'.disk.ledger[..n], f) == MechanismOf(w.disk.ledger, f)
    ensures Wedged(w'.disk, f, round)
  {
    var id, es' := RequestId(f, round), w'.disk.ledger;
    var r := w.disk.requests[id];
    assert es'[..|es'|] == es';
    if Publication(es', id).Some? {
      PublicationIsAsWritten(w, w', id);
      var i :| |w.disk.ledger| <= i < |es'| && es'[i].RequestPublished? && es'[i].envelope == r && es'[i].id == r.id
               && es'[i].family == r.family && MechanismOf(es'[..i], r.family) == r.mechanism;
      LawfulPrefix(es', i);
      RequestIdInjective(f, round, es'[i].family, es'[i].round);
    }
  }

  lemma {:induction false} MechanismThroughout(es: Events, more: Events, f: string, n: nat)
    requires (forall e | e in more :: e.RequestPublished?) || (SparesFamily(more, f) && f != "")
    requires |es| <= n <= |es + more|
    ensures MechanismOf((es + more)[..n], f) == MechanismOf(es, f)
  {
    var part := more[..n - |es|];
    assert (es + more)[..n] == es + part && forall e | e in part :: e in more;
    if forall e | e in more :: e.RequestPublished? {
      PublicationsKeepMechanism(es, part, f);
    } else {
      SparedRecords(es, part, f);
    }
  }

  lemma WedgedIsActive(w: World, f: string, round: nat)
    requires Inv(w) && Wedged(w.disk, f, round)
    ensures IsActive(LoadedView(w.disk), f) && f != "" && !ExhaustedIn(w.disk, f)
  {
    WorkableIsActive(w, f);
    LawfulFamilies(w.disk.ledger, f);
  }

  /** What the writes of one command, cut short anywhere, do to a wedge. */
  lemma WritesKeepWedge(w: World, effects: seq<Effect>, f: string, round: nat)
    requires Inv(w) && Wedged(w.disk, f, round) && AllAllowed(w, effects) && f != ""
    requires NoState(effects) && SavesAlike(effects, LoadedView(w.disk), f)
    requires (forall e | e in Appended(effects) :: e.RequestPublished?) || SparesFamily(Appended(effects), f)
    ensures Wedged(DoAll(w, effects).disk, f, round)
  {
    var w', es, more := DoAll(w, effects), w.disk.ledger, Appended(effects);
    WholeKeepsInv(w, effects);
    LedgerGrows(w, effects);
    StateAfter(w, effects);
    EnvelopesStay(w, effects, RequestId(f, round));
    LoadedExhaustion(w.disk, f);
    SavesKeepMark(w, effects, LoadedView(w.disk), f);
    if forall e | e in more :: e.RequestPublished? {
      PublicationsKeepStanding(es, more, f);
    } else {
      SparedRecords(es, more, f);
    }
    forall n | |es| <= n <= |w'.disk.ledger| ensures MechanismOf(w'.disk.ledger[..n], f) == MechanismOf(es, f) {
      MechanismThroughout(es, more, f, n);
    }
    StillWedged(w, w', f, round);
  }

  lemma PlanKeepsWedge(w: World, workers: nat, f: string, round: nat, n: nat)
    requires Inv(w) && Wedged(w.disk, f, round) && n <= |PlanRun(w.disk, workers).effects|
    ensures Wedged(DoAll(w, PlanRun(w.disk, workers).effects[..n]).disk, f, round)
  {
    var effects := PlanRun(w.disk, workers).effects;
    WedgedIsActive(w, f, round);
    PlanAllowed(w, workers);
    AllowedPrefix(w, effects, n);
    PlanWrites(w, workers);
    AppendedPublications(effects);
    AppendedOfPrefix(effects, n);
    PlanAlike(w, workers, f);
    WedgedPlanShape(w, workers, f, round);
    assert forall e | e in effects[..n] :: e in effects;
    WritesKeepWedge(w, effects[..n], f, round);
  }

  /** A refused round plan writes no state. */
  lemma WedgedPlanShape(w: World, workers: nat, f: string, round: nat)
    requires Inv(w) && Wedged(w.disk, f, round)
    ensures NoState(PlanRun(w.disk, workers).effects)
  {
    WedgeRefuses(w, f, round, workers);
    if workers >= 1 {
      var s, view := w.disk.state.value, LoadedView(w.disk);
      var todo := Unpublished(w.disk.ledger, ValidActive(view, s.pendingPlan), round);
      WedgedPlan(w, f, round, workers, s, view, todo);
      LoadedViewMirrors(w);
      PublishRunSucceeds(w.disk.requests, view, todo, round);
      SendableIsSends(w.disk.requests, view, w.disk.ledger, f, round);
      PublishShape(w.disk.requests, view, todo, round, round);
      RefusedDispatch(w.disk, view, s.(publishedRounds := Marks(w.disk.ledger, s)), todo, round);
    }
  }

  lemma RefusedDispatch(d: Disk, view: View, s: RoundState, todo: seq<string>, round: nat)
    requires !PublishRun(d.requests, view, todo, round).ok
    ensures DispatchRun(d, view, s, todo, round) == PublishRun(d.requests, view, todo, round)
  {
  }

  /** A wedge outlives every step but the few that lift it: any command, complete or cut short, added or reopened or
      blocked other families, a lost registry file, other result files. */
  lemma WedgePersists(w: World, step: Step, f: string, round: nat)
    requires Inv(w) && Wedged(w.disk, f, round) && !Lifts(step, f)
    ensures Wedged(Perform(w, step).disk, f, round)
  {
    WedgedIsActive(w, f, round);
    match step
    case Execute(c, writes) =>
      var effects := CommandRun(w.disk, c).effects;
      var n := if writes < |effects| then writes else |effects|;
      assert effects[..|effects|] == effects;
      CommandKeepsWedge(w, c, f, round, n);
    case _ =>
  }

  lemma CommandKeepsWedge(w: World, c: Command, f: string, round: nat, n: nat)
    requires Inv(w) && Wedged(w.disk, f, round) && !(c.BlockFamily? && c.family == f)
    requires n <= |CommandRun(w.disk, c).effects|
    ensures Wedged(DoAll(w, CommandRun(w.disk, c).effects[..n]).disk, f, round)
  {
    if c.PlanRound? {
      PlanKeepsWedge(w, c.workers, f, round, n);
    } else {
      var effects := CommandRun(w.disk, c).effects;
      WedgedIsActive(w, f, round);
      WedgeRefuses(w, f, round, 1);
      OtherCommand(w, c, f);
      OtherAlike(w, c, f);
      CommandAllowed(w, c);
      OthersKeepWedge(w, effects, f, round, n);
    }
  }

  lemma OtherAlike(w: World, c: Command, f: string)
    requires Inv(w) && !ExhaustedIn(w.disk, f) && !(c.BlockFamily? && c.family == f)
    ensures SavesAlike(CommandRun(w.disk, c).effects, LoadedView(w.disk), f)
  {
    LoadedExhaustion(w.disk, f);
    if c.IngestRound? {
      IngestCommand(w.disk);
      IngestAlike(w.disk, f);
    } else {
      CommandAlike(w, c, f);
    }
  }

  lemma OthersKeepWedge(w: World, effects: seq<Effect>, f: string, round: nat, n: nat)
    requires Inv(w) && Wedged(w.disk, f, round) && AllAllowed(w, effects) && f != "" && n <= |effects|
    requires NoState(effects) && SavesAlike(effects, LoadedView(w.disk), f) && SparesFamily(Appended(effects), f)
    ensures Wedged(DoAll(w, effects[..n]).disk, f, round)
  {
    AllowedPrefix(w, effects, n);
    AppendedOfPrefix(effects, n);
    assert forall e | e in effects[..n] :: e in effects;
    WritesKeepWedge(w, effects[..n], f, round);
  }

  ghost predicate NeverLifted(steps: seq<Step>, f: string) { forall step | step in steps :: !Lifts(step, f) }

  /** So over any run without such a step every round plan and every ingest is refused. */
  lemma {:induction false} WedgeStopsCampaign(w: World, steps: seq<Step>, f: string, round: nat, workers: nat)
    requires Inv(w) && Wedged(w.disk, f, round) && NeverLifted(steps, f)
    ensures Wedged(Continued(w, steps).disk, f, round)
    ensures !PlanRun(Continued(w, steps).disk, workers).ok && !IngestRun(Continued(w, steps).disk).ok
    decreases |steps|
  {
    if steps == [] {
      WedgeRefuses(w, f, round, workers);
    } else {
      assert steps[0] in steps;
      StepKeepsInv(w, steps[0]);
      WedgePersists(w, steps[0], f, round);
      WedgeStopsCampaign(Perform(w, steps[0]), steps[1..], f, round, workers);
    }
  }
}
