/** Families a human has marked exhausted in the registry file. The ledger does not know of them; they get no work as
    long as the file is not lost and nothing blocks them, which is checked nowhere. */
module ExhaustedFamilies {
  import opened Text
  import opened RequestIds
  import opened Registries
  import opened CampaignLedger
  import opened LedgerLaws
  import opened Inboxes
  import opened Campaigns
  import opened CampaignInvariant
  import opened CampaignSafety
  import opened PlanningSafety
  import opened IngestSafety
  import opened PlanRetry
  import opened PlanPursuit
  import opened FreshRounds
  import opened CampaignRuns

  // ---- A round plan ----

  lemma {:induction false} PublishesTodo(requests: map<string, Request>, view: View, todo: seq<string>, round: nat)
    ensures forall e | e in Appended(PublishRun(requests, view, todo, round).effects) ::
              e.RequestPublished? && e.family in todo
    decreases |todo|
  {
    if todo != [] && todo[0] in view && !Blank(view[todo[0]].mechanism)
        && Publishable(requests, RequestFor(view, todo[0], round)) {
      var r := RequestFor(view, todo[0], round);
      PublishesTodo(requests[r.id := r], view, todo[1..], round);
      AppendedPublication(requests, r, PublishRun(requests[r.id := r], view, todo[1..], round).effects);
    }
  }

  lemma DispatchPublishesTodo(d: Disk, view: View, s: RoundState, todo: seq<string>, round: nat)
    ensures forall e | e in Appended(DispatchRun(d, view, s, todo, round).effects) ::
              e.RequestPublished? && e.family in todo
  {
    PublishesTodo(d.requests, view, todo, round);
    var pubs := PublishRun(d.requests, view, todo, round).effects;
    NothingAppendedAfter(pubs, FinishRun(d.ledger + Appended(pubs), view, s, round).effects);
  }

  lemma NothingAppendedAfter(effects: seq<Effect>, more: seq<Effect>)
    requires forall e | e in more :: !e.Append?
    ensures Appended(effects + more) == Appended(effects)
  {
    NothingAppendedBy(more);
    AppendedConcat(effects, more);
    assert Appended(effects) + [] == Appended(effects);
  }

  lemma RoundPublishesPlan(d: Disk, view: View, s: RoundState, round: nat, plan: seq<string>, workers: nat)
    ensures forall e | e in Appended(RoundRun(d, view, s, round, plan, workers).effects) ::
              e.RequestPublished? && e.family in plan
  {
    var here := s.(round := round, publishedRounds := Marks(d.ledger, s));
    var todo := Unpublished(d.ledger, plan, round);
    var recorded := here.(pendingRound := round, pendingPlan := plan);
    DispatchPublishesTodo(d, view, here, todo, round);
    DispatchPublishesTodo(d, view, recorded, todo, round);
    var dispatch := DispatchRun(d, view, recorded, todo, round).effects;
    AppendedConcat([RecordPlan(recorded, workers)], dispatch);
    NothingAppendedBy([RecordPlan(recorded, workers)]);
    assert [] + Appended(dispatch) == Appended(dispatch);
    NothingAppendedBy(Run([SaveState(here.(pendingRound := 0, pendingPlan := []))], false).effects);
    NothingAppendedBy(After([SaveState(Advanced(here, Marks(d.ledger, s), round))], SaveView(view)).effects);
  }

  lemma StartPublishesActive(w: World, view: View, s: RoundState, workers: nat)
    requires Inv(w) && view == LoadedView(w.disk) && StateOk(s, w.disk.ledger)
    ensures forall e | e in Appended(StartRound(w.disk, view, s, workers).effects) ::
              e.RequestPublished? && IsActive(view, e.family)
  {
    LoadedViewMirrors(w);
    var round := CurrentRound(w.disk.ledger, s);
    CurrentIsStartable(w.disk.ledger, view, s, workers);
    RoundPublishesPlan(w.disk, view, s, round, CurrentPlan(view, s, round, workers), workers);
  }

  /** A round plan publishes for active families only. */
  lemma PlanPublishesActive(w: World, workers: nat)
    requires Inv(w)
    ensures forall e | e in Appended(PlanRun(w.disk, workers).effects) ::
              e.RequestPublished? && IsActive(LoadedView(w.disk), e.family)
  {
    if workers >= 1 {
      var view, s := LoadedView(w.disk), StartState(w.disk, workers);
      PlanFromStart(w, workers);
      StartOk(w, workers);
      StartPublishesActive(w, view, s, workers);
      var rest := StartRound(w.disk, view, s, workers).effects;
      AppendedConcat([SaveState(s)], rest);
      NothingAppendedBy([SaveState(s)]);
      assert [] + Appended(rest) == Appended(rest) && [] + rest == rest;
    }
  }

  /** An exhausted family gets no work. */
  lemma ExhaustedGetNoWork(w: World, workers: nat, f: string)
    requires Inv(w) && ExhaustedIn(w.disk, f)
    ensures forall e | e in Appended(PlanRun(w.disk, workers).effects) :: e.RequestPublished? && e.family != f
  {
    PlanPublishesActive(w, workers);
    LoadedExhaustion(w.disk, f);
  }

  // ---- What commands do to the mark ----

  predicate ExhaustedAt(view: View, f: string) { f in view && view[f].status == Exhausted }

  /** Every registry saved marks f exhausted if and only if the view does. */
  ghost predicate SavesAlike(effects: seq<Effect>, view: View, f: string) {
    forall e | e in effects && e.SaveRegistry? :: ExhaustedAt(e.view, f) <==> ExhaustedAt(view, f)
  }

  lemma {:induction false} SavesKeepMark(w: World, effects: seq<Effect>, view: View, f: string)
    requires SavesAlike(effects, view, f) && (ExhaustedIn(w.disk, f) <==> ExhaustedAt(view, f))
    ensures ExhaustedIn(DoAll(w, effects).disk, f) <==> ExhaustedAt(view, f)
    decreases |effects|
  {
    if effects != [] {
      assert effects[0] in effects && forall e | e in effects[1..] :: e in effects;
      SavesKeepMark(Do(w, effects[0]), effects[1..], view, f);
    }
  }

  lemma SavedAlike(saved: View, view: View, f: string)
    requires ExhaustedAt(saved, f) <==> ExhaustedAt(view, f)
    ensures SavesAlike(SaveView(saved).effects, view, f)
  {
  }

  lemma AppendThenSaveAlike(e: Event, saved: View, view: View, f: string)
    requires ExhaustedAt(saved, f) <==> ExhaustedAt(view, f)
    ensures SavesAlike(After([Append(e)], SaveView(saved)).effects, view, f)
  {
    assert forall x | x in [Append(e)] + SaveView(saved).effects :: x == Append(e) || x in SaveView(saved).effects;
  }

  lemma {:induction false} SeedsAlike(current: View, view: View, seeds: seq<Seed>, f: string)
    requires ExhaustedAt(current, f) <==> ExhaustedAt(view, f)
    ensures SavesAlike(SeedEffects(current, seeds).effects, view, f)
    decreases |seeds|
  {
    if seeds == [] {
      SavedAlike(current, view, f);
    } else if seeds[0].family in current {
      SeedsAlike(current, view, seeds[1..], f);
    } else {
      var more := current[seeds[0].family := NewApproach(seeds[0].family, seeds[0].mechanism)];
      SeedsAlike(more, view, seeds[1..], f);
    }
  }

  lemma ListAlike(d: Disk, f: string)
    ensures SavesAlike(ListRun(d).effects, LoadedView(d), f)
  {
    ReconcileKeepsExhaustion(LoadedView(d), d.ledger, f);
    SavedAlike(Reconcile(LoadedView(d), d.ledger), LoadedView(d), f);
  }

  lemma PlanAlike(w: World, workers: nat, f: string)
    requires Inv(w)
    ensures SavesAlike(PlanRun(w.disk, workers).effects, LoadedView(w.disk), f)
  {
    var view := LoadedView(w.disk);
    if workers >= 1 {
      PlanFromStart(w, workers);
      StartAlike(w.disk, view, StartState(w.disk, workers), workers, f);
      var rest := StartRound(w.disk, view, StartState(w.disk, workers), workers).effects;
      assert forall e | e in PlanRun(w.disk, workers).effects :: e.SaveState? || e in rest;
    }
  }

  /** A round plan saves a recovered state, if the file is missing, and starts the round. */
  lemma PlanFromStart(w: World, workers: nat)
    requires Inv(w) && workers >= 1
    ensures var s := StartState(w.disk, workers);
            && s.round >= 1
            && PlanRun(w.disk, workers)
               == After(if w.disk.state.Some? then [] else [SaveState(s)],
                        StartRound(w.disk, LoadedView(w.disk), s, workers))
  {
    var view, s := LoadedView(w.disk), StartState(w.disk, workers);
    StartOk(w, workers);
    LawfulRounds(w.disk.ledger);
    PlanRunIs(w.disk, view, s, workers, StartRound(w.disk, view, s, workers));
  }

  lemma StartAlike(d: Disk, view: View, s: RoundState, workers: nat, f: string)
    requires s.round >= 1
    ensures SavesAlike(StartRound(d, view, s, workers).effects, view, f)
  {
    var round := CurrentRound(d.ledger, s);
    RoundShape(d, view, s, round, CurrentPlan(view, s, round, workers), workers, round);
    assert forall e | e in StartRound(d, view, s, workers).effects :: ShapeOf(e, round, view);
  }

  /** A blocked result for the family. */
  predicate BlocksWith(outstanding: map<string, string>, r: Result, f: string) {
    r.status == ResultBlocked && r.requestId in outstanding && outstanding[r.requestId] == f
  }

  predicate Blocking(outstanding: map<string, string>, batch: seq<Collected>, f: string) {
    exists c | c in batch :: BlocksWith(outstanding, c.result, f)
  }

  /** A family keeps the mark if and only if no result of the batch blocks it. */
  lemma {:induction false} BlockResultsExactly(view: View, outstanding: map<string, string>, batch: seq<Collected>,
                                               f: string)
    requires BlockResults(view, outstanding, batch).Some?
    ensures ExhaustedAt(BlockResults(view, outstanding, batch).value, f)
       <==> ExhaustedAt(view, f) && !Blocking(outstanding, batch, f)
    decreases |batch|
  {
    if batch != [] {
      var r := batch[0].result;
      assert batch[0] in batch && batch == [batch[0]] + batch[1..];
      if r.status != ResultBlocked {
        BlockResultsExactly(view, outstanding, batch[1..], f);
      } else {
        var g := outstanding[r.requestId];
        BlockResultsExactly(view[g := BlockedApproach(view[g], r.blockReason)], outstanding, batch[1..], f);
      }
    }
  }

  lemma {:induction false} EventsSaveNothing(outstanding: map<string, string>, batch: seq<Collected>)
    ensures forall e | e in IngestEvents(outstanding, batch).effects :: e.Append?
  {
    if batch != [] {
      EventsSaveNothing(outstanding, batch[1..]);
    }
  }

  lemma {:induction false} ConsumingSavesNothing(names: seq<string>)
    ensures forall e | e in ConsumeAll(names) :: e.Consume?
  {
    if names != [] {
      ConsumingSavesNothing(names[1..]);
    }
  }

  ghost predicate SavesNothing(effects: seq<Effect>) { forall e | e in effects :: !e.SaveRegistry? }

  lemma BatchSaves(view: View, outstanding: map<string, string>, batch: seq<Collected>) returns (first: seq<Effect>)
    ensures SavesNothing(first)
    ensures var run, blocked := BatchRun(view, outstanding, batch), BlockResults(view, outstanding, batch);
            if run.ok then blocked.Some? && run.effects == first + [SaveRegistry(blocked.value)]
            else SavesNothing(run.effects)
  {
    first := IngestEvents(outstanding, batch).effects + ConsumeAll(Filenames(batch));
    ConsumingSavesNothing(Filenames(batch));
    EventsSaveNothing(outstanding, batch);
  }

  /** The registry the remaining files lead to. */
  ghost predicate LeadsTo(view: View, files: map<string, ResultFile>, outstanding: map<string, string>, saved: View) {
    Collectable(files, outstanding) && BlockResults(view, outstanding, Batch(files)) == Some(saved)
  }

  lemma RestSaves(view: View, requests: map<string, Request>, es: Events, files: map<string, ResultFile>,
                  outstanding: map<string, string>) returns (first: seq<Effect>, saved: View)
    ensures SavesNothing(first)
    ensures var run := IngestRest(view, requests, es, files, outstanding);
            if run.ok then LeadsTo(view, files, outstanding, saved) && run.effects == first + [SaveRegistry(saved)]
            else SavesNothing(run.effects)
  {
    first, saved := [], view;
    if Derivable(requests, es) && Collectable(files, outstanding) {
      first := BatchSaves(view, outstanding, Batch(files));
      var blocked := BlockResults(view, outstanding, Batch(files));
      if blocked.Some? { saved := blocked.value; }
    }
  }

  lemma FirstThenRest(consume: seq<Effect>, first: seq<Effect>, saved: View, rest: seq<Effect>)
    requires SavesNothing(consume)
    ensures SavesNothing(first) ==> SavesNothing(consume + first)
    ensures SavesNothing(rest) ==> SavesNothing(consume + rest)
    ensures rest == first + [SaveRegistry(saved)] ==> consume + rest == consume + first + [SaveRegistry(saved)]
  {
  }

  /** An ingest that succeeds saves the registry once, last; one that does not never does. */
  lemma IngestSaves(d: Disk) returns (first: seq<Effect>, saved: View)
    ensures SavesNothing(first)
    ensures var run := IngestRun(d);
            if run.ok then
              LeadsTo(LoadedView(d), Remaining(d), Outstanding(d.requests, d.ledger), saved)
              && run.effects == first + [SaveRegistry(saved)]
            else SavesNothing(run.effects)
  {
    var view, consume := LoadedView(d), ConsumeAll(Leftovers(d));
    var rest := IngestIsRest(d);
    first, saved := RestSaves(view, d.requests, d.ledger, Remaining(d), Outstanding(d.requests, d.ledger));
    ConsumingSavesNothing(Leftovers(d));
    FirstThenRest(consume, first, saved, rest.effects);
    first := consume + first;
  }

  lemma IngestIsRest(d: Disk) returns (rest: Run)
    ensures rest == IngestRest(LoadedView(d), d.requests, d.ledger, Remaining(d), Outstanding(d.requests, d.ledger))
    ensures IngestRun(d) in {REFUSED, After(ConsumeAll(Leftovers(d)), rest)}
  {
    rest := IngestRest(LoadedView(d), d.requests, d.ledger, Remaining(d), Outstanding(d.requests, d.ledger));
  }

  /** The files hold a blocked result for the family. */
  predicate HoldsBlock(files: map<string, ResultFile>, outstanding: map<string, string>, f: string) {
    exists n | n in files :: files[n].Envelope? && BlocksWith(outstanding, files[n].result, f)
  }

  lemma BatchHolds(files: map<string, ResultFile>, outstanding: map<string, string>, f: string)
    requires forall n | n in files :: files[n].Envelope?
    ensures Blocking(outstanding, Batch(files), f) <==> HoldsBlock(files, outstanding, f)
  {
    var names := Sorted(files.Keys);
    if c :| c in Batch(files) && BlocksWith(outstanding, c.result, f) {
      var i :| 0 <= i < |names| && Batch(files)[i] == c;
      assert names[i] in files;
    }
    if n :| n in files && BlocksWith(outstanding, files[n].result, f) {
      var i :| 0 <= i < |names| && names[i] == n;
      assert Batch(files)[i] in Batch(files);
    }
  }

  lemma SavedMark(view: View, files: map<string, ResultFile>, outstanding: map<string, string>, saved: View, f: string)
    requires LeadsTo(view, files, outstanding, saved)
    ensures ExhaustedAt(saved, f) <==> ExhaustedAt(view, f) && !HoldsBlock(files, outstanding, f)
  {
    BlockResultsExactly(view, outstanding, Batch(files), f);
    BatchHolds(files, outstanding, f);
  }

  /** An ingest marks no family. */
  lemma IngestAlike(d: Disk, f: string)
    requires !ExhaustedAt(LoadedView(d), f)
    ensures SavesAlike(IngestRun(d).effects, LoadedView(d), f)
  {
    var first, saved := IngestSaves(d);
    if IngestRun(d).ok {
      SavedMark(LoadedView(d), Remaining(d), Outstanding(d.requests, d.ledger), saved, f);
    }
  }

  /** The batch is acceptable and holds a blocked result for the family. */
  ghost predicate BlockAccepted(d: Disk, f: string) {
    AcceptsBatch(d) && HoldsBlock(Remaining(d), Outstanding(d.requests, d.ledger), f)
  }

  lemma LastSaved(w: World, first: seq<Effect>, view: View)
    ensures DoAll(w, first + [SaveRegistry(view)]).disk.registry == Some(view)
  {
    DoAllConcat(w, first, [SaveRegistry(view)]);
    assert [SaveRegistry(view)][1..] == [];
  }

  /** Writes that end with saving the registry, cut or not, in a directory that marks the family. */
  lemma CutMarks(w: World, effects: seq<Effect>, n: nat, first: seq<Effect>, saved: View, f: string)
    requires ExhaustedIn(w.disk, f) && SavesNothing(first) && effects == first + [SaveRegistry(saved)]
    ensures n < |effects| ==> ExhaustedIn(DoAll(w, effects[..n]).disk, f)
    ensures ExhaustedIn(DoAll(w, effects).disk, f) <==> ExhaustedAt(saved, f)
  {
    LastSaved(w, first, saved);
    if n < |effects| {
      assert effects[..n] == first[..n] && forall e | e in first[..n] :: e in first;
      NoSaveKeepsMark(w, first[..n], f);
    }
  }

  lemma {:induction false} NoSaveKeepsMark(w: World, effects: seq<Effect>, f: string)
    requires SavesNothing(effects)
    ensures ExhaustedIn(DoAll(w, effects).disk, f) <==> ExhaustedIn(w.disk, f)
    decreases |effects|
  {
    if effects != [] {
      assert effects[0] in effects;
      NoSaveKeepsMark(Do(w, effects[0]), effects[1..], f);
    }
  }

  /** What an ingest cut after so many writes does to the mark. */
  lemma IngestMarks(w: World, writes: nat, f: string)
    requires Inv(w) && ExhaustedIn(w.disk, f)
    ensures ExhaustedIn(Perform(w, Execute(IngestRound, writes)).disk, f)
       <==> !(BlockAccepted(w.disk, f) && writes >= |IngestRun(w.disk).effects|)
  {
    var d, run := w.disk, IngestRun(w.disk);
    var first, saved := IngestSaves(d);
    IngestAllowed(w);
    LoadedExhaustion(d, f);
    IngestCommand(d);
    CommandIs(w, IngestRound, writes, run.effects);
    if run.ok {
      SavedMark(LoadedView(d), Remaining(d), Outstanding(d.requests, d.ledger), saved, f);
      CutMarks(w, run.effects, writes, first, saved, f);
    } else {
      var n := if writes < |run.effects| then writes else |run.effects|;
      assert forall e | e in run.effects[..n] :: e in run.effects;
      NoSaveKeepsMark(w, run.effects[..n], f);
      assert run.effects[..|run.effects|] == run.effects;
    }
  }

  // ---- Over runs ----

  /** Blocking does not look at the mark: a block of the family with a reason, and an accepted batch with a blocked
      result for it, take it away, if they live to save the registry. */
  ghost predicate CommandRevokes(w: World, c: Command, writes: nat, f: string) {
    match c
    case BlockFamily(g, reason) => g == f && reason != "" && writes >= 2
    case IngestRound => BlockAccepted(w.disk, f) && writes >= |IngestRun(w.disk).effects|
    case _ => false
  }

  /** So does losing the file. */
  ghost predicate Revokes(w: World, step: Step, f: string) {
    step.LoseRegistry? || (step.Execute? && CommandRevokes(w, step.command, step.writes, f))
  }

  lemma CommandAlike(w: World, c: Command, f: string)
    requires Inv(w) && !(c.BlockFamily? && c.family == f) && !c.IngestRound?
    ensures SavesAlike(CommandRun(w.disk, c).effects, LoadedView(w.disk), f)
  {
    var d, view := w.disk, LoadedView(w.disk);
    match c
    case AddFamily(g, m) =>
      if CanAdd(view, g, m) {
        AppendThenSaveAlike(FamilyAdded(g, m), view[g := NewApproach(g, m)], view, f);
      }
    case BlockFamily(g, r) =>
      if CanBlock(view, g, r) {
        AppendThenSaveAlike(FamilyBlocked(g, r), view[g := BlockedApproach(view[g], r)], view, f);
      }
    case ReopenFamily(g, m) =>
      if CanReopen(view, g, m) {
        AppendThenSaveAlike(FamilyReopened(g, m), view[g := ReopenedApproach(view[g], m)], view, f);
      }
    case ListFamilies => ListAlike(d, f);
    case SeedFamilies(seeds) => SeedsAlike(view, view, seeds, f);
    case PlanRound(workers) => PlanAlike(w, workers, f);
  }

  lemma OtherCommandKeepsMark(w: World, c: Command, writes: nat, f: string)
    requires Inv(w) && ExhaustedIn(w.disk, f) && !(c.BlockFamily? && c.family == f) && !c.IngestRound?
    ensures ExhaustedIn(Perform(w, Execute(c, writes)).disk, f)
  {
    CommandAlike(w, c, f);
    LoadedExhaustion(w.disk, f);
    assert forall e | e in Written(w.disk, c, writes) :: e in CommandRun(w.disk, c).effects;
    SavesKeepMark(w, Written(w.disk, c, writes), LoadedView(w.disk), f);
  }

  lemma BlockMarks(w: World, f: string, reason: string, writes: nat)
    requires Inv(w) && ExhaustedIn(w.disk, f)
    ensures ExhaustedIn(Perform(w, Execute(BlockFamily(f, reason), writes)).disk, f) <==> !(reason != "" && writes >= 2)
  {
    var d, view := w.disk, LoadedView(w.disk);
    LoadedExhaustion(d, f);
    var c := BlockFamily(f, reason);
    if reason != "" {
      var saved := view[f := BlockedApproach(view[f], reason)];
      BlockSaves(w, f, reason, FamilyBlocked(f, reason), saved);
      if writes >= 2 {
        WrittenInFull(d, c, writes, [Append(FamilyBlocked(f, reason)), SaveRegistry(saved)]);
      } else {
        assert forall e | e in Written(d, c, writes) :: e == Append(FamilyBlocked(f, reason));
        SavesKeepMark(w, Written(d, c, writes), view, f);
      }
    }
  }

  lemma CommandMarks(w: World, c: Command, writes: nat, f: string)
    requires Inv(w) && ExhaustedIn(w.disk, f)
    ensures ExhaustedIn(Perform(w, Execute(c, writes)).disk, f) <==> !CommandRevokes(w, c, writes, f)
  {
    if c.IngestRound? {
      IngestMarks(w, writes, f);
    } else if c.BlockFamily? && c.family == f {
      BlockMarks(w, f, c.reason, writes);
    } else {
      OtherCommandKeepsMark(w, c, writes, f);
    }
  }

  /** Exactly these: a step takes the mark of an exhausted family away if and only if it is one of them. */
  lemma MarkStaysExactly(w: World, step: Step, f: string)
    requires Inv(w) && ExhaustedIn(w.disk, f)
    ensures ExhaustedIn(Perform(w, step).disk, f) <==> !Revokes(w, step, f)
  {
    if step.Execute? {
      CommandMarks(w, step.command, step.writes, f);
    }
  }

  ghost predicate NeverRevoked(w: World, steps: seq<Step>, f: string)
    decreases |steps|
  {
    steps == [] || (!Revokes(w, steps[0], f) && NeverRevoked(Perform(w, steps[0]), steps[1..], f))
  }

  /** No event of the list is work for the family. */
  ghost predicate NoWorkFor(es: Events, f: string) { forall e | e in es && e.RequestPublished? :: e.family != f }

  lemma CommandGivesNoWork(w: World, c: Command, f: string)
    requires Inv(w) && ExhaustedIn(w.disk, f)
    ensures NoWorkFor(Appended(CommandRun(w.disk, c).effects), f)
  {
    match c
    case PlanRound(workers) => ExhaustedGetNoWork(w, workers, f);
    case IngestRound => IngestGivesNoWork(w.disk);
    case SeedFamilies(seeds) => SeedsGiveNoWork(LoadedView(w.disk), seeds);
    case AddFamily(g, m) => OneEventGivesNoWork(FamilyAdded(g, m), LoadedView(w.disk)[g := NewApproach(g, m)]);
    case BlockFamily(g, r) =>
      if CanBlock(LoadedView(w.disk), g, r) {
        OneEventGivesNoWork(FamilyBlocked(g, r), LoadedView(w.disk)[g := BlockedApproach(LoadedView(w.disk)[g], r)]);
      }
    case ReopenFamily(g, m) =>
      if CanReopen(LoadedView(w.disk), g, m) {
        OneEventGivesNoWork(FamilyReopened(g, m), LoadedView(w.disk)[g := ReopenedApproach(LoadedView(w.disk)[g], m)]);
      }
    case ListFamilies => NothingAppendedBy(ListRun(w.disk).effects);
  }

  lemma {:induction false} OnlyListed(effects: seq<Effect>)
    requires forall e | e in effects && e.Append? :: !e.event.RequestPublished?
    ensures forall e | e in Appended(effects) :: !e.RequestPublished?
    decreases |effects|
  {
    if effects != [] {
      assert effects[0] in effects;
      OnlyListed(effects[1..]);
    }
  }

  lemma OneEventGivesNoWork(e: Event, saved: View)
    requires !e.RequestPublished?
    ensures forall x | x in Appended(After([Append(e)], SaveView(saved)).effects) :: !x.RequestPublished?
  {
    OnlyListed([Append(e)] + SaveView(saved).effects);
  }

  lemma {:induction false} SeedWrites(view: View, seeds: seq<Seed>)
    ensures forall e | e in SeedEffects(view, seeds).effects && e.Append? :: !e.event.RequestPublished?
    decreases |seeds|
  {
    if seeds != [] {
      if seeds[0].family in view {
        SeedWrites(view, seeds[1..]);
      } else {
        SeedWrites(view[seeds[0].family := NewApproach(seeds[0].family, seeds[0].mechanism)], seeds[1..]);
      }
    }
  }

  lemma SeedsGiveNoWork(view: View, seeds: seq<Seed>)
    ensures forall e | e in Appended(SeedEffects(view, seeds).effects) :: !e.RequestPublished?
  {
    SeedWrites(view, seeds);
    OnlyListed(SeedEffects(view, seeds).effects);
  }

  lemma {:induction false} IngestWrites(outstanding: map<string, string>, batch: seq<Collected>)
    ensures forall e | e in IngestEvents(outstanding, batch).effects && e.Append? :: e.event.ResultIngested?
  {
    if batch != [] {
      IngestWrites(outstanding, batch[1..]);
    }
  }

  lemma BatchWrites(view: View, outstanding: map<string, string>, batch: seq<Collected>)
    ensures forall e | e in BatchRun(view, outstanding, batch).effects && e.Append? :: !e.event.RequestPublished?
  {
    IngestWrites(outstanding, batch);
    ConsumingSavesNothing(Filenames(batch));
  }

  lemma IngestGivesNoWork(d: Disk)
    ensures forall e | e in Appended(IngestRun(d).effects) :: !e.RequestPublished?
  {
    var rest := IngestIsRest(d);
    ConsumingSavesNothing(Leftovers(d));
    RestWrites(LoadedView(d), d.requests, d.ledger, Remaining(d), Outstanding(d.requests, d.ledger));
    OnlyListed(IngestRun(d).effects);
  }

  lemma RestWrites(view: View, requests: map<string, Request>, es: Events, files: map<string, ResultFile>,
                   outstanding: map<string, string>)
    ensures forall e | e in IngestRest(view, requests, es, files, outstanding).effects && e.Append? ::
              !e.event.RequestPublished?
  {
    if Collectable(files, outstanding) {
      BatchWrites(view, outstanding, Batch(files));
    }
  }

  lemma {:induction false} AppendedOfPrefix(effects: seq<Effect>, n: nat)
    requires n <= |effects|
    ensures forall e | e in Appended(effects[..n]) :: e in Appended(effects)
    decreases n
  {
    if n > 0 {
      assert effects[..n][1..] == effects[1..][..n - 1];
      AppendedOfPrefix(effects[1..], n - 1);
    }
  }

  lemma StepGivesNoWork(w: World, step: Step, f: string)
    requires Inv(w) && ExhaustedIn(w.disk, f)
    ensures w.disk.ledger <= Perform(w, step).disk.ledger
    ensures NoWorkFor(Perform(w, step).disk.ledger[|w.disk.ledger|..], f)
  {
    match step
    case Execute(c, writes) =>
      var effects := CommandRun(w.disk, c).effects;
      CommandGivesNoWork(w, c, f);
      LedgerGrows(w, Written(w.disk, c, writes));
      AppendedOfPrefix(effects, if writes < |effects| then writes else |effects|);
      assert effects[..|effects|] == effects;
    case _ =>
  }

  /** As long as nothing takes the mark away, an exhausted family stays exhausted and is given no work, whatever
      commands run, are cut short, or lose the state. */
  lemma {:induction false} ExhaustedStayWithoutWork(w: World, steps: seq<Step>, f: string)
    requires Inv(w) && ExhaustedIn(w.disk, f) && NeverRevoked(w, steps, f)
    ensures ExhaustedIn(Continued(w, steps).disk, f)
    ensures w.disk.ledger <= Continued(w, steps).disk.ledger
    ensures NoWorkFor(Continued(w, steps).disk.ledger[|w.disk.ledger|..], f)
    decreases |steps|
  {
    if steps != [] {
      var w' := Perform(w, steps[0]);
      StepKeepsInv(w, steps[0]);
      MarkStaysExactly(w, steps[0], f);
      StepGivesNoWork(w, steps[0], f);
      ExhaustedStayWithoutWork(w', steps[1..], f);
      NoWorkTogether(w.disk.ledger, w'.disk.ledger, Continued(w', steps[1..]).disk.ledger, f);
    }
  }

  lemma NoWorkTogether(a: Events, b: Events, c: Events, f: string)
    requires a <= b <= c && NoWorkFor(b[|a|..], f) && NoWorkFor(c[|b|..], f)
    ensures NoWorkFor(c[|a|..], f)
  {
    assert c[|a|..] == b[|a|..] + c[|b|..];
  }

  lemma BlockSaves(w: World, f: string, reason: string, e: Event, saved: View)
    requires Inv(w) && CanBlock(LoadedView(w.disk), f, reason) && e == FamilyBlocked(f, reason)
    requires saved == LoadedView(w.disk)[f := BlockedApproach(LoadedView(w.disk)[f], reason)]
    ensures BlockRun(w.disk, f, reason).ok && BlockRun(w.disk, f, reason).effects == [Append(e), SaveRegistry(saved)]
    ensures DoAll(w, [Append(e), SaveRegistry(saved)]).disk.registry == Some(saved)
  {
    LoadedViewMirrors(w);
    MirrorIsSavable(LoadedView(w.disk), w.disk.ledger);
    var effects := [Append(e)] + [SaveRegistry(saved)];
    assert BlockRun(w.disk, f, reason).effects == effects;
    assert effects[1..] == [SaveRegistry(saved)] && [SaveRegistry(saved)][1..] == [];
    assert DoAll(w, effects) == DoAll(Do(w, Append(e)), [SaveRegistry(saved)]);
    assert DoAll(Do(w, Append(e)), [SaveRegistry(saved)]) == Do(Do(w, Append(e)), SaveRegistry(saved));
  }
}
