/** No answer is lost: a result file is archived only once its answer is in the ledger, wherever commands are cut. */
module KeptAnswers {
  import opened Text
  import opened Registries
  import opened CampaignLedger
  import opened LedgerLaws
  import opened Inboxes
  import opened Campaigns
  import opened CampaignInvariant
  import opened IngestSafety
  import opened IngestOutcome
  import opened PlanRetry
  import opened CampaignRuns

  /** Every archived file holds an answer the ledger has. */
  ghost predicate ArchiveIsAnswered(d: Disk) {
    forall n | n in d.consumed :: d.consumed[n].Envelope? && Ingested(d.ledger, d.consumed[n].result.requestId)
  }

  /** The write archives no file before its answer is in the ledger. */
  ghost predicate ArchivesAnswered(d: Disk, e: Effect) {
    e.Consume? && e.filename in d.results ==>
      d.results[e.filename].Envelope? && Ingested(d.ledger, d.results[e.filename].result.requestId)
  }

  ghost predicate AllArchiveAnswered(w: World, effects: seq<Effect>)
    decreases |effects|
  {
    effects == [] || (ArchivesAnswered(w.disk, effects[0]) && AllArchiveAnswered(Do(w, effects[0]), effects[1..]))
  }

  // ---- Writes that archive nothing ----

  ghost predicate NothingConsumed(effects: seq<Effect>) { forall e | e in effects :: !e.Consume? }

  lemma {:induction false} NothingConsumedIsFine(w: World, effects: seq<Effect>)
    requires NothingConsumed(effects)
    ensures AllArchiveAnswered(w, effects)
    decreases |effects|
  {
    if effects != [] {
      NothingConsumedIsFine(Do(w, effects[0]), effects[1..]);
    }
  }

  lemma {:induction false} SeedConsumesNothing(view: View, seeds: seq<Seed>)
    ensures NothingConsumed(SeedEffects(view, seeds).effects)
    decreases |seeds|
  {
    if seeds != [] {
      SeedConsumesNothing(view, seeds[1..]);
      SeedConsumesNothing(view[seeds[0].family := NewApproach(seeds[0].family, seeds[0].mechanism)], seeds[1..]);
    }
  }

  lemma PlanConsumesNothing(d: Disk, workers: nat)
    ensures NothingConsumed(PlanRun(d, workers).effects)
  {
    var s := if d.state.Some? then ReadState(d.state.value) else Recovered(d.ledger, workers);
    var d' := if d.state.Some? then d else d.(state := Some(s));
    var view, round := LoadedView(d), CurrentRound(d.ledger, s);
    RoundShape(d', view, s, round, CurrentPlan(view, s, round, workers), workers, round);
    ShapesConsumeNothing(RoundRun(d', view, s, round, CurrentPlan(view, s, round, workers), workers).effects, round,
                         view);
  }

  lemma ShapesConsumeNothing(effects: seq<Effect>, c: int, view: View)
    requires PlanShape(effects, c, view)
    ensures NothingConsumed(effects)
  {
    forall e | e in effects ensures !e.Consume? {
      assert ShapeOf(e, c, view);
    }
  }

  // ---- Ingest ----

  lemma {:induction false} AllArchiveTogether(w: World, a: seq<Effect>, b: seq<Effect>)
    requires AllArchiveAnswered(w, a) && AllArchiveAnswered(DoAll(w, a), b)
    ensures AllArchiveAnswered(w, a + b)
    decreases |a|
  {
    if a == [] {
      assert a + b == b;
    } else {
      AllArchiveTogether(Do(w, a[0]), a[1..], b);
      assert (a + b)[1..] == a[1..] + b;
    }
  }

  /** Archiving files that are answered. */
  lemma {:induction false} ConsumingAnswered(w: World, names: seq<string>)
    requires forall n | n in names && n in w.disk.results ::
               w.disk.results[n].Envelope? && Ingested(w.disk.ledger, w.disk.results[n].result.requestId)
    ensures AllArchiveAnswered(w, ConsumeAll(names))
    decreases |names|
  {
    if names != [] {
      assert names[0] in names && forall n | n in names[1..] :: n in names;
      ConsumingAnswered(Do(w, Consume(names[0])), names[1..]);
      assert ConsumeAll(names)[1..] == ConsumeAll(names[1..]);
    }
  }

  lemma AcceptedArchives(w: World, leftovers: seq<string>, outstanding: map<string, string>, batch: seq<Collected>,
                         events: seq<Effect>, names: seq<string>, view: View)
    requires events == IngestEvents(outstanding, batch).effects
    requires forall n | n in leftovers && n in w.disk.results ::
               w.disk.results[n].Envelope? && Ingested(w.disk.ledger, w.disk.results[n].result.requestId)
    requires forall n | n in names && n in w.disk.results ::
               w.disk.results[n].Envelope?
               && Ingested(w.disk.ledger + Appended(events), w.disk.results[n].result.requestId)
    ensures AllArchiveAnswered(w, ConsumeAll(leftovers) + (events + ConsumeAll(names) + SaveView(view).effects))
  {
    var w1 := DoAll(w, ConsumeAll(leftovers));
    var w2 := DoAll(w1, events);
    ConsumingAnswered(w, leftovers);
    ConsumingArchives(w, leftovers);
    EventsOnly(outstanding, batch);
    AppendingOnly(w1, events);
    NothingConsumedIsFine(w1, events);
    ConsumingAnswered(w2, names);
    NothingConsumedIsFine(DoAll(w2, ConsumeAll(names)), SaveView(view).effects);
    DoAllConcat(w1, events, ConsumeAll(names));
    AllArchiveTogether(w1, events, ConsumeAll(names));
    AllArchiveTogether(w1, events + ConsumeAll(names), SaveView(view).effects);
    AllArchiveTogether(w, ConsumeAll(leftovers), events + ConsumeAll(names) + SaveView(view).effects);
  }

  lemma LeftoversAnswered(d: Disk)
    requires forall n | n in d.results :: d.results[n].Envelope?
    ensures forall n | n in Leftovers(d) && n in d.results :: Ingested(d.ledger, d.results[n].result.requestId)
  {
    RemainingExactly(d);
  }

  lemma AcceptedIngestArchives(w: World, run: Run)
    requires Inv(w) && run == IngestRun(w.disk) && run.ok
    ensures AllArchiveAnswered(w, run.effects)
  {
    var d := w.disk;
    AcceptedParts(w);
    AllAnswered(w, run);
    LeftoversAnswered(d);
    AcceptedEffects(d, LoadedView(d), Leftovers(d), Remaining(d), Outstanding(d.requests, d.ledger));
    AcceptedRun(w, run, Leftovers(d), Remaining(d), Outstanding(d.requests, d.ledger));
  }

  lemma AllAnswered(w: World, run: Run)
    requires Inv(w) && run == IngestRun(w.disk) && run.ok
    ensures forall n | n in w.disk.results ::
              w.disk.results[n].Envelope?
              && Ingested(w.disk.ledger + Appended(run.effects), w.disk.results[n].result.requestId)
  {
    IngestCommand(w.disk);
    IngestAppends(w, run);
    AcceptedParts(w);
    AllAreAnswered(w.disk, Sorted(UnansweredFiles(w.disk)), Appended(run.effects));
  }

  lemma AcceptedRun(w: World, run: Run, leftovers: seq<string>, files: map<string, ResultFile>,
                    outstanding: map<string, string>)
    requires forall n | n in files :: files[n].Envelope?
    requires var batch := Batch(files);
             var blocked, events := BlockResults(LoadedView(w.disk), outstanding, batch),
               IngestEvents(outstanding, batch).effects;
             && blocked.Some? && Appended(run.effects) == Appended(events)
             && run.effects == ConsumeAll(leftovers)
                               + (events + ConsumeAll(Sorted(files.Keys)) + SaveView(blocked.value).effects)
    requires forall n | n in leftovers && n in w.disk.results ::
               w.disk.results[n].Envelope? && Ingested(w.disk.ledger, w.disk.results[n].result.requestId)
    requires forall n | n in w.disk.results ::
               w.disk.results[n].Envelope?
               && Ingested(w.disk.ledger + Appended(run.effects), w.disk.results[n].result.requestId)
    ensures AllArchiveAnswered(w, run.effects)
  {
    AcceptedArchives(w, leftovers, outstanding, Batch(files), IngestEvents(outstanding, Batch(files)).effects,
                     Sorted(files.Keys), BlockResults(LoadedView(w.disk), outstanding, Batch(files)).value);
  }

  lemma RefusedIngestArchives(w: World, run: Run)
    requires Inv(w) && run == IngestRun(w.disk) && !run.ok
    ensures AllArchiveAnswered(w, run.effects)
  {
    var d := w.disk;
    if forall n | n in d.results :: d.results[n].Envelope? {
      if Derivable(d.requests, d.ledger) { OutstandingAreOpen(w); }
      ReadableRun(d);
      RefusedWrites(w, Leftovers(d), Remaining(d), Outstanding(d.requests, d.ledger), run);
      LeftoversAnswered(d);
      ConsumingAnswered(w, Leftovers(d));
    } else {
      UnreadableRun(d);
    }
  }

  // ---- Every command, cut anywhere ----

  lemma CommandArchives(w: World, c: Command, run: Run)
    requires Inv(w) && run == CommandRun(w.disk, c)
    ensures AllArchiveAnswered(w, run.effects)
  {
    match c
    case AddFamily(f, m) => NothingConsumedIsFine(w, run.effects);
    case BlockFamily(f, reason) => NothingConsumedIsFine(w, run.effects);
    case ReopenFamily(f, m) => NothingConsumedIsFine(w, run.effects);
    case ListFamilies => NothingConsumedIsFine(w, run.effects);
    case SeedFamilies(seeds) =>
      SeedConsumesNothing(LoadedView(w.disk), seeds);
      NothingConsumedIsFine(w, run.effects);
    case PlanRound(workers) =>
      PlanConsumesNothing(w.disk, workers);
      NothingConsumedIsFine(w, run.effects);
    case IngestRound =>
      if run.ok { AcceptedIngestArchives(w, run); } else { RefusedIngestArchives(w, run); }
  }

  lemma {:induction false} ArchivePrefix(w: World, effects: seq<Effect>, n: nat)
    requires AllArchiveAnswered(w, effects) && n <= |effects|
    ensures AllArchiveAnswered(w, effects[..n])
    decreases n
  {
    if n > 0 {
      ArchivePrefix(Do(w, effects[0]), effects[1..], n - 1);
      assert effects[..n][1..] == effects[1..][..n - 1];
    }
  }

  lemma AnswersStay(es: Events, e: Event, id: string)
    requires Ingested(es, id)
    ensures Ingested(es + [e], id)
  {
    var x :| x in es && x.ResultIngested? && x.id == id;
    assert x in es + [e];
  }

  lemma OneWriteArchives(d: Disk, e: Effect)
    requires ArchiveIsAnswered(d) && ArchivesAnswered(d, e)
    ensures ArchiveIsAnswered(Apply(d, e))
  {
    var d' := Apply(d, e);
    forall n | n in d'.consumed
      ensures d'.consumed[n].Envelope? && Ingested(d'.ledger, d'.consumed[n].result.requestId)
    {
      if e.Append? { AnswersStay(d.ledger, e.event, d.consumed[n].result.requestId); }
    }
  }

  lemma {:induction false} WritesArchive(w: World, effects: seq<Effect>)
    requires ArchiveIsAnswered(w.disk) && AllArchiveAnswered(w, effects)
    ensures ArchiveIsAnswered(DoAll(w, effects).disk)
    decreases |effects|
  {
    if effects != [] {
      OneWriteArchives(w.disk, effects[0]);
      WritesArchive(Do(w, effects[0]), effects[1..]);
    }
  }

  lemma {:induction false} WritesKeep(w: World, effects: seq<Effect>, n: string, file: ResultFile)
    requires n in w.disk.results && w.disk.results[n] == file
    ensures var d' := DoAll(w, effects).disk;
            || (n in d'.results && d'.results[n] == file)
            || (n !in d'.results && n in d'.consumed && d'.consumed[n] == file)
    decreases |effects|
  {
    if effects != [] {
      if effects[0] == Consume(n) {
        ArchivedStays(Do(w, effects[0]), effects[1..], n, file);
      } else {
        WritesKeep(Do(w, effects[0]), effects[1..], n, file);
      }
    }
  }

  lemma {:induction false} ArchivedStays(w: World, effects: seq<Effect>, n: string, file: ResultFile)
    requires n !in w.disk.results && n in w.disk.consumed && w.disk.consumed[n] == file
    ensures var d' := DoAll(w, effects).disk; n !in d'.results && n in d'.consumed && d'.consumed[n] == file
    decreases |effects|
  {
    if effects != [] {
      ArchivedStays(Do(w, effects[0]), effects[1..], n, file);
    }
  }

  lemma StepArchives(w: World, step: Step)
    requires Inv(w) && ArchiveIsAnswered(w.disk)
    ensures ArchiveIsAnswered(Perform(w, step).disk)
  {
    match step
    case Execute(c, writes) =>
      var effects := CommandRun(w.disk, c).effects;
      CommandArchives(w, c, CommandRun(w.disk, c));
      ArchivePrefix(w, effects, if writes < |effects| then writes else |effects|);
      assert effects[..|effects|] == effects;
      WritesArchive(w, Written(w.disk, c, writes));
    case _ =>
  }

  lemma {:induction false} RunArchives(w: World, steps: seq<Step>)
    requires Inv(w) && ArchiveIsAnswered(w.disk)
    ensures ArchiveIsAnswered(Continued(w, steps).disk)
    decreases |steps|
  {
    if steps != [] {
      StepKeepsInv(w, steps[0]);
      StepArchives(w, steps[0]);
      RunArchives(Perform(w, steps[0]), steps[1..]);
    }
  }

  /** Over every run: what is archived under results/consumed is an answer that the ledger has. */
  lemma ArchivedAreAnswered(steps: seq<Step>)
    ensures ArchiveIsAnswered(Reached(steps).disk)
  {
    RunArchives(START, steps);
  }

  /** Over every run, whatever command comes next and wherever it is cut: a result file stays where it is, or it is
      archived as it was and its answer is in the ledger. */
  lemma NoAnswerIsLost(steps: seq<Step>, c: Command, writes: nat, n: string)
    requires n in Reached(steps).disk.results
    ensures var file, d' := Reached(steps).disk.results[n], Perform(Reached(steps), Execute(c, writes)).disk;
            || (n in d'.results && d'.results[n] == file)
            || (n in d'.consumed && d'.consumed[n] == file
                && file.Envelope? && Ingested(d'.ledger, file.result.requestId))
  {
    var w := Reached(steps);
    ReachedKeepsInv(steps);
    ArchivedAreAnswered(steps);
    StepArchives(w, Execute(c, writes));
    WritesKeep(w, Written(w.disk, c, writes), n, w.disk.results[n]);
  }
}
