/** What a round ingest comes to, told by the events in the ledger and the files in the directory: when it succeeds,
    the events it appends, and the directory it leaves. */
module IngestOutcome {
  import opened Text
  import opened RequestIds
  import opened Registries
  import opened CampaignLedger
  import opened LedgerLaws
  import opened Inboxes
  import opened Campaigns
  import opened CampaignInvariant
  import opened CampaignSafety
  import opened IngestSafety

  /** The result file n answers a request that the ledger has no answer for. */
  ghost predicate Unanswered(d: Disk, n: string) {
    n in d.results && d.results[n].Envelope? && !Ingested(d.ledger, d.results[n].result.requestId)
  }

  ghost function UnansweredFiles(d: Disk): set<string> { set n | n in d.results && Unanswered(d, n) }

  lemma RemainingExactly(d: Disk)
    requires forall n | n in d.results :: d.results[n].Envelope?
    ensures Remaining(d).Keys == UnansweredFiles(d)
    ensures forall n | n in Remaining(d) :: Remaining(d)[n] == d.results[n]
    ensures forall n :: n in Leftovers(d) <==> n in d.results && !Unanswered(d, n)
  {
    forall n | n in d.results
      ensures n in Leftovers(d) <==> Ingested(d.ledger, d.results[n].result.requestId)
    {
      var id := d.results[n].result.requestId;
      assert id in AnsweredIds(d.ledger) <==> Ingested(d.ledger, id);
    }
  }

  // ---- When it succeeds ----

  /** A worker's answer in order: let through by the gate, well formed, to a published request, a block with its
      reason. */
  ghost predicate InOrder(d: Disk, n: string)
    requires n in d.results && d.results[n].Envelope?
  {
    var r := d.results[n].result;
    && d.results[n].gatePassed && r.wellFormed && (r.status == ResultBlocked ==> !Blank(r.blockReason))
    && exists e | IsPublication(d.ledger, e) :: e.id == r.requestId
  }

  lemma SafeRequestId(f: string, round: nat)
    requires ValidName(f)
    ensures SafeId(RequestId(f, round)) && !Blank(RequestId(f, round))
  {
    var id, digits := RequestId(f, round), Decimal(round);
    assert id[|f|] == '-' && |id| >= 4 && !Space('-');
    forall c | c in id ensures SafeChar(c) {
      var i :| 0 <= i < |id| && id[i] == c;
      assert c == if i < |f| then f[i] else if i < |f| + 3 then "--r"[i - |f|] else digits[i - |f| - 3];
    }
  }

  lemma AcceptableExactly(w: World, n: string)
    requires Inv(w) && Derivable(w.disk.requests, w.disk.ledger) && n in w.disk.results && Unanswered(w.disk, n)
    ensures Acceptable(w.disk.results[n], Outstanding(w.disk.requests, w.disk.ledger)) <==> InOrder(w.disk, n)
  {
    var es, id := w.disk.ledger, w.disk.results[n].result.requestId;
    OutstandingIsExact(w, id);
    if e :| IsPublication(es, e) && e.id == id {
      PublishedAreSafe(es, e);
    }
    AcceptableFile(w.disk, n, Outstanding(w.disk.requests, w.disk.ledger));
  }

  lemma AcceptableFile(d: Disk, n: string, outstanding: map<string, string>)
    requires n in d.results && d.results[n].Envelope?
    requires var id := d.results[n].result.requestId;
             && (id in outstanding <==> exists e | IsPublication(d.ledger, e) :: e.id == id)
             && (id in outstanding ==> SafeId(id) && !Blank(id))
    ensures Acceptable(d.results[n], outstanding) <==> InOrder(d, n)
  {
  }

  lemma PublishedAreSafe(es: Events, e: Event)
    requires Lawful(es) && IsPublication(es, e)
    ensures SafeId(e.id) && !Blank(e.id)
  {
    LawfulIds(es);
    assert Published(es, e.id, e.family);
    LawfulFamilies(es, e.family);
    SafeRequestId(e.family, e.round);
  }

  /** Some result file is unanswered, and the unanswered ones are in order and answer different requests. */
  ghost predicate AllInOrder(d: Disk) {
    && (exists n :: Unanswered(d, n))
    && (forall n | Unanswered(d, n) :: InOrder(d, n))
    && (forall n, m | Unanswered(d, n) && Unanswered(d, m) && n != m ::
          d.results[n].result.requestId != d.results[m].result.requestId)
  }

  /** Beside that, every result file can be read and every request file belongs to a publication. */
  ghost predicate Ingestible(d: Disk) {
    && (forall n | n in d.results :: d.results[n].Envelope?)
    && (forall id | id in d.requests :: exists e | IsPublication(d.ledger, e) :: e.id == id)
    && AllInOrder(d)
  }

  lemma IngestibleParts(d: Disk, derived: bool, files: map<string, ResultFile>, outstanding: map<string, string>)
    requires derived <==> forall id | id in d.requests :: exists e | IsPublication(d.ledger, e) :: e.id == id
    requires derived && (forall n | n in d.results :: d.results[n].Envelope?) ==>
               (Collectable(files, outstanding) <==> AllInOrder(d))
    ensures Ingestible(d) <==>
              (forall n | n in d.results :: d.results[n].Envelope?) && derived && Collectable(files, outstanding)
  {
  }

  lemma CollectableExactly(w: World)
    requires Inv(w) && Derivable(w.disk.requests, w.disk.ledger)
    requires forall n | n in w.disk.results :: w.disk.results[n].Envelope?
    ensures Collectable(Remaining(w.disk), Outstanding(w.disk.requests, w.disk.ledger)) <==> AllInOrder(w.disk)
  {
    var d := w.disk;
    RemainingExactly(d);
    forall n | Unanswered(d, n) ensures Acceptable(d.results[n], Outstanding(d.requests, d.ledger)) <==> InOrder(d, n) {
      AcceptableExactly(w, n);
    }
    CollectableFiles(d, Remaining(d), Outstanding(d.requests, d.ledger));
  }

  lemma IngestibleExactly(w: World)
    requires Inv(w)
    ensures AcceptsBatch(w.disk) <==> Ingestible(w.disk)
  {
    var d := w.disk;
    DerivableExactly(w);
    if (forall n | n in d.results :: d.results[n].Envelope?) && Derivable(d.requests, d.ledger) {
      CollectableExactly(w);
    }
    IngestibleParts(d, Derivable(d.requests, d.ledger), Remaining(d), Outstanding(d.requests, d.ledger));
  }

  lemma RunSucceeds(w: World, run: Run)
    requires Inv(w) && run == IngestRun(w.disk)
    ensures run.ok <==> AcceptsBatch(w.disk)
  {
    IngestAllowed(w);
  }

  /** Ingest succeeds on those directories, and on no other. */
  lemma IngestSucceedsExactly(w: World, run: Run)
    requires Inv(w) && run == CommandRun(w.disk, IngestRound)
    ensures run.ok <==> Ingestible(w.disk)
  {
    IngestCommand(w.disk);
    RunSucceeds(w, run);
    IngestibleExactly(w);
  }

  lemma CollectableFiles(d: Disk, files: map<string, ResultFile>, outstanding: map<string, string>)
    requires files.Keys == UnansweredFiles(d) && forall n | n in files :: files[n] == d.results[n]
    requires forall n | Unanswered(d, n) :: Acceptable(d.results[n], outstanding) <==> InOrder(d, n)
    ensures Collectable(files, outstanding) <==> AllInOrder(d)
  {
    forall n ensures n in files <==> Unanswered(d, n) {
      assert n in files <==> n in UnansweredFiles(d);
    }
    if n :| Unanswered(d, n) {
      assert n in files;
    }
  }

  // ---- What it appends ----

  /** The event that records the answer in the file n. */
  ghost predicate Records(d: Disk, n: string, e: Event) {
    && n in d.results && d.results[n].Envelope?
    && var r := d.results[n].result;
       && e.ResultIngested? && e.id == r.requestId && e.status == r.status && e.blockReason == r.blockReason
       && Published(d.ledger, e.id, e.family)
  }

  /** One event for each file, in that order. */
  ghost predicate RecordsEach(d: Disk, names: seq<string>, es: Events) {
    |es| == |names| && forall i | 0 <= i < |names| :: Records(d, names[i], es[i])
  }

  lemma {:induction false} EventsOfBatch(outstanding: map<string, string>, batch: seq<Collected>)
    requires IngestEvents(outstanding, batch).ok
    ensures var es := Appended(IngestEvents(outstanding, batch).effects);
            |es| == |batch| && forall i | 0 <= i < |batch| :: es[i] == IngestedEvent(outstanding, batch[i].result)
  {
    if batch != [] {
      EventsOfBatch(outstanding, batch[1..]);
      AppendedConcat([Append(IngestedEvent(outstanding, batch[0].result))],
                     IngestEvents(outstanding, batch[1..]).effects);
    }
  }

  lemma {:induction false} NothingAppended(names: seq<string>)
    ensures Appended(ConsumeAll(names)) == []
  {
    if names != [] {
      NothingAppended(names[1..]);
      assert ConsumeAll(names)[1..] == ConsumeAll(names[1..]);
    }
  }

  lemma BatchRecords(w: World, files: map<string, ResultFile>, names: seq<string>, outstanding: map<string, string>,
                     es: Events)
    requires OpenRequests(w.disk.ledger, outstanding) && Collectable(files, outstanding)
    requires forall n | n in files :: n in w.disk.results && files[n] == w.disk.results[n] && files[n].Envelope?
    requires names == Sorted(files.Keys) && |es| == |names|
    requires forall i | 0 <= i < |names| ::
               names[i] in files && es[i] == IngestedEvent(outstanding, files[names[i]].result)
    ensures RecordsEach(w.disk, names, es)
  {
    forall i | 0 <= i < |names| ensures Records(w.disk, names[i], es[i]) {
      assert Acceptable(files[names[i]], outstanding);
    }
  }

  /** The writes of an accepted ingest. */
  lemma AcceptedWrites(d: Disk, view: View, leftovers: seq<string>, files: map<string, ResultFile>,
                       outstanding: map<string, string>, blocked: Option<View>, names: seq<string>, events: seq<Effect>)
    requires Derivable(d.requests, d.ledger) && Collectable(files, outstanding)
    requires view == LoadedView(d) && blocked == BlockResults(view, outstanding, Batch(files)) && blocked.Some?
    requires names == Filenames(Batch(files)) && IngestEvents(outstanding, Batch(files)) == Run(events, true)
    ensures IngestWith(d, leftovers, files, outstanding).effects
         == ConsumeAll(leftovers) + (events + ConsumeAll(names) + SaveView(blocked.value).effects)
  {
  }

  lemma SavesAppendNothing(view: View)
    ensures Appended(SaveView(view).effects) == []
  {
  }

  lemma AcceptedAppends(leftovers: seq<string>, events: seq<Effect>, names: seq<string>, view: View)
    ensures Appended(ConsumeAll(leftovers) + (events + ConsumeAll(names) + SaveView(view).effects)) == Appended(events)
  {
    NothingAppended(leftovers);
    NothingAppended(names);
    SavesAppendNothing(view);
    AppendedConcat(events, ConsumeAll(names));
    AppendedConcat(events + ConsumeAll(names), SaveView(view).effects);
    AppendedConcat(ConsumeAll(leftovers), events + ConsumeAll(names) + SaveView(view).effects);
  }

  /** What is known of an accepted ingest. */
  lemma AcceptedParts(w: World)
    requires Inv(w) && IngestRun(w.disk).ok
    ensures var d := w.disk;
            && AcceptsBatch(d) && OpenRequests(d.ledger, Outstanding(d.requests, d.ledger))
            && Remaining(d).Keys == UnansweredFiles(d)
            && (forall n | n in Remaining(d) :: n in d.results && Remaining(d)[n] == d.results[n])
            && var batch, outstanding := Batch(Remaining(d)), Outstanding(d.requests, d.ledger);
               && BlockResults(LoadedView(d), outstanding, batch).Some? && IngestEvents(outstanding, batch).ok
  {
    var d := w.disk;
    IngestAllowed(w);
    OutstandingAreOpen(w);
    RemainingExactly(d);
    LoadedViewMirrors(w);
    BatchIsAnswerable(d.ledger, Remaining(d), Outstanding(d.requests, d.ledger));
    BatchAllowed(w, LoadedView(d), Outstanding(d.requests, d.ledger), Batch(Remaining(d)));
  }

  lemma {:induction false} FilenamesAre(files: map<string, ResultFile>, names: seq<string>)
    requires forall n | n in names :: n in files && files[n].Envelope?
    ensures Filenames(CollectedFrom(files, names)) == names
  {
    if names != [] {
      FilenamesAre(files, names[1..]);
    }
  }

  /** A successful ingest appends one event for each unanswered result file, in the order of the filenames: the answer
      that is in the file, for the family the request was published for. */
  lemma IngestAppends(w: World, run: Run)
    requires Inv(w) && run == CommandRun(w.disk, IngestRound) && run.ok
    ensures RecordsEach(w.disk, Sorted(UnansweredFiles(w.disk)), Appended(run.effects))
  {
    var d := w.disk;
    IngestCommand(d);
    AcceptedParts(w);
    var files, outstanding := Remaining(d), Outstanding(d.requests, d.ledger);
    AcceptedEffects(d, LoadedView(d), Leftovers(d), files, outstanding);
    RecordsOfBatch(w, files, Sorted(files.Keys), outstanding);
  }

  lemma AcceptedEffects(d: Disk, view: View, leftovers: seq<string>, files: map<string, ResultFile>,
                        outstanding: map<string, string>)
    requires Derivable(d.requests, d.ledger) && Collectable(files, outstanding) && view == LoadedView(d)
    requires BlockResults(view, outstanding, Batch(files)).Some? && IngestEvents(outstanding, Batch(files)).ok
    ensures var events := IngestEvents(outstanding, Batch(files)).effects;
            var effects := IngestWith(d, leftovers, files, outstanding).effects;
            && effects == ConsumeAll(leftovers)
                          + (events + ConsumeAll(Sorted(files.Keys))
                             + SaveView(BlockResults(view, outstanding, Batch(files)).value).effects)
            && Appended(effects) == Appended(events)
  {
    var events, blocked := IngestEvents(outstanding, Batch(files)).effects,
        BlockResults(view, outstanding, Batch(files));
    FilenamesAre(files, Sorted(files.Keys));
    AcceptedWrites(d, view, leftovers, files, outstanding, blocked, Sorted(files.Keys), events);
    AcceptedAppends(leftovers, events, Sorted(files.Keys), blocked.value);
  }

  lemma RecordsOfBatch(w: World, files: map<string, ResultFile>, names: seq<string>, outstanding: map<string, string>)
    requires OpenRequests(w.disk.ledger, outstanding) && Collectable(files, outstanding)
    requires forall n | n in files :: n in w.disk.results && files[n] == w.disk.results[n]
    requires names == Sorted(files.Keys) && IngestEvents(outstanding, CollectedFrom(files, names)).ok
    ensures RecordsEach(w.disk, names, Appended(IngestEvents(outstanding, CollectedFrom(files, names)).effects))
  {
    var batch := CollectedFrom(files, names);
    EventsOfBatch(outstanding, batch);
    assert forall i | 0 <= i < |names| :: names[i] in names;
    BatchRecords(w, files, names, outstanding, Appended(IngestEvents(outstanding, batch).effects));
  }

  // ---- What it leaves ----

  type Files = map<string, ResultFile>

  /** The listed files have moved from results to consumed. */
  ghost predicate Moved(results: Files, consumed: Files, results': Files, consumed': Files, names: set<string>) {
    && (forall n :: n in results' <==> n in results && n !in names)
    && (forall n | n in results' :: results'[n] == results[n])
    && (forall n :: n in consumed' <==> n in consumed || (n in results && n in names))
    && (forall n | n in consumed' :: consumed'[n] == if n in results && n in names then results[n] else consumed[n])
  }

  /** They have, and nothing else has changed. */
  ghost predicate Archived(d: Disk, d': Disk, names: set<string>) {
    && d' == d.(results := d'.results, consumed := d'.consumed)
    && Moved(d.results, d.consumed, d'.results, d'.consumed, names)
  }

  lemma MovedTwice(r: Files, c: Files, r1: Files, c1: Files, r2: Files, c2: Files, first: set<string>,
                   second: set<string>)
    requires Moved(r, c, r1, c1, first) && Moved(r1, c1, r2, c2, second)
    ensures Moved(r, c, r2, c2, first + second)
  {
  }

  lemma {:induction false} ConsumingArchives(w: World, names: seq<string>)
    ensures Archived(w.disk, DoAll(w, ConsumeAll(names)).disk, set n | n in names)
    ensures DoAll(w, ConsumeAll(names)).plans == w.plans
    decreases |names|
  {
    if names != [] {
      var d, d1 := w.disk, Apply(w.disk, Consume(names[0]));
      ConsumingArchives(Do(w, Consume(names[0])), names[1..]);
      assert ConsumeAll(names)[1..] == ConsumeAll(names[1..]);
      var d2 := DoAll(w, ConsumeAll(names)).disk;
      assert Moved(d.results, d.consumed, d1.results, d1.consumed, {names[0]});
      MovedTwice(d.results, d.consumed, d1.results, d1.consumed, d2.results, d2.consumed, {names[0]},
                 set n | n in names[1..]);
      assert (set n | n in names) == {names[0]} + set n | n in names[1..];
    }
  }

  ghost predicate OnlyAppends(effects: seq<Effect>) { forall e | e in effects :: e.Append? }

  lemma {:induction false} EventsOnly(outstanding: map<string, string>, batch: seq<Collected>)
    ensures OnlyAppends(IngestEvents(outstanding, batch).effects)
  {
    if batch != [] {
      EventsOnly(outstanding, batch[1..]);
    }
  }

  lemma {:induction false} AppendingOnly(w: World, effects: seq<Effect>)
    requires OnlyAppends(effects)
    ensures DoAll(w, effects) == w.(disk := w.disk.(ledger := w.disk.ledger + Appended(effects)))
    decreases |effects|
  {
    if effects == [] {
      assert w.disk.ledger + [] == w.disk.ledger;
    } else {
      var first, rest := effects[0], effects[1..];
      assert first in effects && forall e | e in rest :: e in effects;
      AppendingOnly(Do(w, first), rest);
      assert w.disk.ledger + [first.event] + Appended(rest) == w.disk.ledger + ([first.event] + Appended(rest));
    }
  }

  lemma AllMoved(d: Disk, d1: Disk, d2: Disk, d3: Disk, first: set<string>, second: set<string>)
    requires Archived(d, d1, first) && Archived(d2, d3, second)
    requires d2.results == d1.results && d2.consumed == d1.consumed
    requires forall n | n in d.results :: n in first || n in second
    ensures d3.results == map[] && d3.consumed == d.consumed + d.results
  {
    MovedTwice(d.results, d.consumed, d1.results, d1.consumed, d3.results, d3.consumed, first, second);
  }

  lemma InFourParts(w: World, a: seq<Effect>, b: seq<Effect>, c: seq<Effect>, e: seq<Effect>)
    ensures DoAll(w, a + (b + c + e)) == DoAll(DoAll(DoAll(DoAll(w, a), b), c), e)
  {
    DoAllConcat(w, a, b + c + e);
    DoAllConcat(DoAll(w, a), b + c, e);
    DoAllConcat(DoAll(w, a), b, c);
  }

  /** Archive, append, archive, save. */
  lemma AcceptedWorld(w: World, leftovers: seq<string>, outstanding: map<string, string>, batch: seq<Collected>,
                      events: seq<Effect>, names: seq<string>, view: View)
    requires SavableView(view) && events == IngestEvents(outstanding, batch).effects
    requires forall n | n in w.disk.results :: n in leftovers || n in names
    ensures var d := DoAll(w, ConsumeAll(leftovers) + (events + ConsumeAll(names) + SaveView(view).effects)).disk;
            && d.results == map[] && d.consumed == w.disk.consumed + w.disk.results
            && d.ledger == w.disk.ledger + Appended(events)
            && d.registry == Some(view) && d.requests == w.disk.requests && d.state == w.disk.state
  {
    var w1 := DoAll(w, ConsumeAll(leftovers));
    var w2 := DoAll(w1, events);
    var w3 := DoAll(w2, ConsumeAll(names));
    ConsumingArchives(w, leftovers);
    EventsOnly(outstanding, batch);
    AppendingOnly(w1, events);
    ConsumingArchives(w2, names);
    InFourParts(w, ConsumeAll(leftovers), events, ConsumeAll(names), SaveView(view).effects);
    SavedWorld(w3, view);
    AllMoved(w.disk, w1.disk, w2.disk, w3.disk, set n | n in leftovers, set n | n in names);
  }

  /** A completed ingest leaves no result file, has archived every one of them as it was, and has an answer in the
      ledger for each; the registry it saves says what that ledger records; requests and round state are untouched. */
  lemma IngestCompletes(w: World, run: Run)
    requires Inv(w) && run == CommandRun(w.disk, IngestRound) && run.ok
    ensures var d, d' := w.disk, DoAll(w, run.effects).disk;
            && d'.results == map[] && d'.consumed == d.consumed + d.results
            && d'.ledger == d.ledger + Appended(run.effects)
            && (forall n | n in d.results :: Ingested(d'.ledger, d.results[n].result.requestId))
            && d'.registry.Some? && Mirrors(d'.registry.value, d'.ledger)
            && d'.requests == d.requests && d'.state == d.state
  {
    var d := w.disk;
    IngestCommand(d);
    IngestAllowed(w);
    IngestAppends(w, run);
    AcceptedParts(w);
    RemainingExactly(d);
    var files, outstanding := Remaining(d), Outstanding(d.requests, d.ledger);
    AcceptedEffects(d, LoadedView(d), Leftovers(d), files, outstanding);
    var view := BlockResults(LoadedView(d), outstanding, Batch(files)).value;
    AcceptedWorld(w, Leftovers(d), outstanding, Batch(files), IngestEvents(outstanding, Batch(files)).effects,
                  Sorted(files.Keys), view);
    AllAreAnswered(d, Sorted(UnansweredFiles(d)), Appended(run.effects));
  }

  lemma SavedLast(first: seq<Effect>, view: View)
    requires SaveView(view).ok
    ensures var effects := first + SaveView(view).effects;
            effects != [] && effects[|effects| - 1] == SaveRegistry(view)
  {
  }

  /** And it saves the registry last. */
  lemma IngestEndsWithRegistry(w: World, run: Run)
    requires Inv(w) && run == CommandRun(w.disk, IngestRound) && run.ok
    ensures run.effects != [] && run.effects[|run.effects| - 1].SaveRegistry?
  {
    var d := w.disk;
    IngestCommand(d);
    AcceptedParts(w);
    ReadableRun(d);
    BatchEndsWithRegistry(d, Leftovers(d), Remaining(d), Outstanding(d.requests, d.ledger), run);
  }

  lemma BatchEndsWithRegistry(d: Disk, leftovers: seq<string>, files: map<string, ResultFile>,
                              outstanding: map<string, string>, run: Run)
    requires run == IngestWith(d, leftovers, files, outstanding) && run.ok
    requires Derivable(d.requests, d.ledger) && Collectable(files, outstanding)
    requires BlockResults(LoadedView(d), outstanding, Batch(files)).Some? && IngestEvents(outstanding, Batch(files)).ok
    ensures run.effects != [] && run.effects[|run.effects| - 1].SaveRegistry?
  {
    var events := IngestEvents(outstanding, Batch(files)).effects;
    var view := BlockResults(LoadedView(d), outstanding, Batch(files)).value;
    AcceptedEffects(d, LoadedView(d), leftovers, files, outstanding);
    SavedLast(events + ConsumeAll(Sorted(files.Keys)), view);
  }

  lemma AllAreAnswered(d: Disk, names: seq<string>, events: Events)
    requires RecordsEach(d, names, events) && forall n | Unanswered(d, n) :: n in names
    requires forall n | n in d.results :: d.results[n].Envelope?
    ensures forall n | n in d.results :: Ingested(d.ledger + events, d.results[n].result.requestId)
  {
    forall n | n in d.results ensures Ingested(d.ledger + events, d.results[n].result.requestId) {
      EachIsAnswered(d, names, events, n);
    }
  }

  lemma EachIsAnswered(d: Disk, names: seq<string>, events: Events, n: string)
    requires n in d.results && d.results[n].Envelope?
    requires RecordsEach(d, names, events) && (Unanswered(d, n) ==> n in names)
    ensures Ingested(d.ledger + events, d.results[n].result.requestId)
  {
    if Unanswered(d, n) {
      var i :| 0 <= i < |names| && names[i] == n;
      assert Records(d, names[i], events[i]) && events[i] in d.ledger + events;
    } else {
      var e :| e in d.ledger && e.ResultIngested? && e.id == d.results[n].result.requestId;
      assert e in d.ledger + events;
    }
  }

  lemma RefusedWrites(w: World, leftovers: seq<string>, files: map<string, ResultFile>,
                      outstanding: map<string, string>, run: Run)
    requires Inv(w) && (Derivable(w.disk.requests, w.disk.ledger) ==> OpenRequests(w.disk.ledger, outstanding))
    requires run == IngestWith(w.disk, leftovers, files, outstanding) && !run.ok
    ensures run.effects == ConsumeAll(leftovers)
  {
    IngestWithAllowed(w, leftovers, files, outstanding);
    assert ConsumeAll(leftovers) + [] == ConsumeAll(leftovers);
  }

  lemma ReadableRun(d: Disk)
    requires forall n | n in d.results :: d.results[n].Envelope?
    ensures IngestRun(d) == IngestWith(d, Leftovers(d), Remaining(d), Outstanding(d.requests, d.ledger))
  {
  }

  lemma UnreadableRun(d: Disk)
    requires !forall n | n in d.results :: d.results[n].Envelope?
    ensures IngestRun(d).effects == []
  {
  }

  lemma RefusedReadable(w: World, run: Run)
    requires Inv(w) && run == IngestRun(w.disk) && !run.ok
    requires forall n | n in w.disk.results :: w.disk.results[n].Envelope?
    ensures Archived(w.disk, DoAll(w, run.effects).disk, set n | n in Leftovers(w.disk))
  {
    var d := w.disk;
    if Derivable(d.requests, d.ledger) { OutstandingAreOpen(w); }
    ReadableRun(d);
    RefusedWrites(w, Leftovers(d), Remaining(d), Outstanding(d.requests, d.ledger), run);
    ConsumingArchives(w, Leftovers(d));
  }

  lemma NothingArchived(d: Disk)
    ensures Archived(d, d, {})
  {
  }

  /** A refused ingest appends nothing. It has archived the files that were answered before, if every file could be
      read, and has changed nothing else. */
  lemma IngestRefused(w: World, run: Run)
    requires Inv(w) && run == CommandRun(w.disk, IngestRound) && !run.ok
    ensures var d := w.disk;
            Archived(d, DoAll(w, run.effects).disk,
                     if forall n | n in d.results :: d.results[n].Envelope?
                     then set n | n in d.results && !Unanswered(d, n) else {})
  {
    var d := w.disk;
    IngestCommand(d);
    if forall n | n in d.results :: d.results[n].Envelope? {
      RefusedReadable(w, run);
      RemainingExactly(d);
      assert (set n | n in Leftovers(d)) == set n | n in d.results && !Unanswered(d, n);
    } else {
      UnreadableRun(d);
      NothingArchived(d);
    }
  }
}
