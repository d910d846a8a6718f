/** A run that gets there: one family, one completed round, and a second round plan stopped between the envelope and its
    event. A good result for the first round is then refused, as it would not be without the orphan; and reopening
    the family with another mechanism wedges the campaign. */
module OrphanExample {
  import opened Text
  import opened RequestIds
  import opened Registries
  import opened CampaignLedger
  import opened LedgerLaws
  import opened Dispatch
  import opened Inboxes
  import opened Campaigns
  import opened CampaignInvariant
  import opened CampaignSafety
  import opened PlanningSafety
  import opened IngestSafety
  import opened PlanSuccess
  import opened FreshRounds
  import opened CampaignRuns
  import opened OrphanedEnvelopes
  import opened FairRuns

  const ADDED: Event := FamilyAdded("a", "m")
  const APPROACH: Approach := NewApproach("a", "m")

  // ---- Names and ids ----

  lemma NotBlank(s: string)
    requires s != "" && !Space(s[0])
    ensures !Blank(s)
  {
    assert s[0] in s;
  }

  lemma RoundIds()
    ensures RequestId("a", 1) == "a--r1" && RequestId("a", 2) == "a--r2"
  {
    assert Decimal(1) == "1" && Decimal(2) == "2";
  }

  lemma IdsAreSafe(round: nat, id: string)
    requires (round == 1 && id == "a--r1") || (round == 2 && id == "a--r2")
    ensures ValidRequest(Request(id, round, "a", "m"))
  {
    NotBlank(id);
    NotBlank("a");
  }

  lemma NameIsValid()
    ensures ValidName("a")
  {
    assert SplitDashes("a") == ["a"] by {
      assert "a"[1..] == "" && ['a'] + "" == "a";
    }
  }

  // ---- Adding the family ----

  const ADDING: Step := Execute(AddFamily("a", "m"), 2)

  const FIRST_DISK: Disk := EMPTY_DISK.(ledger := [ADDED], registry := Some(map["a" := APPROACH]))

  lemma NothingLoaded()
    ensures LoadedView(EMPTY_DISK) == map[]
  {
    assert Replay(map[], []) == map[];
  }

  lemma AfterAdding()
    ensures Perform(START, ADDING) == World(FIRST_DISK, [])
  {
    NothingLoaded();
    NameIsValid();
    var saved: View := map["a" := APPROACH];
    var effects := [Append(ADDED), SaveRegistry(saved)];
    assert map[]["a" := APPROACH] == saved;
    assert AddRun(EMPTY_DISK, "a", "m").effects == effects by {
      assert [Append(ADDED)] + [SaveRegistry(saved)] == effects;
    }
    TwoEffects(START, Append(ADDED), SaveRegistry(saved));
  }

  lemma TwoEffects(w: World, a: Effect, b: Effect)
    ensures DoAll(w, [a, b]) == Do(Do(w, a), b)
  {
    assert [a, b][1..] == [b] && [b][1..] == [];
    assert DoAll(Do(w, a), [b]) == Do(Do(w, a), b);
  }

  // ---- One family ----

  /** The family a is the only one, and it may be worked on with its first mechanism. */
  ghost predicate OnlyFamily(w: World) {
    && Inv(w) && (forall f :: Known(w.disk.ledger, f) <==> f == "a")
    && Workable(w.disk, "a") && MechanismOf(w.disk.ledger, "a") == "m"
  }

  lemma OnlyView(w: World, view: View)
    requires OnlyFamily(w) && view == LoadedView(w.disk)
    ensures "a" in view && view["a"].mechanism == "m" && Plan(view, 1) == ["a"]
  {
    LoadedViewMirrors(w);
    WorkableIsActive(w, "a");
    PlanIsLeast(view, 1);
    var plan := Plan(view, 1);
    assert "a" in ActiveFamilies(view);
    assert forall f | f in plan :: f == "a";
    assert plan != [] ==> plan[0] in plan;
  }

  function RequestOf(round: nat): Request { Request(RequestId("a", round), round, "a", "m") }

  /** A fresh round with that family, whose request is not there yet. */
  ghost predicate ReadyForRound(w: World, round: nat) {
    && OnlyFamily(w) && Fresh(w.disk, 1) && StartingRound(w.disk, 1) == round && (round == 1 || round == 2)
    && RequestId("a", round) !in w.disk.requests
  }

  lemma RoundSends(w: World, round: nat, view: View)
    requires ReadyForRound(w, round) && view == LoadedView(w.disk)
    ensures "a" in view && RequestFor(view, "a", round) == RequestOf(round) && Sends(w.disk.requests, view, "a", round)
  {
    OnlyView(w, view);
    RoundIds();
    IdsAreSafe(round, RequestId("a", round));
    NotBlank("m");
  }

  // ---- The first round, complete ----

  lemma FirstIsReady()
    ensures ReadyForRound(World(FIRST_DISK, []), 1)
  {
    var w := World(FIRST_DISK, []);
    AfterAdding();
    StepKeepsInv(START, ADDING);
    forall f ensures Known(FIRST_DISK.ledger, f) <==> f == "a" {
      assert ADDED in FIRST_DISK.ledger;
    }
    assert Front(FIRST_DISK.ledger) == [];
    var s := Recovered(FIRST_DISK.ledger, 1);
    assert s.round == 1 && s.pendingPlan == [] && s.publishedRounds == map[];
    assert RecordedRounds(FIRST_DISK.ledger) == {};
    assert Marks(FIRST_DISK.ledger, s) == map[];
  }

  lemma OnePublicationRun(requests: map<string, Request>, view: View, round: nat)
    requires Sends(requests, view, "a", round) && RequestFor(view, "a", round) == RequestOf(round)
    requires RequestId("a", round) !in requests
    ensures PublishRun(requests, view, ["a"], round)
         == Run([WriteRequest(RequestOf(round)), Append(PublicationEvent(RequestOf(round)))], true)
  {
    var r := RequestOf(round);
    assert ["a"][1..] == [];
    assert PublishRun(requests[r.id := r], view, [], round) == Run([], true);
    assert PublicationEffects(requests, r) == [WriteRequest(r), Append(PublicationEvent(r))];
  }

  /** What the first round plan comes to, once its plan is recorded. */
  lemma FirstDispatch(w: World, view: View, s: RoundState)
    requires ReadyForRound(w, 1) && view == LoadedView(w.disk)
    requires s == RecordedState(w.disk.ledger, StartState(w.disk, 1), 1, ["a"])
    requires DispatchRun(w.disk, view, s, ["a"], 1).ok
    ensures var r, es := RequestOf(1), w.disk.ledger + [PublicationEvent(RequestOf(1))];
            DispatchRun(w.disk, view, s, ["a"], 1).effects
            == [WriteRequest(r), Append(PublicationEvent(r)), SaveState(Advanced(s, s.publishedRounds, 1)),
                SaveRegistry(Reconcile(view, es))]
  {
    RoundSends(w, 1, view);
    OnePublicationRun(w.disk.requests, view, 1);
    var r, e := RequestOf(1), PublicationEvent(RequestOf(1));
    var pubs := [WriteRequest(r), Append(e)];
    WritesAppend(WriteRequest(r), e);
    var finish := FinishRun(w.disk.ledger + [e], view, s, 1);
    FinishIs(w.disk.ledger, e, view, s);
    assert DispatchRun(w.disk, view, s, ["a"], 1).effects == pubs + finish.effects;
    assert pubs + finish.effects
        == [WriteRequest(r), Append(e), SaveState(Advanced(s, s.publishedRounds, 1)),
            SaveRegistry(Reconcile(view, w.disk.ledger + [e]))];
  }

  lemma WritesAppend(first: Effect, e: Event)
    requires !first.Append?
    ensures Appended([first, Append(e)]) == [e]
  {
    assert [first, Append(e)][1..] == [Append(e)] && [Append(e)][1..] == [];
    assert Appended([Append(e)]) == [e] + Appended([]);
  }

  lemma FinishIs(es: Events, e: Event, view: View, s: RoundState)
    requires e == PublicationEvent(RequestOf(1)) && s.pendingPlan == ["a"] && FinishRun(es + [e], view, s, 1).ok
    ensures FinishRun(es + [e], view, s, 1).effects
         == [SaveState(Advanced(s, s.publishedRounds, 1)), SaveRegistry(Reconcile(view, es + [e]))]
  {
    assert e in es + [e] && e.RequestPublished? && e.round == 1 && e.id == RequestId("a", 1);
    assert RequestId("a", 1) in PublishedIds(es + [e], 1);
    assert AllPublished(es + [e], s.pendingPlan, 1);
    SavedWhole(Reconcile(view, es + [e]));
  }

  lemma SavedWhole(view: View)
    ensures SaveView(view).ok ==> SaveView(view).effects == [SaveRegistry(view)]
  {
  }

  lemma FirstDispatchOk(w: World, view: View, s: RoundState)
    requires ReadyForRound(w, 1) && view == LoadedView(w.disk) && w.disk.state.None?
    requires s == RecordedState(w.disk.ledger, StartState(w.disk, 1), 1, ["a"])
    ensures DispatchRun(w.disk, view, s, ["a"], 1).ok
  {
    OnlyView(w, view);
    var s0 := StartState(w.disk, 1);
    var save, record := SaveState(s0), RecordPlan(s, 1);
    RecoveredIsOk(w.disk.ledger, 1);
    AllowedKeepsInv(w, save);
    var w1 := Do(w, save);
    LoadedViewMirrors(w);
    CurrentIsStartable(w.disk.ledger, view, s0, 1);
    MirrorIsSane(view, w.disk.ledger);
    ScratchPlansAlike(view, 1);
    RecordAllowed(w1, view, s0, 1, ["a"], 1);
    AllowedKeepsInv(w1, record);
    var w2 := Do(w1, record);
    FreshTodo(w.disk.ledger, s0, 1, ["a"]);
    TodoIsReady(w.disk.ledger, view, ["a"], 1);
    MirrorIsFaithful(view, w.disk.ledger);
    RoundSends(w, 1, view);
    DispatchSucceeds(w2, view, s, ["a"], 1);
    assert DispatchRun(w2.disk, view, s, ["a"], 1) == DispatchRun(w.disk, view, s, ["a"], 1);
  }

  const PLANNING: Step := Execute(PlanRound(1), 6)

  /** The directory after one completed round. */
  ghost predicate OneRoundDone(w: World) {
    && Inv(w) && w.disk.ledger == [ADDED, PublicationEvent(RequestOf(1))]
    && w.disk.requests == map["a--r1" := RequestOf(1)] && w.disk.results == map[]
    && w.disk.state.Some? && w.disk.state.value.round == 2 && w.disk.state.value.pendingPlan == []
    && w.disk.state.value.publishedRounds.Keys == {1}
    && !ExhaustedIn(w.disk, "a") && NeverReopened(w.disk)
  }

  /** The registry file has no new mechanism for the family. */
  predicate NeverReopened(d: Disk) {
    d.registry.Some? && "a" in d.registry.value && d.registry.value["a"].lastNewMechanism == ""
  }

  lemma {:induction false} ReplayKeepsLast(view: View, es: Events, f: string)
    requires f in view
    ensures f in Replay(view, es) && Replay(view, es)[f].lastNewMechanism == view[f].lastNewMechanism
  {
    if es != [] {
      ReplayKeepsLast(view, Front(es), f);
    }
  }

  lemma LoadedLast(d: Disk)
    requires NeverReopened(d)
    ensures "a" in LoadedView(d) && LoadedView(d)["a"].lastNewMechanism == ""
  {
    ReplayKeepsLast(d.registry.value, d.ledger, "a");
  }

  lemma SixEffects(w: World, es: seq<Effect>)
    requires |es| == 6
    ensures DoAll(w, es) == Do(Do(Do(Do(Do(Do(w, es[0]), es[1]), es[2]), es[3]), es[4]), es[5])
  {
    TwoEffects(Do(Do(Do(Do(w, es[0]), es[1]), es[2]), es[3]), es[4], es[5]);
    var four := [es[0], es[1], es[2], es[3]];
    assert es == four + [es[4], es[5]];
    TwoMore(w, es[0], es[1], [es[2], es[3], es[4], es[5]]);
    TwoMore(Do(Do(w, es[0]), es[1]), es[2], es[3], [es[4], es[5]]);
    assert es == [es[0], es[1]] + [es[2], es[3], es[4], es[5]];
    assert [es[2], es[3], es[4], es[5]] == [es[2], es[3]] + [es[4], es[5]];
  }

  lemma TwoMore(w: World, a: Effect, b: Effect, rest: seq<Effect>)
    ensures DoAll(w, [a, b] + rest) == DoAll(Do(Do(w, a), b), rest)
  {
    assert ([a, b] + rest)[1..] == [b] + rest && ([b] + rest)[1..] == rest;
    assert DoAll(w, [a, b] + rest) == DoAll(Do(w, a), [b] + rest);
  }

  /** The writes of the first round plan, in order. */
  function SixWrites(s0: RoundState, s: RoundState, saved: View): seq<Effect> {
    [SaveState(s0), RecordPlan(s, 1), WriteRequest(RequestOf(1)), Append(PublicationEvent(RequestOf(1))),
     SaveState(Advanced(s, s.publishedRounds, 1)), SaveRegistry(saved)]
  }

  lemma FirstWrites(w: World, view: View, s0: RoundState, s: RoundState)
    requires w == World(FIRST_DISK, []) && view == LoadedView(FIRST_DISK) && s0 == StartState(FIRST_DISK, 1)
    requires s == RecordedState(FIRST_DISK.ledger, s0, 1, ["a"])
    ensures PlanRun(FIRST_DISK, 1).effects
         == SixWrites(s0, s, Reconcile(view, FIRST_DISK.ledger + [PublicationEvent(RequestOf(1))]))
  {
    FirstIsReady();
    OnlyView(w, view);
    FreshRun(w, 1, view, ["a"], 1);
    FirstDispatchOk(w, view, s);
    FirstDispatch(w, view, s);
    InOneList(s0, s, Reconcile(view, FIRST_DISK.ledger + [PublicationEvent(RequestOf(1))]),
              DispatchRun(FIRST_DISK, view, s, ["a"], 1).effects);
  }

  lemma InOneList(s0: RoundState, s: RoundState, saved: View, dispatch: seq<Effect>)
    requires dispatch == [WriteRequest(RequestOf(1)), Append(PublicationEvent(RequestOf(1))),
                          SaveState(Advanced(s, s.publishedRounds, 1)), SaveRegistry(saved)]
    ensures [SaveState(s0)] + ([RecordPlan(s, 1)] + dispatch) == SixWrites(s0, s, saved)
  {
  }

  /** What those writes leave of the first directory. */
  lemma SixWritten(w: World, s0: RoundState, s: RoundState, saved: View)
    requires w == World(FIRST_DISK, [])
    ensures var d := DoAll(w, SixWrites(s0, s, saved)).disk;
            && d.ledger == [ADDED] + [PublicationEvent(RequestOf(1))] && d.requests == map["a--r1" := RequestOf(1)]
            && d.results == map[] && d.registry == Some(saved) && d.state == Some(Advanced(s, s.publishedRounds, 1))
  {
    SixEffects(w, SixWrites(s0, s, saved));
    RoundIds();
  }

  lemma AfterFirstRound(w: World)
    requires w == Perform(World(FIRST_DISK, []), PLANNING)
    ensures OneRoundDone(w)
  {
    var w0 := World(FIRST_DISK, []);
    var view, s0 := LoadedView(FIRST_DISK), StartState(FIRST_DISK, 1);
    var s := RecordedState(FIRST_DISK.ledger, s0, 1, ["a"]);
    var saved := Reconcile(view, FIRST_DISK.ledger + [PublicationEvent(RequestOf(1))]);
    FirstIsReady();
    StepKeepsInv(w0, PLANNING);
    FirstWrites(w0, view, s0, s);
    PlanInFull(w0, 1, 6, SixWrites(s0, s, saved));
    FirstDone(w0, w, view, s0, s, saved);
  }

  lemma FirstDone(w0: World, w: World, view: View, s0: RoundState, s: RoundState, saved: View)
    requires w0 == World(FIRST_DISK, []) && w == DoAll(w0, SixWrites(s0, s, saved)) && Inv(w)
    requires view == LoadedView(FIRST_DISK)
              && saved == Reconcile(view, FIRST_DISK.ledger + [PublicationEvent(RequestOf(1))])
    requires s0 == StartState(FIRST_DISK, 1) && s == RecordedState(FIRST_DISK.ledger, s0, 1, ["a"])
    ensures OneRoundDone(w)
  {
    SixWritten(w0, s0, s, saved);
    SavedFirst(view, FIRST_DISK.ledger + [PublicationEvent(RequestOf(1))], saved);
    NothingPublishedYet(s0, s);
    assert [ADDED] + [PublicationEvent(RequestOf(1))] == [ADDED, PublicationEvent(RequestOf(1))];
  }

  lemma SavedFirst(view: View, es: Events, saved: View)
    requires view == LoadedView(FIRST_DISK) && saved == Reconcile(view, es)
    ensures "a" in saved && saved["a"].status != Exhausted && saved["a"].lastNewMechanism == ""
  {
    LoadedExhaustion(FIRST_DISK, "a");
    LoadedLast(FIRST_DISK);
    ReconcileKeepsExhaustion(view, es, "a");
    ReplayKeepsLast(view, es, "a");
  }

  lemma NothingPublishedYet(s0: RoundState, s: RoundState)
    requires s0 == StartState(FIRST_DISK, 1) && s == RecordedState(FIRST_DISK.ledger, s0, 1, ["a"])
    ensures Advanced(s, s.publishedRounds, 1).publishedRounds.Keys == {1}
  {
    assert RecordedRounds(FIRST_DISK.ledger) == {};
    assert s.publishedRounds == map[];
  }

  // ---- The second round, cut short ----

  const CRASHING: Step := Execute(PlanRound(1), 2)

  lemma SecondRecords(es: Events)
    requires es == [ADDED, PublicationEvent(RequestOf(1))]
    ensures forall f :: Known(es, f) <==> f == "a"
    ensures StandingOf(es, "a") == Untouched && MechanismOf(es, "a") == "m"
  {
    var e := PublicationEvent(RequestOf(1));
    assert Front(es) == [ADDED] && Front([ADDED]) == [] && Last(es) == e;
    assert ADDED in es;
    assert forall x | x in es :: x == ADDED || x == e;
    assert StandingOf([], "a") == Untouched && StandingOf([ADDED], "a") == Untouched;
    assert MechanismOf([ADDED], "a") == "m";
  }

  lemma SecondRounds(es: Events)
    requires es == [ADDED, PublicationEvent(RequestOf(1))]
    ensures RecordedRounds(es) == {1}
  {
    var e := PublicationEvent(RequestOf(1));
    assert e in es && e.RequestPublished? && e.round == 1;
    assert forall x | x in es :: x == ADDED || x == e;
    assert 1 in RecordedRounds(es);
    assert forall r | r in RecordedRounds(es) :: r == 1;
  }

  lemma SecondIsReady(w: World)
    requires OneRoundDone(w)
    ensures ReadyForRound(w, 2)
  {
    SecondRecords(w.disk.ledger);
    SecondRounds(w.disk.ledger);
    RoundIds();
    var s := w.disk.state.value;
    var marks := Marks(w.disk.ledger, s);
    assert marks.Keys == {1};
    assert !Marked(marks, 2);
  }

  /** The directory after the second round plan stopped between envelope and event. */
  ghost predicate SecondRoundCut(w: World) {
    && Inv(w) && w.disk.ledger == [ADDED, PublicationEvent(RequestOf(1))]
    && w.disk.requests == map["a--r1" := RequestOf(1), "a--r2" := RequestOf(2)]
    && w.disk.state.Some? && w.disk.state.value.round == 2 && Pending(w.disk.state.value, 2)
    && w.disk.state.value.pendingPlan == ["a"]
    && Orphaned(w.disk, "a--r2") && !ExhaustedIn(w.disk, "a") && NeverReopened(w.disk)
  }

  lemma AfterCrash(w: World, w': World)
    requires OneRoundDone(w) && w' == Perform(w, CRASHING)
    ensures SecondRoundCut(w') && w'.disk.results == map[]
  {
    var view := LoadedView(w.disk);
    SecondIsReady(w);
    StepKeepsInv(w, CRASHING);
    OnlyView(w, view);
    RoundSends(w, 2, view);
    RoundIds();
    CrashOrphans(w, 1, view, ["a"], 2);
    var s := RecordedState(w.disk.ledger, StartState(w.disk, 1), 2, ["a"]);
    PlanCommand(w.disk, 1);
    assert Written(w.disk, PlanRound(1), 2) == [RecordPlan(s, 1), WriteRequest(RequestOf(2))];
    TwoEffects(w, RecordPlan(s, 1), WriteRequest(RequestOf(2)));
  }

  // ---- A good result, refused ----

  const ANSWER: ResultFile := Envelope(true, Result("a--r1", Progress, "", true))

  const DROPPING: Step := DropResults(map["answer.json" := ANSWER])

  lemma AnswerIsAcceptable(outstanding: map<string, string>)
    requires "a--r1" in outstanding
    ensures Acceptable(ANSWER, outstanding)
  {
    NotBlank("a--r1");
  }

  /** The same directory without the orphan. */
  function Cleaned(w: World): World {
    w.(disk := w.disk.(requests := map["a--r1" := RequestOf(1)]))
  }

  lemma CleanedIsLawful(w: World)
    requires SecondRoundCut(w)
    ensures Inv(Cleaned(w))
  {
    RoundIds();
    SecondRecords(w.disk.ledger);
    forall e | IsPublication(w.disk.ledger, e) ensures e == PublicationEvent(RequestOf(1)) {
    }
    assert RequestsOk(Cleaned(w).disk.requests, w.disk.ledger);
  }

  /** The first round's request is outstanding, and nothing has been answered. */
  lemma FirstIsOutstanding(w: World, d: Disk)
    requires SecondRoundCut(w) && d == Cleaned(w).disk
    ensures Derivable(d.requests, d.ledger) && "a--r1" in Outstanding(d.requests, d.ledger)
    ensures AnsweredIds(d.ledger) == {}
  {
    RoundIds();
    CleanedIsLawful(w);
    DerivableExactly(Cleaned(w));
    NothingAnswered(d.ledger);
    PublicationFound(d.ledger, "a--r1");
    assert d.requests["a--r1"].id == "a--r1";
    OutstandingFor(d.requests, d.ledger, "a--r1");
  }

  lemma NothingAnswered(es: Events)
    requires es == [ADDED, PublicationEvent(RequestOf(1))]
    ensures AnsweredIds(es) == {} && (forall id :: !Answered(es, id))
    ensures IsPublication(es, PublicationEvent(RequestOf(1)))
  {
    assert PublicationEvent(RequestOf(1)) in es;
    assert forall x | x in es :: x == ADDED || x == PublicationEvent(RequestOf(1));
  }

  lemma NoLeftovers(d: Disk)
    requires AnsweredIds(d.ledger) == {} && forall n | n in d.results :: d.results[n].Envelope?
    ensures Remaining(d) == d.results
  {
    assert forall n :: n !in Leftovers(d);
  }

  /** Without the orphan the answer is accepted. */
  lemma CleanedAccepts(w: World)
    requires SecondRoundCut(w) && w.disk.results == map["answer.json" := ANSWER]
    ensures IngestRun(Cleaned(w).disk).ok
  {
    CleanedIsLawful(w);
    FirstIsOutstanding(w, Cleaned(w).disk);
    CleanedBatch(Cleaned(w).disk);
    IngestAllowed(Cleaned(w));
  }

  lemma CleanedBatch(d: Disk)
    requires Derivable(d.requests, d.ledger) && "a--r1" in Outstanding(d.requests, d.ledger)
    requires AnsweredIds(d.ledger) == {} && d.results == map["answer.json" := ANSWER]
    ensures AcceptsBatch(d)
  {
    NoLeftovers(d);
    AnswerIsCollectable(d.results, Outstanding(d.requests, d.ledger));
    AcceptedBatch(d);
  }

  lemma AnswerIsCollectable(files: map<string, ResultFile>, outstanding: map<string, string>)
    requires files == map["answer.json" := ANSWER] && "a--r1" in outstanding
    ensures Collectable(files, outstanding)
  {
    AnswerIsAcceptable(outstanding);
    assert "answer.json" in files;
  }

  lemma AcceptedBatch(d: Disk)
    requires Derivable(d.requests, d.ledger) && (forall n | n in d.results :: d.results[n].Envelope?)
    requires Remaining(d) == d.results && Collectable(d.results, Outstanding(d.requests, d.ledger))
    ensures AcceptsBatch(d)
  {
  }

  // ---- The run ----

  const STEPS: seq<Step> := [ADDING, PLANNING, CRASHING, DROPPING]

  lemma FourSteps(w: World)
    ensures Continued(w, STEPS) == Perform(Perform(Perform(Perform(w, ADDING), PLANNING), CRASHING), DROPPING)
  {
    assert STEPS[1..] == [PLANNING, CRASHING, DROPPING] && [PLANNING, CRASHING, DROPPING][1..] == [CRASHING, DROPPING];
    assert [CRASHING, DROPPING][1..] == [DROPPING] && [DROPPING][1..] == [];
    var w1 := Perform(w, ADDING);
    var w2 := Perform(w1, PLANNING);
    var w3 := Perform(w2, CRASHING);
    assert Continued(w, STEPS) == Continued(w1, [PLANNING, CRASHING, DROPPING]);
    assert Continued(w1, [PLANNING, CRASHING, DROPPING]) == Continued(w2, [CRASHING, DROPPING]);
    assert Continued(w2, [CRASHING, DROPPING]) == Continued(w3, [DROPPING]);
    assert Continued(w3, [DROPPING]) == Perform(w3, DROPPING);
  }

  lemma CutAfterFirst(w1: World, w2: World, w3: World)
    requires w1 == World(FIRST_DISK, []) && w2 == Perform(w1, PLANNING) && w3 == Perform(w2, CRASHING)
    ensures SecondRoundCut(w3)
  {
    AfterFirstRound(w2);
    AfterCrash(w2, w3);
  }

  lemma AfterDropping(w: World, w': World)
    requires SecondRoundCut(w) && w' == Perform(w, DROPPING)
    ensures SecondRoundCut(w') && w'.disk.results == map["answer.json" := ANSWER]
  {
    StepKeepsInv(w, DROPPING);
    DroppedOnly(w, map["answer.json" := ANSWER]);
  }

  lemma DroppedOnly(w: World, files: map<string, ResultFile>)
    ensures Perform(w, DropResults(files)) == w.(disk := w.disk.(results := files))
  {
  }

  lemma ReachedCut()
    ensures SecondRoundCut(Reached(STEPS)) && Reached(STEPS).disk.results == map["answer.json" := ANSWER]
  {
    var w1 := Perform(START, ADDING);
    AfterAdding();
    FourSteps(START);
    CutAfterFirst(w1, Perform(w1, PLANNING), Perform(Perform(w1, PLANNING), CRASHING));
    AfterDropping(Perform(Perform(w1, PLANNING), CRASHING), Reached(STEPS));
  }

  /** After these steps an envelope is orphaned; an acceptable answer to the first round's request, published and
      unanswered, is there; ingest refuses it; and it would not if the orphan were gone. */
  lemma OrphanIsReached()
    ensures var d := Reached(STEPS).disk;
            && Orphaned(d, "a--r2") && Published(d.ledger, "a--r1", "a") && !Ingested(d.ledger, "a--r1")
            && d.results == map["answer.json" := ANSWER] && Acceptable(ANSWER, map["a--r1" := "a"])
            && !IngestRun(d).ok && IngestRun(Cleaned(Reached(STEPS)).disk).ok
  {
    var w := Reached(STEPS);
    ReachedCut();
    OrphanAfterCut(w);
    OrphanStopsIngest(w, "a--r2");
    CleanedAccepts(w);
    AnswerIsAcceptable(map["a--r1" := "a"]);
  }

  lemma OrphanAfterCut(w: World)
    requires SecondRoundCut(w)
    ensures Orphaned(w.disk, "a--r2") && Published(w.disk.ledger, "a--r1", "a") && !Ingested(w.disk.ledger, "a--r1")
  {
    RoundIds();
    assert PublicationEvent(RequestOf(1)) in w.disk.ledger;
    assert forall x | x in w.disk.ledger :: x == ADDED || x == PublicationEvent(RequestOf(1));
  }

  // ---- And wedged ----

  const BLOCKING: Step := Execute(BlockFamily("a", "stuck"), 2)
  const REOPENING: Step := Execute(ReopenFamily("a", "n"), 2)

  lemma CutIsOnlyFamily(w: World)
    requires SecondRoundCut(w)
    ensures OnlyFamily(w)
  {
    SecondRecords(w.disk.ledger);
  }

  lemma AppendThenSave(e: Event, saved: View)
    requires SaveView(saved).ok
    ensures After([Append(e)], SaveView(saved)).effects == [Append(e), SaveRegistry(saved)]
  {
    SavedWhole(saved);
  }

  lemma AppendedAndSaved(w: World, e: Event, saved: View)
    ensures DoAll(w, [Append(e), SaveRegistry(saved)]).disk
         == w.disk.(ledger := w.disk.ledger + [e], registry := Some(saved))
  {
    TwoEffects(w, Append(e), SaveRegistry(saved));
  }

  /** A block or reopening that goes through: its event, then the registry. */
  lemma EventThenSaved(w: World, c: Command, e: Event, saved: View, w': World)
    requires Inv(w) && w' == Perform(w, Execute(c, 2))
    requires CommandRun(w.disk, c) == After([Append(e)], SaveView(saved)) && SaveView(saved).ok
    ensures Inv(w') && w'.disk == w.disk.(ledger := w.disk.ledger + [e], registry := Some(saved))
  {
    StepKeepsInv(w, Execute(c, 2));
    AppendThenSave(e, saved);
    CommandIs(w, c, 2, [Append(e), SaveRegistry(saved)]);
    AppendedAndSaved(w, e, saved);
  }

  lemma AfterBlocking(w: World, w': World)
    requires SecondRoundCut(w) && w' == Perform(w, BLOCKING)
    ensures Inv(w') && w'.disk.state == w.disk.state && w'.disk.requests == w.disk.requests
    ensures w'.disk.ledger == w.disk.ledger + [FamilyBlocked("a", "stuck")]
    ensures NeverReopened(w'.disk) && !ExhaustedIn(w'.disk, "a")
  {
    var view := LoadedView(w.disk);
    CutIsOnlyFamily(w);
    OnlyView(w, view);
    LoadedLast(w.disk);
    var saved := view["a" := BlockedApproach(view["a"], "stuck")];
    LoadedViewMirrors(w);
    MirrorIsSavable(view, w.disk.ledger);
    EventThenSaved(w, BlockFamily("a", "stuck"), FamilyBlocked("a", "stuck"), saved, w');
  }

  lemma BlockedRecords(es: Events, es': Events)
    requires es == [ADDED, PublicationEvent(RequestOf(1))] && es' == es + [FamilyBlocked("a", "stuck")]
    ensures Known(es', "a") && StandingOf(es', "a") == Shut("stuck") && MechanismOf(es', "a") == "m"
  {
    SecondRecords(es);
    assert Front(es') == es && Last(es') == FamilyBlocked("a", "stuck");
    assert ADDED in es';
  }

  lemma AfterReopening(w: World, es: Events, w': World)
    requires Inv(w) && es == [ADDED, PublicationEvent(RequestOf(1))]
              && w.disk.ledger == es + [FamilyBlocked("a", "stuck")]
    requires NeverReopened(w.disk) && !ExhaustedIn(w.disk, "a") && w' == Perform(w, REOPENING)
    ensures Inv(w') && w'.disk.state == w.disk.state && w'.disk.requests == w.disk.requests
    ensures w'.disk.ledger == w.disk.ledger + [FamilyReopened("a", "n")] && !ExhaustedIn(w'.disk, "a")
  {
    var view := LoadedView(w.disk);
    BlockedRecords(es, w.disk.ledger);
    LoadedViewMirrors(w);
    LoadedExhaustion(w.disk, "a");
    LoadedLast(w.disk);
    assert view["a"].status == Blocked && view["a"].mechanism == "m";
    assert CanReopen(view, "a", "n");
    var saved := view["a" := ReopenedApproach(view["a"], "n")];
    MirrorIsSavable(view, w.disk.ledger);
    EventThenSaved(w, ReopenFamily("a", "n"), FamilyReopened("a", "n"), saved, w');
  }

  lemma ReopenedIsWedged(w: World, w': World)
    requires SecondRoundCut(w) && w'.disk.state == w.disk.state && w'.disk.requests == w.disk.requests
    requires w'.disk.ledger == w.disk.ledger + [FamilyBlocked("a", "stuck")] + [FamilyReopened("a", "n")]
    requires !ExhaustedIn(w'.disk, "a")
    ensures Wedged(w'.disk, "a", 2)
  {
    ReopenedRecords(w.disk.ledger, w.disk.ledger + [FamilyBlocked("a", "stuck")], w'.disk.ledger, "a--r2");
    RoundIds();
  }

  lemma ReopenedRecords(es: Events, es1: Events, es2: Events, id: string)
    requires es == [ADDED, PublicationEvent(RequestOf(1))] && es1 == es + [FamilyBlocked("a", "stuck")]
    requires es2 == es1 + [FamilyReopened("a", "n")]
    ensures Known(es2, "a") && StandingOf(es2, "a") == Open && MechanismOf(es2, "a") == "n"
    ensures Publication(es2, id) == Publication(es, id)
  {
    BlockedRecords(es, es1);
    assert Front(es2) == es1 && Last(es2) == FamilyReopened("a", "n");
    assert Front(es1) == es && Last(es1) == FamilyBlocked("a", "stuck");
  }

  /** Two more commands, and the campaign is wedged: from here on, by the results about wedges, every round plan and
      every ingest is refused until the family is blocked or exhausted or the state file lost. */
  lemma WedgeIsReached()
    ensures Wedged(Reached(STEPS + [BLOCKING, REOPENING]).disk, "a", 2)
  {
    var w := Reached(STEPS);
    var w1 := Perform(w, BLOCKING);
    var w2 := Perform(w1, REOPENING);
    ReachedCut();
    AfterBlocking(w, w1);
    AfterReopening(w1, w.disk.ledger, w2);
    ReopenedIsWedged(w, w2);
    ContinuedConcat(START, STEPS, [BLOCKING, REOPENING]);
    TwoSteps(w);
  }

  lemma TwoSteps(w: World)
    ensures Continued(w, [BLOCKING, REOPENING]) == Perform(Perform(w, BLOCKING), REOPENING)
  {
    assert [BLOCKING, REOPENING][1..] == [REOPENING] && [REOPENING][1..] == [];
    assert Continued(w, [BLOCKING, REOPENING]) == Continued(Perform(w, BLOCKING), [REOPENING]);
  }
}
