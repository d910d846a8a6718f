/** Envelopes left without their ledger event by a crash, and what becomes of them. */
module OrphanedEnvelopes {
  import opened Text
  import opened RequestIds
  import opened Registries
  import opened CampaignLedger
  import opened LedgerLaws
  import opened Dispatch
  import opened Inboxes
  import opened Campaigns
  import opened CampaignInvariant
  import opened CampaignSafety
  import opened PlanningSafety
  import opened IngestSafety
  import opened PlanSuccess
  import opened FreshRounds
  import opened CampaignRuns

  ghost predicate Orphaned(d: Disk, id: string) {
    id in d.requests && Publication(d.ledger, id).None?
  }

  // ---- How an envelope is orphaned ----

  /** A round plan that starts a fresh round, stopped right after the envelope of its first family, orphans it. */
  lemma CrashOrphans(w: World, workers: nat, view: View, plan: seq<string>, round: nat)
    requires Inv(w) && w.disk.state.Some? && Fresh(w.disk, workers) && view == LoadedView(w.disk)
    requires round == StartingRound(w.disk, workers) && plan == Plan(view, workers) && plan != []
    requires Sends(w.disk.requests, view, plan[0], round) && RequestId(plan[0], round) !in w.disk.requests
    ensures var id, recorded := RequestId(plan[0], round),
              RecordedState(w.disk.ledger, StartState(w.disk, workers), round, plan);
            var effects := PlanRun(w.disk, workers).effects;
            && |effects| >= 3
            && effects[..2] == [RecordPlan(recorded, workers), WriteRequest(RequestFor(view, plan[0], round))]
            && Orphaned(DoAll(w, effects[..2]).disk, id)
  {
    var s := RecordedState(w.disk.ledger, StartState(w.disk, workers), round, plan);
    var request := RequestFor(view, plan[0], round);
    FreshRun(w, workers, view, plan, round);
    FirstPublication(w.disk, view, s, plan, round, request);
    TwoWrites(PlanRun(w.disk, workers).effects, RecordPlan(s, workers),
              DispatchRun(w.disk, view, s, plan, round).effects, request);
    OrphanedBy(w, RecordPlan(s, workers), request);
  }

  lemma TwoWrites(effects: seq<Effect>, record: Effect, dispatch: seq<Effect>, request: Request)
    requires effects == [] + ([record] + dispatch) && |dispatch| >= 2 && dispatch[0] == WriteRequest(request)
    ensures |effects| >= 3 && effects[..2] == [record, WriteRequest(request)]
  {
    assert effects == [record] + dispatch;
    assert effects[..2] == [effects[0], effects[1]];
  }

  lemma OrphanedBy(w: World, record: Effect, request: Request)
    requires Inv(w) && record.RecordPlan? && request.id !in w.disk.requests
    ensures Orphaned(DoAll(w, [record, WriteRequest(request)]).disk, request.id)
  {
    var w1 := Do(w, record);
    assert [record, WriteRequest(request)][1..] == [WriteRequest(request)] && [WriteRequest(request)][1..] == [];
    assert DoAll(w, [record, WriteRequest(request)]) == DoAll(w1, [WriteRequest(request)]);
    assert DoAll(w1, [WriteRequest(request)]) == Do(w1, WriteRequest(request));
    NeverPublished(w, request.id);
  }

  lemma FirstPublication(d: Disk, view: View, s: RoundState, plan: seq<string>, round: nat, request: Request)
    requires plan != [] && Sends(d.requests, view, plan[0], round) && request == RequestFor(view, plan[0], round)
    requires request.id !in d.requests
    ensures var effects := DispatchRun(d, view, s, plan, round).effects;
            |effects| >= 2 && effects[0] == WriteRequest(request)
  {
    var first := PublicationEffects(d.requests, request);
    assert first == [WriteRequest(request), Append(PublicationEvent(request))];
    var pubs := PublishRun(d.requests, view, plan, round).effects;
    assert pubs == first + PublishRun(d.requests[request.id := request], view, plan[1..], round).effects;
    assert pubs[0] == first[0] && |pubs| >= 2;
  }

  lemma NeverPublished(w: World, id: string)
    requires Inv(w) && id !in w.disk.requests
    ensures Publication(w.disk.ledger, id).None?
  {
    PublicationFound(w.disk.ledger, id);
  }

  // ---- What becomes of it ----

  /** Allowed writes never touch an envelope that is there. */
  lemma {:induction false} EnvelopesStay(w: World, effects: seq<Effect>, id: string)
    requires AllAllowed(w, effects) && id in w.disk.requests
    ensures id in DoAll(w, effects).disk.requests && DoAll(w, effects).disk.requests[id] == w.disk.requests[id]
    decreases |effects|
  {
    if effects != [] {
      EnvelopesStay(Do(w, effects[0]), effects[1..], id);
    }
  }

  lemma {:induction false} AllowedPrefix(w: World, effects: seq<Effect>, n: nat)
    requires AllAllowed(w, effects) && n <= |effects|
    ensures AllAllowed(w, effects[..n])
    decreases n
  {
    if n > 0 {
      AllowedPrefix(Do(w, effects[0]), effects[1..], n - 1);
      assert effects[..n][1..] == effects[1..][..n - 1];
    }
  }

  lemma StepKeepsEnvelope(w: World, step: Step, id: string)
    requires Inv(w) && id in w.disk.requests
    ensures id in Perform(w, step).disk.requests && Perform(w, step).disk.requests[id] == w.disk.requests[id]
  {
    match step
    case Execute(c, writes) =>
      var effects := CommandRun(w.disk, c).effects;
      CommandAllowed(w, c);
      AllowedPrefix(w, effects, if writes < |effects| then writes else |effects|);
      assert effects[..|effects|] == effects;
      EnvelopesStay(w, Written(w.disk, c, writes), id);
    case _ =>
  }

  lemma {:induction false} RunKeepsEnvelope(w: World, steps: seq<Step>, id: string)
    requires Inv(w) && id in w.disk.requests
    ensures id in Continued(w, steps).disk.requests && Continued(w, steps).disk.requests[id] == w.disk.requests[id]
    decreases |steps|
  {
    if steps != [] {
      StepKeepsInv(w, steps[0]);
      StepKeepsEnvelope(w, steps[0], id);
      RunKeepsEnvelope(Perform(w, steps[0]), steps[1..], id);
    }
  }

  lemma OrphanStopsIngest(w: World, id: string)
    requires Inv(w) && Orphaned(w.disk, id)
    ensures !IngestRun(w.disk).ok
  {
    IngestAllowed(w);
    DerivableExactly(w);
  }

  /** The envelope's own publication: of its family, in its round, with its mechanism, which at that moment is the
      family's mechanism of record. */
  ghost predicate PublishedAsWritten(es: Events, from: nat, r: Request) {
    exists i | from <= i < |es| ::
      && es[i].RequestPublished? && es[i].envelope == r && es[i].id == r.id && es[i].family == r.family
          && es[i].round == r.round
      && MechanismOf(es[..i], r.family) == r.mechanism && !StandingOf(es[..i], r.family).Shut?
  }

  /** An orphaned envelope stays, whatever happens, and every ingest refuses, until the envelope's family is published
      in that very round with the envelope's mechanism. */
  lemma OrphanPersists(w: World, steps: seq<Step>, id: string)
    requires Inv(w) && Orphaned(w.disk, id)
    ensures var w', r := Continued(w, steps), w.disk.requests[id];
            || (Orphaned(w'.disk, id) && !IngestRun(w'.disk).ok)
            || PublishedAsWritten(w'.disk.ledger, |w.disk.ledger|, r)
  {
    var w' := Continued(w, steps);
    ContinuedKeepsInv(w, steps);
    RunKeepsEnvelope(w, steps, id);
    ContinuedGrowsLedger(w, steps);
    if Publication(w'.disk.ledger, id).None? {
      OrphanStopsIngest(w', id);
    } else {
      PublicationIsAsWritten(w, w', id);
    }
  }

  lemma PublicationIsAsWritten(w: World, w': World, id: string)
    requires Inv(w) && Inv(w') && Orphaned(w.disk, id) && w.disk.ledger <= w'.disk.ledger
    requires id in w'.disk.requests && w'.disk.requests[id] == w.disk.requests[id]
              && Publication(w'.disk.ledger, id).Some?
    ensures PublishedAsWritten(w'.disk.ledger, |w.disk.ledger|, w.disk.requests[id])
  {
    var es, es' := w.disk.ledger, w'.disk.ledger;
    PublicationFound(es', id);
    PublicationFound(es, id);
    var e := Publication(es', id).value;
    var i :| 0 <= i < |es'| && es'[i] == e;
    LawfulPrefix(es', i);
    assert forall k | 0 <= k < |es| && es[k].RequestPublished? ::
        es'[k] == es[k] && IsPublication(es, es[k]) && es[k].id != id;
    assert e.envelope == w'.disk.requests[id];
  }

  // ---- The wedge ----

  /** The family's envelope for the pending round is orphaned, the family may be worked on, and its mechanism of record
      is no longer the envelope's. */
  ghost predicate Wedged(d: Disk, f: string, round: nat) {
    var id := RequestId(f, round);
    && round >= 1 && d.state.Some? && d.state.value.round == round && Pending(d.state.value, round)
    && f in d.state.value.pendingPlan && Workable(d, f)
    && Orphaned(d, id) && d.requests[id].mechanism != MechanismOf(d.ledger, f)
  }

  lemma NotAllPublished(es: Events, plan: seq<string>, f: string, round: nat)
    requires f in plan && Publication(es, RequestId(f, round)).None?
    ensures RequestId(f, round) !in PublishedIds(es, round) && !AllPublished(es, plan, round)
  {
    PublicationFound(es, RequestId(f, round));
    assert forall e | e in es && e.RequestPublished? :: IsPublication(es, e);
  }

  lemma WedgedRound(w: World, f: string, round: nat, s: RoundState)
    requires Inv(w) && Wedged(w.disk, f, round) && w.disk.state == Some(s)
    ensures CurrentRound(w.disk.ledger, s) == round
  {
    NotAllPublished(w.disk.ledger, s.pendingPlan, f, round);
    assert !Marked(Marks(w.disk.ledger, s), round);
  }

  /** What a round plan comes to in a wedged directory: dispatching the pending plan, f included. */
  lemma WedgedPlan(w: World, f: string, round: nat, workers: nat, s: RoundState, view: View, todo: seq<string>)
    requires Inv(w) && Wedged(w.disk, f, round) && workers >= 1 && w.disk.state == Some(s) && view == LoadedView(w.disk)
    requires todo == Unpublished(w.disk.ledger, ValidActive(view, s.pendingPlan), round)
    ensures f in todo && f in view && Distinct(todo)
    ensures PlanRun(w.disk, workers)
         == DispatchRun(w.disk, view, s.(publishedRounds := Marks(w.disk.ledger, s)), todo, round)
  {
    LoadedViewMirrors(w);
    WorkableIsActive(w, f);
    NotAllPublished(w.disk.ledger, s.pendingPlan, f, round);
    PendingTodo(w.disk.ledger, view, s, round);
    WedgedRound(w, f, round, s);
    WedgedRun(w.disk, f, s, view, workers, todo);
  }

  lemma WedgedRun(d: Disk, f: string, s: RoundState, view: View, workers: nat, todo: seq<string>)
    requires d.state == Some(s) && s.round >= 1 && Pending(s, s.round) && workers >= 1
    requires view == LoadedView(d) && f in view && CurrentRound(d.ledger, s) == s.round
    requires todo == Unpublished(d.ledger, ValidActive(view, s.pendingPlan), s.round) && f in todo
    ensures PlanRun(d, workers) == DispatchRun(d, view, s.(publishedRounds := Marks(d.ledger, s)), todo, s.round)
  {
    assert s.(round := s.round, publishedRounds := Marks(d.ledger, s)) == s.(publishedRounds := Marks(d.ledger, s));
    assert PlanRun(d, workers) == StartRound(d, view, s, workers);
    assert CurrentPlan(view, s, s.round, workers) == ValidActive(view, s.pendingPlan);
  }

  /** In a wedged directory every round plan is refused, with any max-workers, and so is every ingest. */
  lemma WedgeRefuses(w: World, f: string, round: nat, workers: nat)
    requires Inv(w) && Wedged(w.disk, f, round)
    ensures !PlanRun(w.disk, workers).ok && !IngestRun(w.disk).ok
  {
    OrphanStopsIngest(w, RequestId(f, round));
    if workers >= 1 {
      var s, view := w.disk.state.value, LoadedView(w.disk);
      var todo := Unpublished(w.disk.ledger, ValidActive(view, s.pendingPlan), round);
      WedgedPlan(w, f, round, workers, s, view, todo);
      LoadedViewMirrors(w);
      PublishRunSucceeds(w.disk.requests, view, todo, round);
      SendableIsSends(w.disk.requests, view, w.disk.ledger, f, round);
    }
  }
}
