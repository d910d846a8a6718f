/** A request file rewritten after its publication: over every run that follows, ingest refuses. */
module TamperedRequests {
  import opened Text
  import opened RequestIds
  import opened Registries
  import opened CampaignLedger
  import opened LedgerLaws
  import opened Inboxes
  import opened Campaigns
  import opened CampaignInvariant
  import opened CampaignSafety
  import opened IngestSafety
  import opened CampaignRuns

  /** Someone puts another assignment into a file under requests. */
  function Rewritten(w: World, name: string, r: Request): World {
    w.(disk := w.disk.(requests := w.disk.requests[name := r]))
  }

  /** The file is still what it was rewritten to, and differs from what the ledger published under its id for some
      family and round; the id has no answer. */
  ghost predicate Tampered(d: Disk, name: string, r: Request) {
    && name in d.requests && d.requests[name] == r && Altered(d.requests, d.ledger, name)
    && exists e | IsPublication(d.ledger, e) :: e.id == r.id && e.round >= 1 && r.id == RequestId(e.family, e.round)
  }

  /** A write that neither publishes nor answers the id, and leaves the file alone. */
  predicate Harmless(e: Effect, name: string, id: string) {
    && (e.Append? ==> !((e.event.RequestPublished? || e.event.ResultIngested?) && e.event.id == id))
    && (e.WriteRequest? ==> e.request.id != name)
  }

  ghost predicate AllHarmless(effects: seq<Effect>, name: string, id: string) {
    forall e | e in effects :: Harmless(e, name, id)
  }

  lemma HarmlessTogether(a: seq<Effect>, rest: Run, name: string, id: string)
    requires AllHarmless(a, name, id) && AllHarmless(rest.effects, name, id)
    ensures AllHarmless(After(a, rest).effects, name, id)
  {
  }

  // ---- No command does it harm ----

  lemma {:induction false} PublishIsHarmless(requests: map<string, Request>, view: View, todo: seq<string>, round: nat,
                                             name: string, id: string)
    requires name in requests && forall f | f in todo :: RequestId(f, round) != id
    ensures AllHarmless(PublishRun(requests, view, todo, round).effects, name, id)
    decreases |todo|
  {
    if todo != [] && todo[0] in view && !Blank(view[todo[0]].mechanism)
       && Publishable(requests, RequestFor(view, todo[0], round))
    {
      var r := RequestFor(view, todo[0], round);
      var rest := PublishRun(requests[r.id := r], view, todo[1..], round);
      PublishIsHarmless(requests[r.id := r], view, todo[1..], round, name, id);
      HarmlessTogether(PublicationEffects(requests, r), rest, name, id);
    }
  }

  /** What is published already is not published again. */
  lemma TodoIsOther(es: Events, plan: seq<string>, round: nat, id: string, e: Event)
    requires IsPublication(es, e) && e.id == id && e.round >= 1 && id == RequestId(e.family, e.round)
    ensures forall f | f in Unpublished(es, plan, round) :: RequestId(f, round) != id
  {
    forall f | f in Unpublished(es, plan, round) ensures RequestId(f, round) != id {
      assert e.round == round ==> id in PublishedIds(es, round);
      if RequestId(f, round) == id {
        RequestIdInjective(f, round, e.family, e.round);
      }
    }
  }

  lemma DispatchIsHarmless(d: Disk, view: View, s: RoundState, plan: seq<string>, round: nat, name: string, r: Request)
    requires Tampered(d, name, r)
    ensures AllHarmless(DispatchRun(d, view, s, Unpublished(d.ledger, plan, round), round).effects, name, r.id)
  {
    var e :| IsPublication(d.ledger, e) && e.id == r.id && e.round >= 1 && r.id == RequestId(e.family, e.round);
    TodoIsOther(d.ledger, plan, round, r.id, e);
    PublishIsHarmless(d.requests, view, Unpublished(d.ledger, plan, round), round, name, r.id);
  }

  lemma RoundIsHarmless(d: Disk, view: View, s: RoundState, round: nat, plan: seq<string>, workers: nat, name: string,
                        r: Request)
    requires Tampered(d, name, r)
    ensures AllHarmless(RoundRun(d, view, s, round, plan, workers).effects, name, r.id)
  {
    var here := s.(round := round, publishedRounds := Marks(d.ledger, s));
    DispatchIsHarmless(d, view, here, plan, round, name, r);
    DispatchIsHarmless(d, view, here.(pendingRound := round, pendingPlan := plan), plan, round, name, r);
  }

  lemma PlanIsHarmless(d: Disk, workers: nat, name: string, r: Request)
    requires Tampered(d, name, r)
    ensures AllHarmless(PlanRun(d, workers).effects, name, r.id)
  {
    var s := if d.state.Some? then ReadState(d.state.value) else Recovered(d.ledger, workers);
    var d' := if d.state.Some? then d else d.(state := Some(s));
    var round := CurrentRound(d.ledger, s);
    assert Tampered(d', name, r);
    RoundIsHarmless(d', LoadedView(d), s, round, CurrentPlan(LoadedView(d), s, round, workers), workers, name, r);
  }

  lemma {:induction false} SeedIsHarmless(view: View, seeds: seq<Seed>, name: string, id: string)
    ensures AllHarmless(SeedEffects(view, seeds).effects, name, id)
    decreases |seeds|
  {
    if seeds != [] {
      SeedIsHarmless(view, seeds[1..], name, id);
      SeedIsHarmless(view[seeds[0].family := NewApproach(seeds[0].family, seeds[0].mechanism)], seeds[1..], name, id);
    }
  }

  lemma {:induction false} ConsumeIsHarmless(names: seq<string>, name: string, id: string)
    ensures AllHarmless(ConsumeAll(names), name, id) && Appended(ConsumeAll(names)) == []
  {
    if names != [] {
      ConsumeIsHarmless(names[1..], name, id);
      assert ConsumeAll(names)[1..] == ConsumeAll(names[1..]);
    }
  }

  /** Ingest refuses, and appends nothing. */
  lemma IngestRefuses(d: Disk, name: string, r: Request)
    requires Tampered(d, name, r)
    ensures !IngestRun(d).ok && Appended(IngestRun(d).effects) == []
    ensures AllHarmless(IngestRun(d).effects, name, r.id)
  {
    AlteredIsRefused(d.requests, d.ledger, name);
    ConsumeIsHarmless(Leftovers(d), name, r.id);
    assert ConsumeAll(Leftovers(d)) + [] == ConsumeAll(Leftovers(d));
  }

  lemma CommandIsHarmless(d: Disk, c: Command, name: string, r: Request)
    requires Tampered(d, name, r)
    ensures AllHarmless(CommandRun(d, c).effects, name, r.id)
  {
    match c
    case AddFamily(f, m) =>
    case BlockFamily(f, reason) =>
    case ReopenFamily(f, m) =>
    case ListFamilies =>
    case SeedFamilies(seeds) => SeedIsHarmless(LoadedView(d), seeds, name, r.id);
    case PlanRound(workers) => PlanIsHarmless(d, workers, name, r);
    case IngestRound => IngestRefuses(d, name, r);
  }

  // ---- So it stays ----

  lemma HarmlessAppend(es: Events, e: Event, id: string)
    requires !((e.RequestPublished? || e.ResultIngested?) && e.id == id)
    ensures Answered(es + [e], id) <==> Answered(es, id)
    ensures forall i | LatestPublication(es, id, i) :: LatestPublication(es + [e], id, i) && (es + [e])[i] == es[i]
  {
    Extended(es, e);
  }

  lemma HarmlessKeeps(d: Disk, e: Effect, name: string, r: Request)
    requires Tampered(d, name, r) && Harmless(e, name, r.id)
    ensures Tampered(Apply(d, e), name, r)
  {
    if e.Append? {
      HarmlessAppend(d.ledger, e.event, r.id);
      Extended(d.ledger, e.event);
      var p :| IsPublication(d.ledger, p) && p.id == r.id && p.round >= 1 && r.id == RequestId(p.family, p.round);
      assert IsPublication(d.ledger + [e.event], p);
    }
  }

  lemma {:induction false} AllHarmlessKeep(w: World, effects: seq<Effect>, name: string, r: Request)
    requires Tampered(w.disk, name, r) && AllHarmless(effects, name, r.id)
    ensures Tampered(DoAll(w, effects).disk, name, r)
    decreases |effects|
  {
    if effects != [] {
      HarmlessKeeps(w.disk, effects[0], name, r);
      AllHarmlessKeep(Do(w, effects[0]), effects[1..], name, r);
    }
  }

  lemma StepKeepsTampered(w: World, step: Step, name: string, r: Request)
    requires Tampered(w.disk, name, r)
    ensures Tampered(Perform(w, step).disk, name, r)
  {
    match step
    case Execute(c, writes) =>
      CommandIsHarmless(w.disk, c, name, r);
      AllHarmlessKeep(w, Written(w.disk, c, writes), name, r);
    case _ =>
  }

  lemma {:induction false} RunKeepsTampered(w: World, steps: seq<Step>, name: string, r: Request)
    requires Tampered(w.disk, name, r)
    ensures Tampered(Continued(w, steps).disk, name, r)
    decreases |steps|
  {
    if steps != [] {
      StepKeepsTampered(w, steps[0], name, r);
      RunKeepsTampered(Perform(w, steps[0]), steps[1..], name, r);
    }
  }

  lemma OnePublicationEach(es: Events, e: Event)
    requires Lawful(es) && IsPublication(es, e)
    ensures exists i :: LatestPublication(es, e.id, i) && es[i] == e
    ensures e.round >= 1 && e.id == RequestId(e.family, e.round)
  {
    LawfulIds(es);
    UniquePublication(es, e);
    PublicationExactly(es, e.id);
  }

  /** In any directory a run reaches, let any file under requests be rewritten to an assignment that carries the id of
      a published, unanswered request and is not what was published. Whatever runs afterwards, the file stays, ingest
      refuses without appending anything, and the request is never answered. */
  lemma TamperingStopsIngest(before: seq<Step>, name: string, r: Request, e: Event, after: seq<Step>)
    requires IsPublication(Reached(before).disk.ledger, e) && e.id == r.id && e.envelope != r
    requires !Ingested(Reached(before).disk.ledger, r.id)
    ensures var d := Continued(Rewritten(Reached(before), name, r), after).disk;
            && name in d.requests && d.requests[name] == r
            && !IngestRun(d).ok && Appended(IngestRun(d).effects) == []
            && !Ingested(d.ledger, r.id)
  {
    var w := Reached(before);
    ReachedKeepsInv(before);
    OnePublicationEach(w.disk.ledger, e);
    RunKeepsTampered(Rewritten(w, name, r), after, name, r);
    IngestRefuses(Continued(Rewritten(w, name, r), after).disk, name, r);
  }
}
