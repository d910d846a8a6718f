/** The round ingest command keeps the campaign invariant, answers each request once, and saves the
    view its own events would replay to. */
module IngestSafety {
  import opened Text
  import opened RequestIds
  import opened Registries
  import opened CampaignLedger
  import opened LedgerLaws
  import opened Inboxes
  import opened Campaigns
  import opened CampaignInvariant
  import opened CampaignSafety
  import opened PlanningSafety

  // ---- The outstanding set ----

  lemma {:induction false} PublicationFound(es: Events, id: string)
    ensures Publication(es, id).Some? <==> exists e | IsPublication(es, e) :: e.id == id
    ensures Publication(es, id).Some? ==>
            IsPublication(es, Publication(es, id).value) && Publication(es, id).value.id == id
  {
    if es != [] {
      PublicationFound(Front(es), id);
      assert es == Front(es) + [Last(es)];
    }
  }

  lemma UniquePublication(es: Events, e: Event)
    requires Lawful(es) && IsPublication(es, e)
    ensures Publication(es, e.id) == Some(e)
  {
    PublicationFound(es, e.id);
    var p := Publication(es, e.id).value;
    var i :| 0 <= i < |es| && es[i] == e;
    var j :| 0 <= j < |es| && es[j] == p;
    if i < j { NoDoubleDispatch(es, i, j); }
    if j < i { NoDoubleDispatch(es, j, i); }
  }

  /** On a reachable directory the outstanding set can be derived exactly when every envelope belongs to a
      recorded publication: the one thing that can stand in the way is an envelope orphaned by a crash. */
  lemma DerivableExactly(w: World)
    requires Inv(w)
    ensures var d := w.disk;
            Derivable(d.requests, d.ledger) <==>
              forall id | id in d.requests :: exists e | IsPublication(d.ledger, e) :: e.id == id
  {
    var d := w.disk;
    LawfulIds(d.ledger);
    forall id ensures Publication(d.ledger, id).Some? <==> exists e | IsPublication(d.ledger, e) :: e.id == id {
      PublicationFound(d.ledger, id);
    }
    forall e | e in d.ledger && e.RequestPublished? ensures e.family != "" {
      assert IsPublication(d.ledger, e);
      PublishedAreKnown(d.ledger, e);
      LawfulFamilies(d.ledger, e.family);
    }
    forall id | id in d.requests && Publication(d.ledger, id).Some?
      ensures Untampered(d.ledger, d.requests[id])
    {
      PublicationFound(d.ledger, id);
      var e := Publication(d.ledger, id).value;
      assert d.requests[id] == e.envelope;
      EnvelopeFamily(d.ledger, e);
    }
  }

  lemma EnvelopeFamily(es: Events, e: Event)
    requires Lawful(es) && IsPublication(es, e)
    ensures e.envelope.family == e.family && e.envelope.id == e.id && e.envelope.round == e.round
  {
    var i :| 0 <= i < |es| && es[i] == e;
    LawfulPrefix(es, i);
  }

  /** Whenever it can be derived, the outstanding set is precisely the published and unanswered requests,
      each with the family the ledger recorded. */
  lemma OutstandingIsExact(w: World, id: string)
    requires Inv(w) && Derivable(w.disk.requests, w.disk.ledger)
    ensures var es, outstanding := w.disk.ledger, Outstanding(w.disk.requests, w.disk.ledger);
            && (id in outstanding <==> !Ingested(es, id) && exists e | IsPublication(es, e) :: e.id == id)
            && (forall e | IsPublication(es, e) && e.id == id && id in outstanding :: outstanding[id] == e.family)
  {
    OutstandingFor(w.disk.requests, w.disk.ledger, id);
    PublicationFound(w.disk.ledger, id);
    forall e | IsPublication(w.disk.ledger, e) && e.id == id
      ensures Publication(w.disk.ledger, id) == Some(e) && id in w.disk.requests
    {
      UniquePublication(w.disk.ledger, e);
    }
    if id in w.disk.requests { assert Untampered(w.disk.ledger, w.disk.requests[id]); }
  }

  lemma OutstandingFor(files: map<string, Request>, es: Events, id: string)
    ensures var outstanding := Outstanding(files, es);
            && (id in outstanding <==> !Answered(es, id) && exists n | n in files :: files[n].id == id)
            && (id in outstanding ==> outstanding[id] == PublishedFamily(es, id))
  {
  }

  // ---- Accepting a batch ----

  /** The result answers an outstanding request of this ledger. */
  ghost predicate Answerable(es: Events, outstanding: map<string, string>, c: Collected) {
    var id := c.result.requestId;
    && id in outstanding && Published(es, id, outstanding[id]) && !Ingested(es, id)
    && (c.result.status == ResultBlocked ==> c.result.blockReason != "")
  }

  ghost predicate AnswerableBatch(es: Events, outstanding: map<string, string>, batch: seq<Collected>) {
    && (forall c | c in batch :: Answerable(es, outstanding, c))
    && (forall i, j | 0 <= i < j < |batch| :: batch[i].result.requestId != batch[j].result.requestId)
  }

  /** Every listed request was published for that family and is unanswered. */
  ghost predicate OpenRequests(es: Events, outstanding: map<string, string>) {
    forall id | id in outstanding :: Published(es, id, outstanding[id]) && !Ingested(es, id)
  }

  lemma OutstandingAreOpen(w: World)
    requires Inv(w) && Derivable(w.disk.requests, w.disk.ledger)
    ensures OpenRequests(w.disk.ledger, Outstanding(w.disk.requests, w.disk.ledger))
  {
    var es, outstanding := w.disk.ledger, Outstanding(w.disk.requests, w.disk.ledger);
    forall id | id in outstanding ensures Published(es, id, outstanding[id]) && !Ingested(es, id) {
      OutstandingIsExact(w, id);
      var e :| IsPublication(es, e) && e.id == id;
    }
  }

  /** Each collected result was acceptable, and no two answer one request. */
  lemma CollectedFacts(files: map<string, ResultFile>, names: seq<string>, outstanding: map<string, string>)
    requires Collectable(files, outstanding) && Lists(names, files)
    ensures var batch := CollectedFrom(files, names);
            && (forall c | c in batch :: c.result.requestId in outstanding && ValidResult(c.result))
            && forall i, j | 0 <= i < j < |batch| :: batch[i].result.requestId != batch[j].result.requestId
  {
    var batch := CollectedFrom(files, names);
    assert forall i | 0 <= i < |names| :: names[i] in files;
    forall c | c in batch ensures c.result.requestId in outstanding && ValidResult(c.result) {
      var i :| 0 <= i < |batch| && batch[i] == c;
      assert Acceptable(files[names[i]], outstanding);
    }
  }

  lemma CollectedIsAnswerable(es: Events, files: map<string, ResultFile>, names: seq<string>,
                              outstanding: map<string, string>)
    requires OpenRequests(es, outstanding) && Collectable(files, outstanding) && Lists(names, files)
    ensures AnswerableBatch(es, outstanding, CollectedFrom(files, names))
  {
    CollectedFacts(files, names, outstanding);
  }

  lemma BatchIsAnswerable(es: Events, files: map<string, ResultFile>, outstanding: map<string, string>)
    requires OpenRequests(es, outstanding) && Collectable(files, outstanding)
    ensures AnswerableBatch(es, outstanding, Batch(files))
  {
    Dispatch.AscendingIsDistinct(Sorted(files.Keys));
    CollectedIsAnswerable(es, files, Sorted(files.Keys), outstanding);
  }

  /** What an accepted result does to the view. */
  function AfterResult(view: View, f: string, r: Result): View {
    if r.status == ResultBlocked && f in view then view[f := BlockedApproach(view[f], r.blockReason)] else view
  }

  lemma MirrorAfterResult(view: View, es: Events, f: string, r: Result)
    requires Lawful(es) && Mirrors(view, es) && LawfulNext(es, ResultIngested(r.requestId, f, r.status, r.blockReason))
    ensures f in view
    ensures Mirrors(AfterResult(view, f, r), es + [ResultIngested(r.requestId, f, r.status, r.blockReason)])
  {
    var e := ResultIngested(r.requestId, f, r.status, r.blockReason);
    Extended(es, e);
    LawfulFamilies(es, f);
    KnownAfter(es + [e], f);
    var view' := AfterResult(view, f, r);
    MirrorAfter(view, es, e, f, view'[f]);
    assert view' == view[f := view'[f]];
  }

  lemma AnswerableStays(es: Events, outstanding: map<string, string>, batch: seq<Collected>, e: Event)
    requires batch != [] && AnswerableBatch(es, outstanding, batch)
    requires e == IngestedEvent(outstanding, batch[0].result)
    ensures AnswerableBatch(es + [e], outstanding, batch[1..])
  {
    Extended(es, e);
    forall c | c in batch[1..] ensures Answerable(es + [e], outstanding, c) {
      var i :| 0 <= i < |batch| - 1 && batch[1..][i] == c;
      assert batch[i + 1] == c && batch[0].result.requestId != batch[i + 1].result.requestId;
      assert c in batch;
      var id := c.result.requestId;
      var p :| p in es && p.RequestPublished? && p.id == id && p.family == outstanding[id];
      assert p in es + [e];
    }
  }

  lemma FirstResultLawful(es: Events, outstanding: map<string, string>, batch: seq<Collected>)
    requires Lawful(es) && batch != [] && AnswerableBatch(es, outstanding, batch)
    ensures var e := IngestedEvent(outstanding, batch[0].result);
            LawfulNext(es, e) && ValidName(e.family)
  {
    assert batch[0] in batch;
    var e := IngestedEvent(outstanding, batch[0].result);
    LawfulFamilies(es, e.family);
  }

  /** Appending a batch's events: all of them happen, and the blocked view mirrors the longer ledger. */
  lemma {:induction false} BatchAllowed(w: World, view: View, outstanding: map<string, string>, batch: seq<Collected>)
    requires Inv(w) && Mirrors(view, w.disk.ledger) && AnswerableBatch(w.disk.ledger, outstanding, batch)
    ensures var run, blocked := IngestEvents(outstanding, batch), BlockResults(view, outstanding, batch);
            var w' := DoAll(w, run.effects);
            && run.ok && AllAllowed(w, run.effects) && Inv(w')
            && blocked.Some? && Mirrors(blocked.value, w'.disk.ledger)
    decreases |batch|
  {
    if batch != [] {
      var r := batch[0].result;
      var e := IngestedEvent(outstanding, r);
      assert batch[0] in batch;
      FirstResultLawful(w.disk.ledger, outstanding, batch);
      AppendKeepsInv(w, e);
      MirrorAfterResult(view, w.disk.ledger, e.family, r);
      AnswerableStays(w.disk.ledger, outstanding, batch, e);
      BatchAllowed(Do(w, Append(e)), AfterResult(view, e.family, r), outstanding, batch[1..]);
      assert IngestEvents(outstanding, batch).effects[1..] == IngestEvents(outstanding, batch[1..]).effects;
    }
  }

  lemma {:induction false} ConsumeAllowed(w: World, names: seq<string>)
    requires Inv(w)
    ensures var w' := DoAll(w, ConsumeAll(names));
            && AllAllowed(w, ConsumeAll(names)) && Inv(w') && Appended(ConsumeAll(names)) == []
            && w'.disk.(results := w.disk.results, consumed := w.disk.consumed) == w.disk && w'.plans == w.plans
    decreases |names|
  {
    if names != [] {
      var c := Consume(names[0]);
      AllowedKeepsInv(w, c);
      ConsumeAllowed(Do(w, c), names[1..]);
      assert ConsumeAll(names)[1..] == ConsumeAll(names[1..]);
    }
  }

  /** The whole effect of accepting a batch: every event, every file consumed, then the registry. */
  lemma BatchRunAllowed(w: World, view: View, outstanding: map<string, string>, batch: seq<Collected>)
    requires Inv(w) && Mirrors(view, w.disk.ledger) && AnswerableBatch(w.disk.ledger, outstanding, batch)
    ensures var run := BatchRun(view, outstanding, batch);
            var w' := DoAll(w, run.effects);
            && run.ok && AllAllowed(w, run.effects)
            && w'.disk.registry.Some? && Mirrors(w'.disk.registry.value, w'.disk.ledger)
  {
    BatchAllowed(w, view, outstanding, batch);
    var events := IngestEvents(outstanding, batch).effects;
    var blocked := BlockResults(view, outstanding, batch).value;
    var consume := ConsumeAll(Filenames(batch));
    var w1 := DoAll(w, events);
    ConsumeAllowed(w1, Filenames(batch));
    var w2 := DoAll(w1, consume);
    assert w2.disk.ledger == w1.disk.ledger;
    MirrorIsFaithful(blocked, w2.disk.ledger);
    SaveAllowed(w2, blocked);
    AllAllowedConcat(w, events, consume);
    AllAllowedConcat(w, events + consume, SaveView(blocked).effects);
    assert SaveView(blocked).effects == [SaveRegistry(blocked)] && [SaveRegistry(blocked)][1..] == [];
    assert DoAll(w2, [SaveRegistry(blocked)]) == Do(w2, SaveRegistry(blocked));
  }

  /** Leftovers consumed first, then an accepted batch. */
  lemma ConsumeThenBatch(w: World, view: View, outstanding: map<string, string>, batch: seq<Collected>,
                         leftovers: seq<string>)
    requires Inv(w) && Mirrors(view, w.disk.ledger) && AnswerableBatch(w.disk.ledger, outstanding, batch)
    ensures var run := After(ConsumeAll(leftovers), BatchRun(view, outstanding, batch));
            var w' := DoAll(w, run.effects);
            && run.ok && AllAllowed(w, run.effects)
            && w'.disk.registry.Some? && Mirrors(w'.disk.registry.value, w'.disk.ledger)
  {
    ConsumeAllowed(w, leftovers);
    var w1 := DoAll(w, ConsumeAll(leftovers));
    assert w1.disk.ledger == w.disk.ledger;
    BatchRunAllowed(w1, view, outstanding, batch);
    AllAllowedConcat(w, ConsumeAll(leftovers), BatchRun(view, outstanding, batch).effects);
  }

  /** All or nothing: refused batches append no event; accepted ones save a mirror of the longer ledger. */
  ghost predicate AllOrNothing(w: World, run: Run) {
    && AllAllowed(w, run.effects)
    && (!run.ok ==> Appended(run.effects) == [])
    && (run.ok ==> var w' := DoAll(w, run.effects);
                   w'.disk.registry.Some? && Mirrors(w'.disk.registry.value, w'.disk.ledger))
  }

  lemma IngestWithAllowed(w: World, leftovers: seq<string>, files: map<string, ResultFile>,
                          outstanding: map<string, string>)
    requires Inv(w) && (Derivable(w.disk.requests, w.disk.ledger) ==> OpenRequests(w.disk.ledger, outstanding))
    ensures var run := IngestWith(w.disk, leftovers, files, outstanding);
            && AllOrNothing(w, run)
            && (run.ok <==> Derivable(w.disk.requests, w.disk.ledger) && Collectable(files, outstanding))
  {
    var d := w.disk;
    if Derivable(d.requests, d.ledger) && Collectable(files, outstanding) {
      BatchIsAnswerable(d.ledger, files, outstanding);
      LoadedViewMirrors(w);
      ConsumeThenBatch(w, LoadedView(d), outstanding, Batch(files), leftovers);
    } else {
      ConsumeAllowed(w, leftovers);
      assert ConsumeAll(leftovers) + REFUSED.effects == ConsumeAll(leftovers);
    }
  }

  ghost predicate AcceptsBatch(d: Disk) {
    && (forall n | n in d.results :: d.results[n].Envelope?)
    && Derivable(d.requests, d.ledger)
    && Collectable(Remaining(d), Outstanding(d.requests, d.ledger))
  }

  /** Ingest succeeds exactly when every result file is readable, the outstanding set can be derived and the
      batch is acceptable; a refused batch leaves the ledger as it was; an accepted one saves a registry that
      says what the ledger, its new events included, records. */
  lemma IngestAllowed(w: World)
    requires Inv(w)
    ensures AllOrNothing(w, IngestRun(w.disk))
    ensures IngestRun(w.disk).ok <==> AcceptsBatch(w.disk)
  {
    var d := w.disk;
    if Derivable(d.requests, d.ledger) {
      OutstandingAreOpen(w);
    }
    IngestWithAllowed(w, Leftovers(d), Remaining(d), Outstanding(d.requests, d.ledger));
  }
}
