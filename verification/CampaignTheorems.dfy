/** What holds of a campaign over every run. */
module CampaignTheorems {
  import opened Text
  import opened Registries
  import opened CampaignLedger
  import opened LedgerLaws
  import opened Inboxes
  import opened Campaigns
  import opened CampaignInvariant
  import opened CampaignSafety
  import opened IngestSafety
  import opened CampaignRuns

  // ---- The materialised view ----

  /** Whatever registry file is on disk, stale or missing, loading it gives every family of the ledger, and no
      other, the mechanism, status, attempts and block reason the ledger records, but for the standing of families
      marked exhausted: the same as rebuilding from an empty registry. Loading again changes nothing. */
  lemma ViewAgreesWithLedger(steps: seq<Step>)
    ensures var d := Reached(steps).disk;
            && Mirrors(LoadedView(d), d.ledger)
            && (forall f :: f in LoadedView(d) <==> f in Reconcile(map[], d.ledger))
            && (forall f | f in LoadedView(d) :: Agrees(LoadedView(d)[f], Reconcile(map[], d.ledger)[f]))
            && Reconcile(LoadedView(d), d.ledger) == LoadedView(d)
  {
    var w := Reached(steps);
    ReachedKeepsInv(steps);
    LoadedViewMirrors(w);
    ReconcileMirrors(map[], w.disk.ledger);
    ReconcileIdempotent(if w.disk.registry.Some? then w.disk.registry.value else map[], w.disk.ledger);
    AgreeingViews(LoadedView(w.disk), Reconcile(map[], w.disk.ledger), w.disk.ledger);
  }

  lemma AgreeingViews(view: View, rebuilt: View, es: Events)
    requires Mirrors(view, es) && Mirrors(rebuilt, es) && rebuilt == Reconcile(map[], es)
    ensures forall f | f in view :: f in rebuilt && Agrees(view[f], rebuilt[f])
  {
    forall f | f in view ensures f in rebuilt && Agrees(view[f], rebuilt[f]) {
      assert f in rebuilt;
      ReconcileKeepsExhaustion(map[], es, f);
    }
  }

  // ---- Rounds ----

  /** Everything ever published in a round fits one recorded plan, no larger than the max-workers of the
      invocation that recorded it, however often the state file was lost. */
  lemma OneBoundedPlanPerRound(steps: seq<Step>, round: int)
    ensures var w := Reached(steps);
            (exists e | IsPublication(w.disk.ledger, e) :: e.round == round) ==>
              exists p | p in w.plans ::
                && p.round == round && |p.plan| <= p.workers
                && forall e | IsPublication(w.disk.ledger, e) && e.round == round :: e.family in p.plan
  {
    var w := Reached(steps);
    ReachedKeepsInv(steps);
    if exists e | IsPublication(w.disk.ledger, e) :: e.round == round {
      var e :| IsPublication(w.disk.ledger, e) && e.round == round;
      var p :| p in w.plans && Covers(p, w.disk.ledger, e.round);
    }
  }

  /** So no round ever dispatches more families than its planner had workers. */
  lemma RoundsAreBounded(steps: seq<Step>, round: int)
    requires PublishedIds(Reached(steps).disk.ledger, round) != {}
    ensures exists p | p in Reached(steps).plans ::
              p.round == round && |PublishedIds(Reached(steps).disk.ledger, round)| <= p.workers
  {
    var w := Reached(steps);
    var es := w.disk.ledger;
    ReachedKeepsInv(steps);
    OneBoundedPlanPerRound(steps, round);
    var id :| id in PublishedIds(es, round);
    var e :| IsPublication(es, e) && e.round == round && e.id == id;
    var p :| p in w.plans && p.round == round && |p.plan| <= p.workers
             && forall e | IsPublication(es, e) && e.round == round :: e.family in p.plan;
    LawfulIds(es);
    assert PublishedIds(es, round) <= Ids(p.plan, round);
    IdsAreFew(p.plan, round);
    SubsetIsSmaller(PublishedIds(es, round), Ids(p.plan, round));
  }

  lemma {:induction false} IdsAreFew(fs: seq<string>, round: nat)
    ensures |Ids(fs, round)| <= |fs|
  {
    if fs != [] {
      IdsAreFew(fs[1..], round);
      IdsOfFirst(fs, round);
    }
  }

  lemma {:induction false} SubsetIsSmaller<T>(a: set<T>, b: set<T>)
    requires a <= b
    ensures |a| <= |b|
  {
    if a != {} {
      var x :| x in a;
      SubsetIsSmaller(a - {x}, b - {x});
    }
  }

  /** Over every run: no family is dispatched twice in a round, rounds never go back, no request is answered
      twice or before it is published, and a family receives work only while it is not blocked. */
  lemma HistoryIsSound(steps: seq<Step>, i: nat, j: nat)
    requires var es := Reached(steps).disk.ledger; i < j < |es|
    ensures var es := Reached(steps).disk.ledger;
            && (es[i].RequestPublished? && es[j].RequestPublished? ==>
                  es[i].round <= es[j].round && es[i].id != es[j].id
                  && !(es[i].family == es[j].family && es[i].round == es[j].round))
            && (es[i].ResultIngested? && es[j].ResultIngested? ==> es[i].id != es[j].id)
            && (es[j].ResultIngested? ==>
                  exists k | 0 <= k < j ::
                    es[k].RequestPublished? && es[k].id == es[j].id && es[k].family == es[j].family)
            && (es[j].RequestPublished? ==> !StandingOf(es[..j], es[j].family).Shut?)
  {
    var es := Reached(steps).disk.ledger;
    ReachedKeepsInv(steps);
    if es[i].RequestPublished? && es[j].RequestPublished? { NoDoubleDispatch(es, i, j); }
    if es[j].ResultIngested? { ExactlyOnceIngestion(es, i, j); }
    if es[j].RequestPublished? { BlockedFamiliesReceiveNoWork(es, j); }
  }

  // ---- Outstanding requests ----

  /** In every reachable directory the outstanding set, when it can be derived, is exactly the published and
      unanswered requests; and it can be derived unless some envelope was orphaned by a crash before its event. */
  lemma OutstandingOverRuns(steps: seq<Step>, id: string)
    ensures var d := Reached(steps).disk;
            && (Derivable(d.requests, d.ledger) <==>
                  forall n | n in d.requests :: exists e | IsPublication(d.ledger, e) :: e.id == n)
            && (Derivable(d.requests, d.ledger) ==>
                  (id in Outstanding(d.requests, d.ledger) <==>
                   !Ingested(d.ledger, id) && exists e | IsPublication(d.ledger, e) :: e.id == id))
  {
    ReachedKeepsInv(steps);
    DerivableExactly(Reached(steps));
    if Derivable(Reached(steps).disk.requests, Reached(steps).disk.ledger) {
      OutstandingIsExact(Reached(steps), id);
    }
  }
}
