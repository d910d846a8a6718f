/** The law every campaign ledger obeys, and what follows from it. */
module LedgerLaws {
  import opened Text
  import opened RequestIds
  import opened Registries
  import opened CampaignLedger

  ghost predicate Published(es: Events, id: string, f: string) {
    exists e | e in es :: e.RequestPublished? && e.id == id && e.family == f
  }

  ghost predicate Ingested(es: Events, id: string) {
    exists e | e in es :: e.ResultIngested? && e.id == id
  }

  /** May event e be appended to the ledger es? */
  ghost predicate LawfulNext(es: Events, e: Event) {
    match e
    case FamilyAdded(f, m) => ValidName(f) && m != "" && !Known(es, f)
    case FamilyBlocked(f, reason) => Known(es, f) && reason != ""
    case FamilyReopened(f, m) => Known(es, f) && StandingOf(es, f).Shut? && m != "" && m != MechanismOf(es, f)
    case RequestPublished(id, round, f, envelope) =>
      && Known(es, f) && !StandingOf(es, f).Shut?
      && round >= 1 && id == RequestId(f, round)
      && envelope == Request(id, round, f, MechanismOf(es, f))
      && (forall p | p in es && p.RequestPublished? :: p.round <= round && p.id != id)
    case ResultIngested(id, f, status, reason) =>
      Published(es, id, f) && !Ingested(es, id) && (status == ResultBlocked ==> reason != "")
    case Unrelated => true
  }

  ghost predicate Lawful(es: Events) {
    es == [] || (Lawful(Front(es)) && LawfulNext(Front(es), Last(es)))
  }

  lemma {:induction false} LawfulPrefix(es: Events, n: nat)
    requires Lawful(es) && n <= |es|
    ensures Lawful(es[..n])
    ensures n < |es| ==> LawfulNext(es[..n], es[n])
  {
    if n == |es| {
      assert es[..n] == es;
    } else if n == |es| - 1 {
    } else {
      LawfulPrefix(Front(es), n);
      assert Front(es)[..n] == es[..n];
    }
  }

  /** No double dispatch, and rounds never go back: of two publications the later has a different id,
      so another family or another round, and no smaller round. */
  lemma NoDoubleDispatch(es: Events, i: nat, j: nat)
    requires Lawful(es) && i < j < |es| && es[i].RequestPublished? && es[j].RequestPublished?
    ensures es[i].id != es[j].id
    ensures es[i].round <= es[j].round
    ensures !(es[i].family == es[j].family && es[i].round == es[j].round)
  {
    LawfulPrefix(es, j);
    LawfulPrefix(es, i);
    assert es[i] in es[..j];
  }

  /** Each request is answered by at most one ingested result, and only after it was published. */
  lemma ExactlyOnceIngestion(es: Events, i: nat, j: nat)
    requires Lawful(es) && i < j < |es| && es[j].ResultIngested?
    ensures es[i].ResultIngested? ==> es[i].id != es[j].id
    ensures exists k | 0 <= k < j :: es[k].RequestPublished? && es[k].id == es[j].id && es[k].family == es[j].family
  {
    LawfulPrefix(es, j);
    assert es[i] in es[..j];
    var p :| p in es[..j] && p.RequestPublished? && p.id == es[j].id && p.family == es[j].family;
  }

  /** When a family receives work, its latest block, reopening or blocked result, if any, is a reopening. */
  lemma BlockedFamiliesReceiveNoWork(es: Events, i: nat)
    requires Lawful(es) && i < |es| && es[i].RequestPublished?
    ensures !StandingOf(es[..i], es[i].family).Shut?
    ensures es[i].envelope.mechanism == MechanismOf(es[..i], es[i].family)
  {
    LawfulPrefix(es, i);
  }

  lemma {:induction false} LawfulFamilies(es: Events, f: string)
    requires Lawful(es)
    ensures Known(es, f) ==> f != "" && ValidName(f)
    ensures !Known(es, f) ==> StandingOf(es, f).Untouched? && Dispatches(es, f) == 0
    ensures StandingOf(es, f).Shut? ==> StandingOf(es, f).reason != ""
    ensures forall id | Published(es, id, f) :: Known(es, f)
  {
    if es != [] {
      LawfulFamilies(Front(es), f);
      KnownAfter(es, f);
      if Last(es).FamilyAdded? { ValidNameIsNotEmpty(Last(es).family); }
      forall id | Published(es, id, f) ensures Known(es, f) {
        if !Published(Front(es), id, f) { assert Last(es).RequestPublished?; }
      }
    }
  }

  lemma KnownAfter(es: Events, f: string)
    requires es != []
    ensures Known(es, f) <==> Known(Front(es), f) || (Last(es).FamilyAdded? && Last(es).family == f)
    ensures forall id :: Published(es, id, f) <==>
              Published(Front(es), id, f) || (Last(es).RequestPublished? && Last(es).id == id && Last(es).family == f)
  {
    assert es == Front(es) + [Last(es)];
  }

  lemma LawfulReasons(es: Events)
    requires Lawful(es)
    ensures BlocksHaveReasons(es)
  {
    forall f ensures StandingOf(es, f).Shut? ==> StandingOf(es, f).reason != "" {
      LawfulFamilies(es, f);
    }
  }

  // ---- What replaying does to one family ----

  function ReopenedWith(es: Events, f: string): Option<string> {
    if es == [] then None
    else if Last(es).FamilyReopened? && Last(es).family == f then Some(Last(es).mechanism)
    else ReopenedWith(Front(es), f)
  }

  function AddedWith(es: Events, f: string): string {
    if es == [] then ""
    else if Last(es).FamilyAdded? && Last(es).family == f then Last(es).mechanism
    else AddedWith(Front(es), f)
  }

  predicate EverBlocked(es: Events, f: string) {
    es != [] && ((Last(es).FamilyBlocked? && Last(es).family == f) || EverBlocked(Front(es), f))
  }

  function Origin(view: View, es: Events, f: string): Approach {
    if f in view then view[f] else NewApproach(f, AddedWith(es, f))
  }

  ghost predicate ReplayedFrom(b: Approach, a: Approach, es: Events, f: string) {
    var reopened := ReopenedWith(es, f);
    var newlyBlocked := a.status == Active && EverBlocked(es, f);
    && b.family == (if reopened.Some? then f else a.family)
    && b.mechanism == (if reopened.Some? then reopened.value else a.mechanism)
    && b.attempts == a.attempts
    && b.lastNewMechanism == a.lastNewMechanism
    && b.status == (if newlyBlocked then Blocked else a.status)
    && (!newlyBlocked ==> b.blockReason == a.blockReason)
  }

  lemma {:induction false} ReplayHas(view: View, es: Events, f: string)
    requires Lawful(es)
    ensures f in Replay(view, es) <==> f in view || Known(es, f)
  {
    if es != [] {
      ReplayHas(view, Front(es), f);
      KnownAfter(es, f);
      if Last(es).FamilyAdded? {
        ReplayHas(view, Front(es), Last(es).family);
        ValidNameIsNotEmpty(Last(es).family);
      }
    }
  }

  lemma {:induction false} UnknownIsUntouched(es: Events, f: string)
    requires Lawful(es) && !Known(es, f)
    ensures ReopenedWith(es, f).None? && !EverBlocked(es, f)
  {
    if es != [] {
      KnownAfter(es, f);
      UnknownIsUntouched(Front(es), f);
      LawfulFamilies(es, f);
    }
  }

  lemma ReplayedOneMore(view: View, es: Events, f: string, before: View)
    requires Lawful(es) && es != [] && f in before && Replay(view, es) == ReplayEvent(before, Last(es))
    requires ReplayedFrom(before[f], Origin(view, Front(es), f), Front(es), f)
    requires f in before <==> f in view || Known(Front(es), f)
    ensures f in Replay(view, es) && ReplayedFrom(Replay(view, es)[f], Origin(view, es, f), es, f)
  {
    LawfulFamilies(es, f);
  }

  lemma {:induction false} ReplayedAs(view: View, es: Events, f: string)
    requires Lawful(es) && f in Replay(view, es)
    ensures ReplayedFrom(Replay(view, es)[f], Origin(view, es, f), es, f)
  {
    if es != [] {
      ReplayHas(view, Front(es), f);
      if f in Replay(view, Front(es)) {
        ReplayedAs(view, Front(es), f);
        ReplayedOneMore(view, es, f, Replay(view, Front(es)));
      } else {
        UnknownIsUntouched(Front(es), f);
      }
    }
  }

  lemma ReplayOfFamily(view: View, es: Events, f: string)
    requires Lawful(es)
    ensures f in Replay(view, es) <==> f in view || Known(es, f)
    ensures f in Replay(view, es) ==> ReplayedFrom(Replay(view, es)[f], Origin(view, es, f), es, f)
    ensures !Known(es, f) ==> ReopenedWith(es, f).None? && !EverBlocked(es, f)
  {
    ReplayHas(view, es, f);
    if f in Replay(view, es) { ReplayedAs(view, es, f); }
    if !Known(es, f) { UnknownIsUntouched(es, f); }
  }

  lemma {:induction false} TouchedByBlock(es: Events, f: string)
    requires EverBlocked(es, f)
    ensures !StandingOf(es, f).Untouched?
  {
    if !(Last(es).FamilyBlocked? && Last(es).family == f) {
      TouchedByBlock(Front(es), f);
    }
  }

  lemma {:induction false} DispatchedByReopening(es: Events, f: string)
    requires ReopenedWith(es, f).Some?
    ensures Dispatches(es, f) > 0
  {
    if !(Last(es).FamilyReopened? && Last(es).family == f) {
      DispatchedByReopening(Front(es), f);
    }
  }

  lemma {:induction false} MechanismOfRecord(es: Events, f: string)
    requires Lawful(es)
    ensures MechanismOf(es, f) == if ReopenedWith(es, f).Some? then ReopenedWith(es, f).value else AddedWith(es, f)
  {
    if es != [] {
      MechanismOfRecord(Front(es), f);
      ReplayOfFamily(map[], Front(es), f);
    }
  }

  // ---- The materialised view agrees with the ledger ----

  /** What every registry file written by a command satisfies, and still does after a human has marked families
      exhausted in it: but for that, it claims nothing beyond the ledger. */
  ghost predicate Faithful(view: View, es: Events) {
    forall f | f in view ::
      && Known(es, f)
      && view[f].family == f
      && (view[f].status != Exhausted ==>
            && (StandingOf(es, f).Untouched? ==> view[f].status == Active && view[f].blockReason == "")
            && (view[f].status == Active ==> view[f].blockReason == ""))
      && (Dispatches(es, f) == 0 ==> view[f].attempts == 1)
      && (ReopenedWith(es, f).None? ==> view[f].mechanism == AddedWith(es, f))
  }

  /** What replaying leaves of a faithful view's family, before attempts and standings are restored. */
  ghost predicate HalfRestored(b: Approach, es: Events, f: string) {
    && b.family == f && b.mechanism == MechanismOf(es, f)
    && (Dispatches(es, f) == 0 ==> b.attempts == 1)
    && (b.status != Exhausted && StandingOf(es, f).Untouched? ==> b.status == Active && b.blockReason == "")
    && (b.status == Active ==> b.blockReason == "")
  }

  lemma ReplayedIsHalfRestored(view: View, es: Events, f: string)
    requires Lawful(es) && Faithful(view, es) && Known(es, f)
    ensures f in Replay(view, es) && HalfRestored(Replay(view, es)[f], es, f)
  {
    ReplayOfFamily(view, es, f);
    MechanismOfRecord(es, f);
    if EverBlocked(es, f) { TouchedByBlock(es, f); }
    if ReopenedWith(es, f).Some? { DispatchedByReopening(es, f); }
  }

  lemma RestoredAgrees(b: Approach, es: Events, f: string)
    requires Lawful(es) && Known(es, f) && HalfRestored(b, es, f)
    ensures Agrees(RestoreStanding(CountAttempts(b, es, f), es, f), Recorded(es, f))
  {
    LawfulFamilies(es, f);
  }

  /** Reconciling any faithful view, or none, gives exactly the families of the ledger, each with the
      mechanism, status, attempts and block reason the ledger records. */
  lemma ReconcileAgrees(view: View, es: Events, f: string)
    requires Lawful(es) && Faithful(view, es)
    ensures f in Reconcile(view, es) <==> Known(es, f)
    ensures Known(es, f) ==> Agrees(Reconcile(view, es)[f], Recorded(es, f))
  {
    ReplayOfFamily(view, es, f);
    if Known(es, f) {
      ReplayedIsHalfRestored(view, es, f);
      RestoredAgrees(Replay(view, es)[f], es, f);
    }
  }

  lemma ReconciledIsFaithful(view: View, es: Events)
    requires Lawful(es) && Faithful(view, es)
    ensures Faithful(Reconcile(view, es), es)
  {
    forall f | f in Reconcile(view, es) ensures Known(es, f) && Agrees(Reconcile(view, es)[f], Recorded(es, f)) {
      ReconcileAgrees(view, es, f);
    }
    forall f ensures ReopenedWith(es, f).None? ==> MechanismOf(es, f) == AddedWith(es, f) {
      MechanismOfRecord(es, f);
    }
  }

  /** Reconciling twice changes nothing the second time, whatever the view said, exhausted families included. */
  lemma ReconcileIdempotent(view: View, es: Events)
    requires Lawful(es)
    ensures Reconcile(Reconcile(view, es), es) == Reconcile(view, es)
  {
    var once := Reconcile(view, es);
    forall f ensures f in Reconcile(once, es) <==> f in once
             ensures f in once ==> Reconcile(once, es)[f] == once[f]
    {
      IdempotentFor(view, es, f, once);
    }
  }

  lemma IdempotentFor(view: View, es: Events, f: string, once: View)
    requires Lawful(es) && once == Reconcile(view, es)
    ensures f in Reconcile(once, es) <==> f in once
    ensures f in once ==> Reconcile(once, es)[f] == once[f]
  {
    ReplayOfFamily(view, es, f);
    ReplayOfFamily(once, es, f);
    LawfulFamilies(es, f);
    if EverBlocked(es, f) { TouchedByBlock(es, f); }
    if ReopenedWith(es, f).Some? { DispatchedByReopening(es, f); }
  }

  lemma {:induction false} ReplayKeepsExhaustion(view: View, es: Events, f: string)
    ensures f in Replay(view, es) && Replay(view, es)[f].status == Exhausted <==>
            f in view && view[f].status == Exhausted
    ensures f in view ==> f in Replay(view, es)
  {
    if es != [] {
      ReplayKeepsExhaustion(view, Front(es), f);
    }
  }

  /** Exhaustion is not in the ledger; reconciliation neither grants nor revokes it, whatever the ledger says. */
  lemma ReconcileKeepsExhaustion(view: View, es: Events, f: string)
    ensures f in Reconcile(view, es) && Reconcile(view, es)[f].status == Exhausted <==>
            f in view && view[f].status == Exhausted
  {
    ReplayKeepsExhaustion(view, es, f);
  }
}
