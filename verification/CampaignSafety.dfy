/** Every write of every command keeps the campaign invariant. */
module CampaignSafety {
  import opened Text
  import opened RequestIds
  import opened Registries
  import opened CampaignLedger
  import opened LedgerLaws
  import opened Dispatch
  import opened Campaigns
  import opened CampaignInvariant

  /** The view says of every family exactly what the ledger records, and of no other family anything. */
  ghost predicate Mirrors(view: View, es: Events) {
    && (forall f :: f in view <==> Known(es, f))
    && (forall f | f in view :: Agrees(view[f], Recorded(es, f)))
  }

  lemma ReconcileMirrors(view: View, es: Events)
    requires Lawful(es) && Faithful(view, es)
    ensures Mirrors(Reconcile(view, es), es)
  {
    forall f ensures f in Reconcile(view, es) <==> Known(es, f)
             ensures Known(es, f) ==> Agrees(Reconcile(view, es)[f], Recorded(es, f)) {
      ReconcileAgrees(view, es, f);
    }
  }

  lemma MirrorIsFaithful(view: View, es: Events)
    requires Lawful(es) && Mirrors(view, es)
    ensures Faithful(view, es)
  {
    forall f ensures ReopenedWith(es, f).None? ==> MechanismOf(es, f) == AddedWith(es, f) {
      MechanismOfRecord(es, f);
    }
  }

  lemma MirrorIsSavable(view: View, es: Events)
    requires Lawful(es) && (forall f | f in view :: Known(es, f))
    ensures SavableView(view)
  {
    forall f | f in view ensures ValidName(f) {
      LawfulFamilies(es, f);
    }
  }

  lemma LoadedViewMirrors(w: World)
    requires Inv(w)
    ensures Mirrors(LoadedView(w.disk), w.disk.ledger)
  {
    ReconcileMirrors(if w.disk.registry.Some? then w.disk.registry.value else map[], w.disk.ledger);
  }

  // ---- Exhausted families ----

  /** The registry file marks the family exhausted. */
  predicate ExhaustedIn(d: Disk, f: string) {
    d.registry.Some? && f in d.registry.value && d.registry.value[f].status == Exhausted
  }

  lemma LoadedExhaustion(d: Disk, f: string)
    ensures f in LoadedView(d) && LoadedView(d)[f].status == Exhausted <==> ExhaustedIn(d, f)
  {
    ReconcileKeepsExhaustion(if d.registry.Some? then d.registry.value else map[], d.ledger, f);
  }

  /** The family may be given work: neither the ledger nor the registry file rules it out. */
  predicate Workable(d: Disk, f: string) { !StandingOf(d.ledger, f).Shut? && !ExhaustedIn(d, f) }

  lemma WorkableIsActive(w: World, f: string)
    requires Inv(w) && Known(w.disk.ledger, f)
    ensures IsActive(LoadedView(w.disk), f) <==> Workable(w.disk, f)
  {
    LoadedViewMirrors(w);
    LoadedExhaustion(w.disk, f);
  }

  lemma SaveAllowed(w: World, view: View)
    requires Inv(w) && Faithful(view, w.disk.ledger)
    ensures AllAllowed(w, SaveView(view).effects) && SaveView(view).ok
  {
    MirrorIsSavable(view, w.disk.ledger);
  }

  lemma SavedWorld(w: World, view: View)
    requires SavableView(view)
    ensures DoAll(w, SaveView(view).effects) == w.(disk := w.disk.(registry := Some(view)))
  {
    assert [SaveRegistry(view)][1..] == [];
    assert DoAll(w, SaveView(view).effects) == Do(w, SaveRegistry(view));
  }

  /** One event, then the save of a view that is faithful to the extended ledger. */
  lemma EventThenSave(w: World, e: Event, view: View)
    requires Inv(w) && Allowed(w, Append(e)) && Faithful(view, w.disk.ledger + [e])
    ensures var run := After([Append(e)], SaveView(view));
            AllAllowed(w, run.effects) && run.ok
  {
    AppendKeepsInv(w, e);
    SaveAllowed(Do(w, Append(e)), view);
    assert ([Append(e)] + SaveView(view).effects)[1..] == SaveView(view).effects;
  }

  // ---- families ----

  /** An event leaves what is recorded of every other family alone. */
  lemma OtherFamilies(es: Events, e: Event, g: string)
    requires g != EventFamily(e)
    ensures Recorded(es + [e], g) == Recorded(es, g) && (Known(es + [e], g) <==> Known(es, g))
  {
    Extended(es, e);
    KnownAfter(es + [e], g);
  }

  /** So a view that mirrors the ledger keeps doing so if the family the event is about is put right. */
  lemma MirrorAfter(view: View, es: Events, e: Event, f: string, a: Approach)
    requires Mirrors(view, es) && f == EventFamily(e)
    requires Known(es + [e], f) && Agrees(a, Recorded(es + [e], f))
    ensures Mirrors(view[f := a], es + [e])
  {
    forall g | g != f ensures Recorded(es + [e], g) == Recorded(es, g) && (Known(es + [e], g) <==> Known(es, g)) {
      OtherFamilies(es, e, g);
    }
  }

  lemma MirrorAfterAdd(view: View, es: Events, f: string, m: string)
    requires Lawful(es) && Mirrors(view, es) && LawfulNext(es, FamilyAdded(f, m))
    ensures Mirrors(view[f := NewApproach(f, m)], es + [FamilyAdded(f, m)])
  {
    var e := FamilyAdded(f, m);
    Extended(es, e);
    LawfulFamilies(es, f);
    KnownAfter(es + [e], f);
    MirrorAfter(view, es, e, f, NewApproach(f, m));
  }

  lemma MirrorAfterBlock(view: View, es: Events, f: string, reason: string)
    requires Lawful(es) && Mirrors(view, es) && LawfulNext(es, FamilyBlocked(f, reason))
    ensures Mirrors(view[f := BlockedApproach(view[f], reason)], es + [FamilyBlocked(f, reason)])
  {
    var e := FamilyBlocked(f, reason);
    Extended(es, e);
    KnownAfter(es + [e], f);
    MirrorAfter(view, es, e, f, BlockedApproach(view[f], reason));
  }

  lemma AddAllowed(w: World, f: string, m: string)
    requires Inv(w)
    ensures AllAllowed(w, AddRun(w.disk, f, m).effects)
  {
    var view, es := LoadedView(w.disk), w.disk.ledger;
    LoadedViewMirrors(w);
    if ValidName(f) && CanAdd(view, f, m) {
      MirrorAfterAdd(view, es, f, m);
      MirrorIsFaithful(view[f := NewApproach(f, m)], es + [FamilyAdded(f, m)]);
      EventThenSave(w, FamilyAdded(f, m), view[f := NewApproach(f, m)]);
    }
  }

  lemma BlockAllowed(w: World, f: string, reason: string)
    requires Inv(w)
    ensures AllAllowed(w, BlockRun(w.disk, f, reason).effects)
  {
    var view, es := LoadedView(w.disk), w.disk.ledger;
    LoadedViewMirrors(w);
    if CanBlock(view, f, reason) {
      MirrorAfterBlock(view, es, f, reason);
      MirrorIsFaithful(view[f := BlockedApproach(view[f], reason)], es + [FamilyBlocked(f, reason)]);
      EventThenSave(w, FamilyBlocked(f, reason), view[f := BlockedApproach(view[f], reason)]);
    }
  }

  /** The saved view keeps the old mechanism until the next reconciliation, so it is faithful, not a mirror. */
  lemma FaithfulAfterReopen(view: View, es: Events, f: string, m: string)
    requires Lawful(es) && Mirrors(view, es) && LawfulNext(es, FamilyReopened(f, m))
    ensures Faithful(view[f := ReopenedApproach(view[f], m)], es + [FamilyReopened(f, m)])
  {
    var e := FamilyReopened(f, m);
    MirrorIsFaithful(view, es);
    FaithfulStays(view, es, e);
    Extended(es, e);
  }

  lemma ReopenAllowed(w: World, f: string, m: string)
    requires Inv(w)
    ensures AllAllowed(w, ReopenRun(w.disk, f, m).effects)
  {
    var view, es := LoadedView(w.disk), w.disk.ledger;
    LoadedViewMirrors(w);
    if CanReopen(view, f, m) {
      FaithfulAfterReopen(view, es, f, m);
      EventThenSave(w, FamilyReopened(f, m), view[f := ReopenedApproach(view[f], m)]);
    }
  }

  lemma ListAllowed(w: World)
    requires Inv(w)
    ensures AllAllowed(w, ListRun(w.disk).effects)
  {
    var es := w.disk.ledger;
    LoadedViewMirrors(w);
    MirrorIsFaithful(LoadedView(w.disk), es);
    ReconcileMirrors(LoadedView(w.disk), es);
    MirrorIsFaithful(Reconcile(LoadedView(w.disk), es), es);
    SaveAllowed(w, Reconcile(LoadedView(w.disk), es));
  }

  lemma {:induction false} SeedAllowed(w: World, view: View, seeds: seq<Seed>)
    requires Inv(w) && Mirrors(view, w.disk.ledger)
    requires forall s | s in seeds :: ValidName(s.family) && !Blank(s.mechanism)
    ensures AllAllowed(w, SeedEffects(view, seeds).effects)
    decreases |seeds|
  {
    if seeds == [] {
      MirrorIsFaithful(view, w.disk.ledger);
      SaveAllowed(w, view);
    } else {
      assert forall s | s in seeds[1..] :: s in seeds;
      var s := seeds[0];
      assert s in seeds;
      if s.family in view {
        SeedAllowed(w, view, seeds[1..]);
      } else {
        var e := FamilyAdded(s.family, s.mechanism);
        MirrorAfterAdd(view, w.disk.ledger, s.family, s.mechanism);
        AppendKeepsInv(w, e);
        var view' := view[s.family := NewApproach(s.family, s.mechanism)];
        SeedAllowed(Do(w, Append(e)), view', seeds[1..]);
        assert SeedEffects(view, seeds).effects[1..] == SeedEffects(view', seeds[1..]).effects;
      }
    }
  }

  // ---- round plan ----

  /** The family may receive the round's request: it is active, and has none in this round yet. */
  ghost predicate Ready(es: Events, view: View, f: string, round: nat) {
    && Known(es, f) && !StandingOf(es, f).Shut?
    && f in view && view[f].mechanism == MechanismOf(es, f)
    && RequestId(f, round) !in PublishedIds(es, round)
  }

  ghost predicate PublicationIdsOk(es: Events) {
    forall e | IsPublication(es, e) :: e.round >= 1 && e.id == RequestId(e.family, e.round)
  }

  lemma {:induction false} LawfulIds(es: Events)
    requires Lawful(es)
    ensures PublicationIdsOk(es)
  {
    if es != [] {
      LawfulIds(Front(es));
      assert es == Front(es) + [Last(es)];
    }
  }

  lemma PublicationLawful(es: Events, view: View, f: string, round: nat)
    requires Lawful(es) && Ready(es, view, f, round) && round >= 1
    requires forall e | IsPublication(es, e) :: e.round <= round
    ensures LawfulNext(es, RequestPublished(RequestId(f, round), round, f, RequestFor(view, f, round)))
  {
    LawfulIds(es);
    forall p | p in es && p.RequestPublished? ensures p.round <= round && p.id != RequestId(f, round) {
      assert IsPublication(es, p);
      assert p.round == round ==> p.id in PublishedIds(es, round);
      if p.id == RequestId(f, round) {
        RequestIdInjective(p.family, p.round, f, round);
      }
    }
  }

  /** A publication leaves every other family as ready as it was. */
  lemma StillReady(es: Events, view: View, f: string, round: nat, e: Event)
    requires Ready(es, view, f, round) && e.RequestPublished? && e.id == RequestId(e.family, round) && e.family != f
    ensures Ready(es + [e], view, f, round)
  {
    Extended(es, e);
    var k :| k in es && k.FamilyAdded? && k.family == f;
    assert k in es + [e];
    if RequestId(f, round) in PublishedIds(es + [e], round) {
      if RequestId(f, round) == e.id {
        RequestIdInjective(f, round, e.family, round);
      }
    }
  }

  /** The state on disk backs publications of this round: pending, and holding all of todo. */
  ghost predicate Backed(d: Disk, todo: seq<string>, round: nat) {
    && d.state.Some? && d.state.value.round == round && Pending(d.state.value, round)
    && Distinct(todo) && forall f | f in todo :: f in d.state.value.pendingPlan
  }

  lemma OnePublication(w: World, view: View, f: string, round: nat)
    requires Inv(w) && round >= 1 && Backed(w.disk, [f], round) && Ready(w.disk.ledger, view, f, round)
    requires Publishable(w.disk.requests, RequestFor(view, f, round))
    ensures var r := RequestFor(view, f, round);
            var effects := PublicationEffects(w.disk.requests, r);
            var w' := DoAll(w, effects);
            && AllAllowed(w, effects) && Inv(w')
            && w' == World(w.disk.(ledger := w.disk.ledger + [PublicationEvent(r)],
                                   requests := w.disk.requests[r.id := r]), w.plans)
  {
    var r := RequestFor(view, f, round);
    var e := PublicationEvent(r);
    assert f in [f];
    PublicationLawful(w.disk.ledger, view, f, round);
    if r.id in w.disk.requests {
      assert w.disk.requests == w.disk.requests[r.id := r];
      assert PublicationEffects(w.disk.requests, r) == [Append(e)];
      AppendAlone(w, e);
    } else {
      AllowedKeepsInv(w, WriteRequest(r));
      var w1 := Do(w, WriteRequest(r));
      AppendAlone(w1, e);
      assert PublicationEffects(w.disk.requests, r)[1..] == [Append(e)];
    }
  }

  lemma AppendAlone(w: World, e: Event)
    requires Inv(w) && Allowed(w, Append(e))
    ensures AllAllowed(w, [Append(e)]) && Inv(DoAll(w, [Append(e)]))
    ensures DoAll(w, [Append(e)]) == World(w.disk.(ledger := w.disk.ledger + [e]), w.plans)
  {
    AppendKeepsInv(w, e);
    assert [Append(e)][1..] == [];
    assert DoAll(w, [Append(e)]) == Do(w, Append(e));
  }

  function Ids(families: seq<string>, round: nat): set<string> {
    set f | f in families :: RequestId(f, round)
  }

  /** A ledger grown by publications of one round, for families of todo. */
  ghost predicate DispatchedInto(es: Events, es': Events, effects: seq<Effect>, round: nat, todo: seq<string>) {
    && es' == es + Appended(effects)
    && (forall r: int | r != round :: PublishedIds(es', r) == PublishedIds(es, r))
    && PublishedIds(es, round) <= PublishedIds(es', round)
    && PublishedIds(es', round) <= PublishedIds(es, round) + Ids(todo, round)
    && forall e | e in Appended(effects) :: e.RequestPublished?
  }

  ghost predicate PublishedInto(w: World, w': World, effects: seq<Effect>, round: nat, todo: seq<string>) {
    && DispatchedInto(w.disk.ledger, w'.disk.ledger, effects, round, todo)
    && w'.disk.state == w.disk.state && w'.disk.registry == w.disk.registry && w'.plans == w.plans
  }

  lemma PublishedIdsAfter(es: Events, e: Event, r: int)
    ensures PublishedIds(es + [e], r) == PublishedIds(es, r)
                                         + if e.RequestPublished? && e.round == r then {e.id} else {}
  {
    Extended(es, e);
  }

  lemma {:induction false} AppendedConcat(a: seq<Effect>, b: seq<Effect>)
    ensures Appended(a + b) == Appended(a) + Appended(b)
    decreases |a|
  {
    if a == [] {
      assert a + b == b && [] + Appended(b) == Appended(b);
    } else {
      AppendedConcat(a[1..], b);
      assert (a + b)[1..] == a[1..] + b && (a + b)[0] == a[0];
    }
  }

  /** After the first publication the rest of the list is as publishable as before. */
  lemma AfterFirst(w: World, view: View, todo: seq<string>, round: nat)
    requires Inv(w) && round >= 1 && Backed(w.disk, todo, round) && Faithful(view, w.disk.ledger)
    requires forall f | f in todo :: Ready(w.disk.ledger, view, f, round)
    requires todo != [] && todo[0] in view && Publishable(w.disk.requests, RequestFor(view, todo[0], round))
    ensures var r := RequestFor(view, todo[0], round);
            var w1 := DoAll(w, PublicationEffects(w.disk.requests, r));
            && Backed(w1.disk, todo[1..], round) && Faithful(view, w1.disk.ledger)
            && forall f | f in todo[1..] :: Ready(w1.disk.ledger, view, f, round)
  {
    var e := PublicationEvent(RequestFor(view, todo[0], round));
    assert Backed(w.disk, [todo[0]], round);
    OnePublication(w, view, todo[0], round);
    PublicationLawful(w.disk.ledger, view, todo[0], round);
    FaithfulStays(view, w.disk.ledger, e);
    RestStaysReady(w.disk.ledger, view, todo, round, e);
  }

  lemma RestStaysReady(es: Events, view: View, todo: seq<string>, round: nat, e: Event)
    requires Lawful(es) && Distinct(todo) && todo != [] && todo[0] in view
    requires e == PublicationEvent(RequestFor(view, todo[0], round))
              && forall f | f in todo :: Ready(es, view, f, round)
    ensures Distinct(todo[1..]) && forall g | g in todo[1..] :: g in todo && Ready(es + [e], view, g, round)
  {
    forall g | g in todo[1..] ensures g in todo && g != todo[0] && Ready(es + [e], view, g, round) {
      StillReady(es, view, g, round, e);
    }
  }

  lemma {:induction false} PublishAllowed(w: World, view: View, todo: seq<string>, round: nat)
    requires Inv(w) && round >= 1 && Backed(w.disk, todo, round) && Faithful(view, w.disk.ledger)
    requires forall f | f in todo :: Ready(w.disk.ledger, view, f, round)
    ensures var run := PublishRun(w.disk.requests, view, todo, round);
            var w' := DoAll(w, run.effects);
            && AllAllowed(w, run.effects) && Inv(w') && PublishedInto(w, w', run.effects, round, todo)
            && Faithful(view, w'.disk.ledger)
            && (run.ok ==> Ids(todo, round) <= PublishedIds(w'.disk.ledger, round))
    decreases |todo|
  {
    if todo != [] && todo[0] in view && !Blank(view[todo[0]].mechanism)
       && Publishable(w.disk.requests, RequestFor(view, todo[0], round)) {
      var r := RequestFor(view, todo[0], round);
      var first := PublicationEffects(w.disk.requests, r);
      assert Backed(w.disk, [todo[0]], round) && Ready(w.disk.ledger, view, todo[0], round);
      OnePublication(w, view, todo[0], round);
      AfterFirst(w, view, todo, round);
      var w1 := DoAll(w, first);
      PublishAllowed(w1, view, todo[1..], round);
      var rest := PublishRun(w1.disk.requests, view, todo[1..], round);
      AllAllowedConcat(w, first, rest.effects);
      DispatchedFirst(w.disk.ledger, r, DoAll(w1, rest.effects).disk.ledger, w.disk.requests, rest.effects, round,
                      todo);
    }
  }

  lemma AppendedPublication(requests: map<string, Request>, r: Request, rest: seq<Effect>)
    ensures Appended(PublicationEffects(requests, r) + rest) == [PublicationEvent(r)] + Appended(rest)
  {
    var last := [Append(PublicationEvent(r))];
    assert Appended(last) == [PublicationEvent(r)] by { assert last[1..] == []; }
    AppendedConcat(PublicationEffects(requests, r), rest);
    if r.id !in requests {
      AppendedConcat([WriteRequest(r)], last);
      assert Appended([WriteRequest(r)]) == [] by { assert [WriteRequest(r)][1..] == []; }
    } else {
      assert [] + last == last;
    }
  }

  /** One publication followed by more of the same round. */
  lemma DispatchedFirst(es: Events, r: Request, es': Events, requests: map<string, Request>, rest: seq<Effect>,
                        round: nat, todo: seq<string>)
    requires todo != [] && r.round == round && r.id == RequestId(todo[0], round)
    requires DispatchedInto(es + [PublicationEvent(r)], es', rest, round, todo[1..])
    ensures DispatchedInto(es, es', PublicationEffects(requests, r) + rest, round, todo)
    ensures Ids(todo[1..], round) <= PublishedIds(es', round) ==> Ids(todo, round) <= PublishedIds(es', round)
  {
    var e := PublicationEvent(r);
    AppendedPublication(requests, r, rest);
    IdsOfFirst(todo, round);
    assert es + [e] + Appended(rest) == es + ([e] + Appended(rest));
    forall q: int ensures PublishedIds(es + [e], q) == PublishedIds(es, q) + if q == round then {e.id} else {} {
      PublishedIdsAfter(es, e, q);
    }
  }

  lemma IdsOfFirst(todo: seq<string>, round: nat)
    requires todo != []
    ensures Ids(todo, round) == {RequestId(todo[0], round)} + Ids(todo[1..], round)
  {
    assert todo == [todo[0]] + todo[1..];
  }
}
