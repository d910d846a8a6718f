/** Once a round plan has recorded its plan, that plan is pursued to the end: however often the command is
    interrupted, and wherever, the round comes to exactly that plan as soon as one invocation completes. */
module PlanPursuit {
  import opened Text
  import opened Registries
  import opened CampaignLedger
  import opened Campaigns
  import opened CampaignInvariant
  import opened CampaignSafety
  import opened PlanningSafety
  import opened PlanRetry

  /** The plan is still pending on disk and all its families may be given work; or it has been published and
      the state on disk is past its round. Nothing else was ever published in the round. */
  ghost predicate Pursued(w: World, plan: seq<string>, round: nat) {
    && Inv(w) && round >= 1 && w.disk.state.Some?
    && PublishedIds(w.disk.ledger, round) <= Ids(plan, round)
    && (PendingPlan(w, plan, round) || (w.disk.state.value.round > round && AllPublished(w.disk.ledger, plan, round)))
  }

  ghost predicate PendingPlan(w: World, plan: seq<string>, round: nat) {
    && w.disk.state.Some? && w.disk.state.value.round == round
    && Pending(w.disk.state.value, round) && w.disk.state.value.pendingPlan == plan
    && forall f | f in plan :: Workable(w.disk, f)
  }

  lemma PendingIsPursued(w: World, plan: seq<string>, round: nat)
    requires Inv(w) && round >= 1 && PendingPlan(w, plan, round)
    ensures Pursued(w, plan, round)
  {
    PublishedWithinPlan(w.disk.ledger, w.disk.state.value);
  }

  lemma StaysPending(w: World, effects: seq<Effect>, c: int, view: View, plan: seq<string>, round: nat)
    requires PendingPlan(w, plan, round) && PlanShape(effects, c, view) && SameExhaustion(w.disk, view)
    requires DoAll(w, effects).disk.state == w.disk.state
    ensures PendingPlan(DoAll(w, effects), plan, round)
  {
    forall f | f in plan ensures Workable(DoAll(w, effects).disk, f) {
      ShapeKeepsWorkable(w, effects, c, view, f);
    }
  }

  lemma AllPublishedStays(es: Events, more: Events, c: int, plan: seq<string>, round: nat)
    requires AllPublished(es, plan, round) && forall e | e in more :: e.RequestPublished? && e.round == c
    ensures AllPublished(es + more, plan, round)
  {
    PublishedIdsGrow(es, more, c, round);
  }

  // ---- Rounds after the plan's ----

  /** Work on a later round adds nothing to the plan's. */
  lemma LaterRounds(w: World, effects: seq<Effect>, c: int, view: View, plan: seq<string>, round: nat)
    requires Pursued(w, plan, round) && AllPublished(w.disk.ledger, plan, round) && c > round
    requires PlanShape(effects, c, view) && SameExhaustion(w.disk, view) && Inv(DoAll(w, effects))
    ensures Pursued(DoAll(w, effects), plan, round) && AllPublished(DoAll(w, effects).disk.ledger, plan, round)
  {
    var w' := DoAll(w, effects);
    LedgerGrows(w, effects);
    AppendedShape(effects, c, view);
    PublishedIdsGrow(w.disk.ledger, Appended(effects), c, round);
    AllPublishedStays(w.disk.ledger, Appended(effects), c, plan, round);
    StateAfter(w, effects);
    if w'.disk.state == w.disk.state {
      if PendingPlan(w, plan, round) { StaysPending(w, effects, c, view, plan, round); }
    } else {
      var e :| e in effects && (e.SaveState? || e.RecordPlan?) && e.state == w'.disk.state.value;
      assert ShapeOf(e, c, view);
    }
  }

  // ---- The plan's own round ----

  lemma {:induction false} OnlyPublications(w: World, effects: seq<Effect>)
    requires forall e | e in effects :: e.Append? || e.WriteRequest?
    ensures DoAll(w, effects).disk.state == w.disk.state && DoAll(w, effects).disk.registry == w.disk.registry
    decreases |effects|
  {
    if effects != [] {
      assert effects[0] in effects;
      OnlyPublications(Do(w, effects[0]), effects[1..]);
    }
  }

  /** Writes that end the work on the plan: the state moves on only when the whole plan has been published. */
  ghost predicate EndsRound(effects: seq<Effect>, es: Events, plan: seq<string>, round: nat, view: View) {
    && PlanShape(effects, round, view)
    && forall e | e in effects ::
         !e.Append? && !e.RecordPlan? && (e.SaveState? ==> e.state.round > round && AllPublished(es, plan, round))
  }

  lemma FinishEndsRound(es: Events, view: View, s: RoundState, plan: seq<string>, round: nat)
    requires s.pendingPlan == plan
    ensures EndsRound(FinishRun(es, view, s, round).effects, es, plan, round, view)
  {
    FinishShape(es, view, s, round, round);
  }

  lemma AdvanceEndsRound(d: Disk, view: View, s: RoundState, round: nat, plan: seq<string>, workers: nat)
    requires Unpublished(d.ledger, plan, round) == [] && plan != []
    ensures EndsRound(RoundRun(d, view, s, round, plan, workers).effects, d.ledger, plan, round, view)
  {
    RoundShape(d, view, s, round, plan, workers, round);
    assert forall f | f in plan :: f !in Unpublished(d.ledger, plan, round);
  }

  lemma EndPrefix(w: World, plan: seq<string>, round: nat, view: View, all: seq<Effect>, n: nat)
    requires Pursued(w, plan, round) && PendingPlan(w, plan, round) && SameExhaustion(w.disk, view)
    requires EndsRound(all, w.disk.ledger, plan, round, view) && n <= |all| && Inv(DoAll(w, all[..n]))
    ensures Pursued(DoAll(w, all[..n]), plan, round)
  {
    var effects := all[..n];
    assert forall e | e in effects :: e in all;
    ShapePrefix(all, n, round, view);
    NothingAppended(effects);
    LedgerGrows(w, effects);
    assert w.disk.ledger + [] == w.disk.ledger;
    StateAfter(w, effects);
    if DoAll(w, effects).disk.state == w.disk.state {
      StaysPending(w, effects, round, view, plan, round);
    }
  }

  lemma {:induction false} NothingAppended(effects: seq<Effect>)
    requires forall e | e in effects :: !e.Append?
    ensures Appended(effects) == []
    decreases |effects|
  {
    if effects != [] {
      NothingAppended(effects[1..]);
    }
  }

  /** Dispatching the pending plan, cut short anywhere. */
  lemma DispatchPrefix(w: World, view: View, s: RoundState, plan: seq<string>, round: nat, todo: seq<string>,
                       effects: seq<Effect>, n: nat)
    requires PendingPlan(w, plan, round) && Inv(w) && round >= 1 && s.pendingPlan == plan
              && SameExhaustion(w.disk, view)
    requires effects == DispatchRun(w.disk, view, s, todo, round).effects && AllAllowed(w, effects) && n <= |effects|
    ensures Pursued(DoAll(w, effects[..n]), plan, round)
  {
    var pubs, finish := DispatchParts(w.disk, view, s, plan, round, todo);
    PrefixKeepsInv(w, effects, n);
    DispatchCut(w, view, plan, round, pubs, finish, n);
  }

  /** A dispatch is publications, and writes that end the round if nothing refused. */
  lemma DispatchParts(d: Disk, view: View, s: RoundState, plan: seq<string>, round: nat, todo: seq<string>)
    returns (pubs: seq<Effect>, finish: seq<Effect>)
    requires s.pendingPlan == plan
    ensures DispatchRun(d, view, s, todo, round).effects == pubs + finish
    ensures PlanShape(pubs, round, view) && forall e | e in pubs :: e.Append? || e.WriteRequest?
    ensures EndsRound(finish, d.ledger + Appended(pubs), plan, round, view)
  {
    var published := PublishRun(d.requests, view, todo, round);
    pubs, finish := published.effects, [];
    PublishShape(d.requests, view, todo, round, round);
    if published.ok {
      finish := FinishRun(d.ledger + Appended(pubs), view, s, round).effects;
      FinishEndsRound(d.ledger + Appended(pubs), view, s, plan, round);
    }
  }

  lemma DispatchCut(w: World, view: View, plan: seq<string>, round: nat, pubs: seq<Effect>, finish: seq<Effect>, n: nat)
    requires PendingPlan(w, plan, round) && Inv(w) && round >= 1 && SameExhaustion(w.disk, view)
    requires PlanShape(pubs, round, view) && forall e | e in pubs :: e.Append? || e.WriteRequest?
    requires EndsRound(finish, w.disk.ledger + Appended(pubs), plan, round, view)
    requires AllAllowed(w, pubs + finish) && n <= |pubs + finish| && Inv(DoAll(w, (pubs + finish)[..n]))
    ensures Pursued(DoAll(w, (pubs + finish)[..n]), plan, round)
  {
    if n <= |pubs| {
      assert (pubs + finish)[..n] == pubs[..n];
      PublicationsPrefix(w, view, plan, round, pubs, n);
    } else {
      DispatchEnd(w, view, plan, round, pubs, finish, n - |pubs|);
    }
  }

  lemma DispatchEnd(w: World, view: View, plan: seq<string>, round: nat, pubs: seq<Effect>, finish: seq<Effect>, n: nat)
    requires PendingPlan(w, plan, round) && Inv(w) && round >= 1 && SameExhaustion(w.disk, view)
    requires PlanShape(pubs, round, view) && forall e | e in pubs :: e.Append? || e.WriteRequest?
    requires EndsRound(finish, w.disk.ledger + Appended(pubs), plan, round, view)
    requires AllAllowed(w, pubs + finish) && n <= |finish|
    ensures Pursued(DoAll(w, (pubs + finish)[..|pubs| + n]), plan, round)
  {
    CutLater(w, pubs, finish, n);
    assert pubs[..|pubs|] == pubs;
    PublicationsPrefix(w, view, plan, round, pubs, |pubs|);
    LedgerGrows(w, pubs);
    EndPrefix(DoAll(w, pubs), plan, round, view, finish, n);
  }

  /** Cutting a list of writes in its second part. */
  lemma CutLater(w: World, a: seq<Effect>, b: seq<Effect>, n: nat)
    requires Inv(w) && AllAllowed(w, a + b) && n <= |b|
    ensures DoAll(w, (a + b)[..|a| + n]) == DoAll(DoAll(w, a), b[..n])
    ensures Inv(DoAll(w, a)) && Inv(DoAll(DoAll(w, a), b[..n]))
  {
    assert (a + b)[..|a|] == a && (a + b)[..|a| + n] == a + b[..n];
    PrefixKeepsInv(w, a + b, |a|);
    PrefixKeepsInv(w, a + b, |a| + n);
    DoAllConcat(w, a, b[..n]);
  }

  lemma PublicationsPrefix(w: World, view: View, plan: seq<string>, round: nat, pubs: seq<Effect>, n: nat)
    requires PendingPlan(w, plan, round) && round >= 1 && SameExhaustion(w.disk, view)
    requires PlanShape(pubs, round, view) && forall e | e in pubs :: e.Append? || e.WriteRequest?
    requires n <= |pubs| && Inv(DoAll(w, pubs[..n]))
    ensures var w' := DoAll(w, pubs[..n]);
            PendingPlan(w', plan, round) && SameExhaustion(w'.disk, view) && Pursued(w', plan, round)
  {
    assert forall e | e in pubs[..n] :: e in pubs;
    ShapePrefix(pubs, n, round, view);
    OnlyPublications(w, pubs[..n]);
    StaysPending(w, pubs[..n], round, view, plan, round);
    PendingIsPursued(DoAll(w, pubs[..n]), plan, round);
  }

  // ---- A round plan, cut short anywhere ----

  lemma PursuedPrefix(w: World, plan: seq<string>, round: nat, workers: nat, effects: seq<Effect>, n: nat)
    requires Pursued(w, plan, round) && effects == PlanRun(w.disk, workers).effects && n <= |effects|
    ensures Pursued(DoAll(w, effects[..n]), plan, round)
  {
    PlanAllowed(w, workers);
    var s, view := w.disk.state.value, LoadedView(w.disk);
    if workers >= 1 && view != map[] {
      var c := CurrentRound(w.disk.ledger, s);
      assert effects == RoundRun(w.disk, view, s, c, CurrentPlan(view, s, c, workers), workers).effects;
      PursuedRound(w, plan, round, s, view, c, CurrentPlan(view, s, c, workers), workers, effects, n);
    } else {
      assert effects[..n] == [];
    }
  }

  lemma MarkedIsPublished(es: Events, s: RoundState, round: nat)
    requires StateOk(s, es) && s.round == round && Pending(s, round) && Marked(Marks(es, s), round)
    ensures AllPublished(es, s.pendingPlan, round)
  {
  }

  lemma PursuedRound(w: World, plan: seq<string>, round: nat, s: RoundState, view: View, c: nat, current: seq<string>,
                     workers: nat, effects: seq<Effect>, n: nat)
    requires Pursued(w, plan, round) && w.disk.state == Some(s) && view == LoadedView(w.disk)
    requires c == CurrentRound(w.disk.ledger, s) && current == CurrentPlan(view, s, c, workers)
    requires effects == RoundRun(w.disk, view, s, c, current, workers).effects && AllAllowed(w, effects)
              && n <= |effects|
    ensures Pursued(DoAll(w, effects[..n]), plan, round)
  {
    LoadedSameExhaustion(w.disk);
    PrefixKeepsInv(w, effects, n);
    if c > round {
      if PendingPlan(w, plan, round) { MarkedIsPublished(w.disk.ledger, s, round); }
      RoundShape(w.disk, view, s, c, current, workers, c);
      ShapePrefix(effects, n, c, view);
      LaterRounds(w, effects[..n], c, view, plan, round);
    } else {
      PlanStillActive(w, view, plan);
      OwnRound(w, plan, round, s, view, workers, effects, n);
    }
  }

  lemma OwnRound(w: World, plan: seq<string>, round: nat, s: RoundState, view: View, workers: nat,
                 effects: seq<Effect>, n: nat)
    requires Inv(w) && round >= 1 && PendingPlan(w, plan, round) && w.disk.state == Some(s)
              && SameExhaustion(w.disk, view)
    requires effects == RoundRun(w.disk, view, s, round, plan, workers).effects && AllAllowed(w, effects)
              && n <= |effects|
    ensures Pursued(DoAll(w, effects[..n]), plan, round)
  {
    var here := s.(round := round, publishedRounds := Marks(w.disk.ledger, s));
    var todo := Unpublished(w.disk.ledger, plan, round);
    if todo == [] {
      PrefixKeepsInv(w, effects, n);
      PendingIsPursued(w, plan, round);
      AdvanceEndsRound(w.disk, view, s, round, plan, workers);
      EndPrefix(w, plan, round, view, effects, n);
    } else {
      DispatchPrefix(w, view, here, plan, round, todo, effects, n);
    }
  }

  // ---- From the first invocation to the last ----

  /** Recording the plan begins the pursuit. */
  lemma RecordedRound(w: World, view: View, s0: RoundState, round: nat, plan: seq<string>, workers: nat,
                      effects: seq<Effect>, s: RoundState, n: nat)
    requires Inv(w) && w.disk.state == Some(s0) && Startable(w.disk.ledger, view, s0, round, plan, workers)
    requires SameExhaustion(w.disk, view) && forall f | IsActive(view, f) :: Workable(w.disk, f)
    requires effects == RoundRun(w.disk, view, s0, round, plan, workers).effects && AllAllowed(w, effects)
    requires n <= |effects| && RecordPlan(s, workers) in effects[..n]
    ensures s.pendingPlan == plan && s.round == round
    ensures Pursued(DoAll(w, effects[..n]), plan, round)
  {
    assert forall e | e in effects[..n] :: e in effects;
    RecordedEffects(w.disk, view, s0, round, plan, workers, s);
    var todo := Unpublished(w.disk.ledger, plan, round);
    RecordedThenCut(w, view, s, plan, round, todo, RecordPlan(s, workers),
                    DispatchRun(w.disk, view, s, todo, round).effects, n);
  }

  lemma RecordedEffects(d: Disk, view: View, s0: RoundState, round: nat, plan: seq<string>, workers: nat, s: RoundState)
    requires RecordPlan(s, workers) in RoundRun(d, view, s0, round, plan, workers).effects
    ensures plan != [] && s == RecordedState(d.ledger, s0, round, plan)
    ensures RoundRun(d, view, s0, round, plan, workers).effects
         == [RecordPlan(s, workers)] + DispatchRun(d, view, s, Unpublished(d.ledger, plan, round), round).effects
  {
    RoundWrites(d, view, s0, round, plan, workers);
    DispatchRunPublishes(d, view, s0.(round := round, publishedRounds := Marks(d.ledger, s0)),
                         Unpublished(d.ledger, plan, round), round);
  }

  lemma RecordedThenCut(w: World, view: View, s: RoundState, plan: seq<string>, round: nat, todo: seq<string>,
                        record: Effect, rest: seq<Effect>, n: nat)
    requires Inv(w) && round >= 1 && plan != [] && SameExhaustion(w.disk, view)
    requires record.RecordPlan? && record.state == s && s.round == round && s.pendingRound == round
              && s.pendingPlan == plan
    requires forall f | f in plan :: Workable(w.disk, f)
    requires rest == DispatchRun(w.disk, view, s, todo, round).effects && AllAllowed(w, [record] + rest)
    requires 0 < n <= 1 + |rest|
    ensures Pursued(DoAll(w, ([record] + rest)[..n]), plan, round)
  {
    FirstThenCut(w, record, rest, n);
    AllowedKeepsInv(w, record);
    DispatchPrefix(Do(w, record), view, s, plan, round, todo, rest, n - 1);
  }

  /** Cutting after the first write. */
  lemma FirstThenCut(w: World, first: Effect, rest: seq<Effect>, n: nat)
    requires 0 < n <= 1 + |rest|
    ensures ([first] + rest)[..n] == [first] + rest[..n - 1] && ([first] + rest)[1..] == rest
    ensures DoAll(w, ([first] + rest)[..n]) == DoAll(Do(w, first), rest[..n - 1])
    ensures AllAllowed(w, [first] + rest) ==> Allowed(w, first) && AllAllowed(Do(w, first), rest)
  {
    assert ([first] + rest)[..n][1..] == rest[..n - 1] && ([first] + rest)[1..] == rest;
  }

  lemma FirstIsPursued(w: World, workers: nat, effects: seq<Effect>, s: RoundState, n: nat)
    requires Inv(w) && effects == PlanRun(w.disk, workers).effects
    requires n <= |effects| && RecordPlan(s, workers) in effects[..n]
    ensures s.round >= 1 && Pursued(DoAll(w, effects[..n]), s.pendingPlan, s.round)
  {
    var view := LoadedView(w.disk);
    PlanAllowed(w, workers);
    LoadedViewMirrors(w);
    if w.disk.state.Some? {
      StartedIsPursued(w, view, w.disk.state.value, workers, effects, s, n);
    } else {
      var s0 := Recovered(w.disk.ledger, workers);
      RecoveredIsOk(w.disk.ledger, workers);
      AllowedKeepsInv(w, SaveState(s0));
      RecoveredIsPursued(w, view, s0, workers, effects, s, n);
    }
  }

  lemma RecoveredIsPursued(w: World, view: View, s0: RoundState, workers: nat, effects: seq<Effect>, s: RoundState,
                           n: nat)
    requires s0.round >= 1 && view == LoadedView(w.disk) && Mirrors(view, w.disk.ledger)
    requires Inv(Do(w, SaveState(s0))) && AllAllowed(w, effects)
    requires effects == [SaveState(s0)] + StartRound(w.disk.(state := Some(s0)), view, s0, workers).effects
    requires n <= |effects| && RecordPlan(s, workers) in effects[..n]
    ensures s.round >= 1 && Pursued(DoAll(w, effects[..n]), s.pendingPlan, s.round)
  {
    var rest := effects[1..];
    FirstThenCut(w, SaveState(s0), rest, n);
    StartedIsPursued(Do(w, SaveState(s0)), view, s0, workers, rest, s, n - 1);
  }

  lemma StartedIsPursued(w: World, view: View, s0: RoundState, workers: nat, effects: seq<Effect>, s: RoundState,
                         n: nat)
    requires Inv(w) && w.disk.state == Some(s0) && s0.round >= 1 && view == LoadedView(w.disk)
              && Mirrors(view, w.disk.ledger)
    requires effects == StartRound(w.disk, view, s0, workers).effects && AllAllowed(w, effects)
    requires n <= |effects| && RecordPlan(s, workers) in effects[..n]
    ensures s.round >= 1 && Pursued(DoAll(w, effects[..n]), s.pendingPlan, s.round)
  {
    var round := CurrentRound(w.disk.ledger, s0);
    var plan := CurrentPlan(view, s0, round, workers);
    CurrentIsStartable(w.disk.ledger, view, s0, workers);
    LoadedSameExhaustion(w.disk);
    forall f | IsActive(view, f) ensures Workable(w.disk, f) {
      LoadedExhaustion(w.disk, f);
    }
    RecordedRound(w, view, s0, round, plan, workers, effects, s, n);
  }

  /** A pursued plan, and a round plan that completes: the round is exactly the plan. */
  lemma PursuitEnds(w: World, plan: seq<string>, round: nat, workers: nat)
    requires Pursued(w, plan, round) && PlanRun(w.disk, workers).ok
    ensures PublishedIds(DoAll(w, PlanRun(w.disk, workers).effects).disk.ledger, round) == Ids(plan, round)
  {
    if PendingPlan(w, plan, round) {
      RetryFinishesPlan(w, workers);
    } else {
      var effects := PlanRun(w.disk, workers).effects;
      PursuedPrefix(w, plan, round, workers, effects, |effects|);
      assert effects[..|effects|] == effects;
      LaterRun(w, plan, round, workers, effects);
    }
  }

  lemma LaterRun(w: World, plan: seq<string>, round: nat, workers: nat, effects: seq<Effect>)
    requires Pursued(w, plan, round) && !PendingPlan(w, plan, round) && effects == PlanRun(w.disk, workers).effects
    requires workers >= 1 && LoadedView(w.disk) != map[] && Pursued(DoAll(w, effects), plan, round)
    ensures PublishedIds(DoAll(w, effects).disk.ledger, round) == Ids(plan, round)
  {
    var s, view := w.disk.state.value, LoadedView(w.disk);
    var c := CurrentRound(w.disk.ledger, s);
    RoundShape(w.disk, view, s, c, CurrentPlan(view, s, c, workers), workers, c);
    LedgerGrows(w, effects);
    AppendedShape(effects, c, view);
    AllPublishedStays(w.disk.ledger, Appended(effects), c, plan, round);
  }

  /** An invocation of round plan that stops after some number of writes. */
  datatype Try = Try(workers: nat, writes: nat)

  function Tried(w: World, t: Try): World {
    var effects := PlanRun(w.disk, t.workers).effects;
    DoAll(w, if t.writes < |effects| then effects[..t.writes] else effects)
  }

  function AllTried(w: World, tries: seq<Try>): World
    decreases |tries|
  {
    if tries == [] then w else AllTried(Tried(w, tries[0]), tries[1..])
  }

  lemma {:induction false} TriesArePursued(w: World, plan: seq<string>, round: nat, tries: seq<Try>)
    requires Pursued(w, plan, round)
    ensures Pursued(AllTried(w, tries), plan, round)
    decreases |tries|
  {
    if tries != [] {
      var effects := PlanRun(w.disk, tries[0].workers).effects;
      var n := if tries[0].writes < |effects| then tries[0].writes else |effects|;
      assert effects[..|effects|] == effects;
      PursuedPrefix(w, plan, round, tries[0].workers, effects, n);
      TriesArePursued(Tried(w, tries[0]), plan, round, tries[1..]);
    }
  }

  /** A round plan records its plan and stops anywhere after that, be it after the round was retired; any number of
      further invocations are interrupted anywhere, with any max-workers; then one completes. The recorded plan's
      round has exactly its publications, and it is no larger than the first invocation's max-workers. */
  lemma CrashThenRetry(w: World, first: nat, effects: seq<Effect>, s: RoundState, n: nat, tries: seq<Try>, last: nat,
                       w1: World)
    requires Inv(w) && effects == PlanRun(w.disk, first).effects
    requires n <= |effects| && RecordPlan(s, first) in effects[..n]
    requires w1 == AllTried(DoAll(w, effects[..n]), tries) && PlanRun(w1.disk, last).ok
    ensures |s.pendingPlan| <= first && s.round >= 1
    ensures PublishedIds(DoAll(w1, PlanRun(w1.disk, last).effects).disk.ledger, s.round) == Ids(s.pendingPlan, s.round)
  {
    assert forall e | e in effects[..n] :: e in effects;
    PlanWrites(w, first);
    FirstIsPursued(w, first, effects, s, n);
    TriesArePursued(DoAll(w, effects[..n]), s.pendingPlan, s.round, tries);
    PursuitEnds(w1, s.pendingPlan, s.round, last);
  }
}
