/** What the families commands come to: when each is refused, without a write, and the event and the registry entry a
    completed one leaves. */
module FamilyOutcomes {
  import opened Text
  import opened RequestIds
  import opened Registries
  import opened CampaignLedger
  import opened LedgerLaws
  import opened Campaigns
  import opened CampaignInvariant
  import opened CampaignSafety
  import opened PlanningSafety

  /** One event more in the ledger, and this registry file; everything else as it was. */
  ghost predicate EventAndEntry(d: Disk, d': Disk, e: Event, view: View, f: string, a: Approach) {
    d' == d.(ledger := d.ledger + [e], registry := Some(view[f := a]))
  }

  lemma EventThenSaved(w: World, e: Event, view: View, run: Run)
    requires SavableView(view) && run == After([Append(e)], SaveView(view))
    ensures run.ok && DoAll(w, run.effects).disk == w.disk.(ledger := w.disk.ledger + [e], registry := Some(view))
  {
    SavedWorld(Do(w, Append(e)), view);
    assert run.effects[1..] == SaveView(view).effects;
  }

  lemma LoadedFacts(w: World, view: View)
    requires Inv(w) && view == LoadedView(w.disk)
    ensures forall f :: f in view <==> Known(w.disk.ledger, f)
    ensures forall f | f in view :: Agrees(view[f], Recorded(w.disk.ledger, f)) && ValidName(f)
  {
    LoadedViewMirrors(w);
    MirrorIsSavable(view, w.disk.ledger);
  }

  /** families add goes through for a valid name that the ledger does not know and a mechanism. */
  lemma AddOutcome(w: World, f: string, m: string, view: View, run: Run)
    requires Inv(w) && view == LoadedView(w.disk) && run == CommandRun(w.disk, AddFamily(f, m))
    ensures run.ok <==> ValidName(f) && m != "" && !Known(w.disk.ledger, f)
    ensures if run.ok
            then EventAndEntry(w.disk, DoAll(w, run.effects).disk, FamilyAdded(f, m), view, f,
                               Approach(f, m, Active, 1, "", ""))
            else run.effects == []
  {
    LoadedFacts(w, view);
    if ValidName(f) {
      ValidNameIsNotEmpty(f);
      if CanAdd(view, f, m) {
        EventThenSaved(w, FamilyAdded(f, m), view[f := NewApproach(f, m)], run);
      }
    }
  }

  /** families block goes through for a known family and a reason, whatever the family's status. */
  lemma BlockOutcome(w: World, f: string, reason: string, view: View, run: Run)
    requires Inv(w) && view == LoadedView(w.disk) && run == CommandRun(w.disk, BlockFamily(f, reason))
    ensures run.ok <==> Known(w.disk.ledger, f) && reason != ""
    ensures if run.ok
            then f in view
                 && EventAndEntry(w.disk, DoAll(w, run.effects).disk, FamilyBlocked(f, reason), view, f,
                                  view[f].(status := Blocked, blockReason := reason))
            else run.effects == []
  {
    LoadedFacts(w, view);
    if CanBlock(view, f, reason) {
      EventThenSaved(w, FamilyBlocked(f, reason), view[f := BlockedApproach(view[f], reason)], run);
    }
  }

  /** families reopen goes through for a family whose latest standing in the ledger is a block, which is not marked
      exhausted, on a mechanism that is neither the one of record nor the one it was last reopened on. */
  lemma ReopenOutcome(w: World, f: string, m: string, view: View, run: Run)
    requires Inv(w) && view == LoadedView(w.disk) && run == CommandRun(w.disk, ReopenFamily(f, m))
    ensures run.ok <==>
              && Known(w.disk.ledger, f) && StandingOf(w.disk.ledger, f).Shut? && !ExhaustedIn(w.disk, f)
              && m != "" && m != MechanismOf(w.disk.ledger, f) && f in view && m != view[f].lastNewMechanism
    ensures if run.ok
            then f in view
                 && EventAndEntry(w.disk, DoAll(w, run.effects).disk, FamilyReopened(f, m), view, f,
                                  view[f].(status := Active, blockReason := "", lastNewMechanism := m,
                                           attempts := view[f].attempts + 1))
            else run.effects == []
  {
    LoadedFacts(w, view);
    LoadedExhaustion(w.disk, f);
    if CanReopen(view, f, m) {
      EventThenSaved(w, FamilyReopened(f, m), view[f := ReopenedApproach(view[f], m)], run);
    }
  }

  /** families list saves the view of the ledger, unless that is empty, and nothing else. */
  lemma ListOutcome(w: World, view: View, run: Run)
    requires Inv(w) && view == LoadedView(w.disk) && run == CommandRun(w.disk, ListFamilies)
    ensures run.ok
    ensures DoAll(w, run.effects).disk == if view == map[] then w.disk else w.disk.(registry := Some(view))
  {
    LoadedFacts(w, view);
    ReconcileIdempotent(if w.disk.registry.Some? then w.disk.registry.value else map[], w.disk.ledger);
    SavedWorld(w, view);
  }

  // ---- families seed ----

  /** The listed families that the ledger does not know, in order, as added. */
  function Additions(view: View, seeds: seq<Seed>): Events {
    if seeds == [] then []
    else (if seeds[0].family in view then [] else [FamilyAdded(seeds[0].family, seeds[0].mechanism)])
         + Additions(view, seeds[1..])
  }

  /** They are the additions of exactly those families. */
  lemma {:induction false} AdditionsExactly(view: View, seeds: seq<Seed>)
    ensures forall e :: e in Additions(view, seeds) <==>
              exists s | s in seeds :: s.family !in view && e == FamilyAdded(s.family, s.mechanism)
  {
    if seeds != [] {
      AdditionsExactly(view, seeds[1..]);
      assert seeds == [seeds[0]] + seeds[1..];
    }
  }

  /** And they come in the order of the list. */
  lemma {:induction false} AdditionsInOrder(view: View, seeds: seq<Seed>, i: nat, j: nat)
    requires i <= j < |seeds| && seeds[i].family !in view && seeds[j].family !in view
    ensures exists a, b :: && 0 <= a <= b < |Additions(view, seeds)| && (a < b <==> i < j)
                           && Additions(view, seeds)[a] == FamilyAdded(seeds[i].family, seeds[i].mechanism)
                           && Additions(view, seeds)[b] == FamilyAdded(seeds[j].family, seeds[j].mechanism)
  {
    var more, rest := Additions(view, seeds), Additions(view, seeds[1..]);
    var shift := if seeds[0].family in view then 0 else 1;
    if j > 0 {
      AdditionsInOrder(view, seeds[1..], if i == 0 then j - 1 else i - 1, j - 1);
      var k := if i == 0 then j else i;
      var a, b :| && 0 <= a <= b < |rest| && (a < b <==> k < j)
                  && rest[a] == FamilyAdded(seeds[k].family, seeds[k].mechanism)
                  && rest[b] == FamilyAdded(seeds[j].family, seeds[j].mechanism);
      assert more[a + shift] == rest[a] && more[b + shift] == rest[b];
    }
    if i == 0 {
      assert more[0] == FamilyAdded(seeds[0].family, seeds[0].mechanism);
    }
  }

  /** A list of families that does not repeat any. */
  predicate NoFamilyTwice(seeds: seq<Seed>) {
    forall i, j | 0 <= i < j < |seeds| :: seeds[i].family != seeds[j].family
  }

  lemma {:induction false} AdditionsAlike(view: View, s: Seed, a: Approach, seeds: seq<Seed>)
    requires forall t | t in seeds :: t.family != s.family
    ensures Additions(view[s.family := a], seeds) == Additions(view, seeds)
  {
    if seeds != [] {
      AdditionsAlike(view, s, a, seeds[1..]);
    }
  }

  lemma {:induction false} SeedAppends(view: View, seeds: seq<Seed>, run: Run)
    requires run == SeedEffects(view, seeds) && NoFamilyTwice(seeds) && SavableView(view)
    requires forall s | s in seeds :: ValidName(s.family)
    ensures run.ok && Appended(run.effects) == Additions(view, seeds)
    decreases |seeds|
  {
    if seeds == [] {
      assert Appended(run.effects) == [] by { assert [SaveRegistry(view)][1..] == []; }
    } else {
      var s := seeds[0];
      assert forall t | t in seeds[1..] :: t in seeds && t.family != s.family;
      if s.family in view {
        SeedAppends(view, seeds[1..], run);
        assert [] + Additions(view, seeds[1..]) == Additions(view, seeds[1..]);
      } else {
        var view' := view[s.family := NewApproach(s.family, s.mechanism)];
        var rest := SeedEffects(view', seeds[1..]);
        SeedAppends(view', seeds[1..], rest);
        AdditionsAlike(view, s, view'[s.family], seeds[1..]);
        assert run.effects[1..] == rest.effects;
      }
    }
  }

  /** The registry saved at the end mirrors the ledger, and nothing else has changed. */
  ghost predicate MirrorSaved(d: Disk, d': Disk) {
    && d' == d.(ledger := d'.ledger, registry := d'.registry)
    && d'.registry.Some? && Mirrors(d'.registry.value, d'.ledger)
  }

  lemma {:induction false} SeedSaves(w: World, view: View, seeds: seq<Seed>, run: Run)
    requires Inv(w) && Mirrors(view, w.disk.ledger) && run == SeedEffects(view, seeds)
    requires forall s | s in seeds :: ValidName(s.family) && !Blank(s.mechanism)
    ensures MirrorSaved(w.disk, DoAll(w, run.effects).disk)
    decreases |seeds|
  {
    if seeds == [] {
      MirrorIsSavable(view, w.disk.ledger);
      SavedWorld(w, view);
    } else {
      var s := seeds[0];
      assert s in seeds && forall t | t in seeds[1..] :: t in seeds;
      if s.family in view {
        SeedSaves(w, view, seeds[1..], run);
      } else {
        var e, view' := FamilyAdded(s.family, s.mechanism), view[s.family := NewApproach(s.family, s.mechanism)];
        var rest := SeedEffects(view', seeds[1..]);
        MirrorAfterAdd(view, w.disk.ledger, s.family, s.mechanism);
        AppendKeepsInv(w, e);
        SeedSaves(Do(w, Append(e)), view', seeds[1..], rest);
        assert run.effects[1..] == rest.effects;
      }
    }
  }

  /** The entry can be seeded: a valid name, a mechanism, and no other mechanism of record. */
  ghost predicate Seedable(es: Events, s: Seed) {
    ValidName(s.family) && !Blank(s.mechanism) && (Known(es, s.family) ==> MechanismOf(es, s.family) == s.mechanism)
  }

  lemma NamesAreNotBlank(f: string)
    requires ValidName(f)
    ensures !Blank(f)
  {
    ValidNameIsNotEmpty(f);
    assert f[0] in f;
  }

  lemma SeedsValidExactly(w: World, seeds: seq<Seed>, view: View)
    requires Inv(w) && view == LoadedView(w.disk)
    ensures SeedsValid(view, seeds) <==>
            seeds != [] && NoFamilyTwice(seeds) && forall s | s in seeds :: Seedable(w.disk.ledger, s)
  {
    LoadedFacts(w, view);
    forall s | s in seeds && ValidName(s.family) ensures !Blank(s.family) {
      NamesAreNotBlank(s.family);
    }
  }

  /** What the additions make known, and that they leave the mechanisms of record alone. */
  lemma {:induction false} AddedAreKnown(es: Events, more: Events, f: string, m: string)
    requires forall e | e in more :: e.FamilyAdded?
    ensures Known(es + more, f) <==> Known(es, f) || exists e | e in more :: e.family == f
    ensures (forall e | e in more :: e.family != f) ==> MechanismOf(es + more, f) == MechanismOf(es, f)
    ensures (exists e | e in more :: e.family == f) && (forall e | e in more && e.family == f :: e.mechanism == m) ==>
              MechanismOf(es + more, f) == m
    decreases |more|
  {
    if more == [] {
      assert es + more == es;
    } else {
      var front, last := more[..|more| - 1], more[|more| - 1];
      assert more == front + [last] && es + more == es + front + [last];
      AddedAreKnown(es, front, f, m);
      Extended(es + front, last);
      KnownAfter(es + front + [last], f);
    }
  }

  /** families seed goes through for a list that is not empty, names no family twice, and has only entries that can be
      seeded. It adds the families not yet known, in order, so that every listed family is then known with the mechanism
      listed, and saves the registry. Otherwise nothing is written. */
  lemma SeedOutcome(w: World, seeds: seq<Seed>, view: View, run: Run)
    requires Inv(w) && view == LoadedView(w.disk) && run == CommandRun(w.disk, SeedFamilies(seeds))
    ensures run.ok <==> seeds != [] && NoFamilyTwice(seeds) && forall s | s in seeds :: Seedable(w.disk.ledger, s)
    ensures if run.ok
            then Seeded(w.disk, DoAll(w, run.effects).disk, view, seeds)
            else run.effects == []
  {
    SeedsValidExactly(w, seeds, view);
    if SeedsValid(view, seeds) {
      LoadedFacts(w, view);
      LoadedViewMirrors(w);
      SeedAppends(view, seeds, run);
      SeedSaves(w, view, seeds, run);
      LedgerGrows(w, run.effects);
      AllSeeded(w.disk.ledger, view, seeds);
    }
  }

  ghost predicate Seeded(d: Disk, d': Disk, view: View, seeds: seq<Seed>) {
    && MirrorSaved(d, d') && d'.ledger == d.ledger + Additions(view, seeds)
    && forall s | s in seeds :: Known(d'.ledger, s.family) && MechanismOf(d'.ledger, s.family) == s.mechanism
  }

  lemma AllSeeded(es: Events, view: View, seeds: seq<Seed>)
    requires NoFamilyTwice(seeds) && (forall f :: f in view <==> Known(es, f))
    requires forall s | s in seeds :: Seedable(es, s)
    ensures forall s | s in seeds ::
              var es' := es + Additions(view, seeds); Known(es', s.family) && MechanismOf(es', s.family) == s.mechanism
  {
    var more := Additions(view, seeds);
    AdditionsExactly(view, seeds);
    forall s | s in seeds ensures Known(es + more, s.family) && MechanismOf(es + more, s.family) == s.mechanism {
      AddedAreKnown(es, more, s.family, s.mechanism);
      if s.family !in view {
        var e := FamilyAdded(s.family, s.mechanism);
        assert e in more && e.family == s.family;
        forall x | x in more && x.family == s.family ensures x.mechanism == s.mechanism {
          var t :| t in seeds && t.family !in view && x == FamilyAdded(t.family, t.mechanism);
          SameEntry(seeds, s, t);
        }
      }
    }
  }

  lemma SameEntry(seeds: seq<Seed>, s: Seed, t: Seed)
    requires NoFamilyTwice(seeds) && s in seeds && t in seeds && s.family == t.family
    ensures s == t
  {
    var i :| 0 <= i < |seeds| && seeds[i] == s;
    var j :| 0 <= j < |seeds| && seeds[j] == t;
  }
}
