/** What the recursive readings of a ledger say, told by its events one by one. */
module LedgerReading {
  import opened Registries
  import opened CampaignLedger
  import opened Campaigns

  // ---- One family ----

  /** The event decides the family's standing: a block, a reopening, or a result that reports a block. */
  predicate Touches(e: Event, f: string) {
    || ((e.FamilyBlocked? || e.FamilyReopened?) && e.family == f)
    || (e.ResultIngested? && e.family == f && e.status == ResultBlocked)
  }

  /** The event names a mechanism for the family. */
  predicate Names(e: Event, f: string) { (e.FamilyAdded? || e.FamilyReopened?) && e.family == f }

  /** The standing such an event leaves. */
  function Leaves(e: Event): Standing {
    if e.FamilyReopened? then Open
    else if e.FamilyBlocked? then Shut(e.reason)
    else if e.ResultIngested? then Shut(e.blockReason) else Untouched
  }

  ghost predicate LatestTouch(es: Events, f: string, i: int) {
    0 <= i < |es| && Touches(es[i], f) && forall j | i < j < |es| :: !Touches(es[j], f)
  }

  ghost predicate LatestName(es: Events, f: string, i: int) {
    0 <= i < |es| && Names(es[i], f) && forall j | i < j < |es| :: !Names(es[j], f)
  }

  /** A family's standing is what the latest event that decides it leaves. */
  lemma {:induction false} StandingExactly(es: Events, f: string)
    ensures StandingOf(es, f).Untouched? <==> forall i | 0 <= i < |es| :: !Touches(es[i], f)
    ensures forall i | LatestTouch(es, f, i) :: StandingOf(es, f) == Leaves(es[i])
  {
    if es != [] {
      var last := |es| - 1;
      StandingExactly(Front(es), f);
      assert forall j | 0 <= j < last :: Front(es)[j] == es[j];
      if Touches(es[last], f) {
        assert forall i | LatestTouch(es, f, i) :: i == last;
      } else {
        assert forall i | LatestTouch(es, f, i) :: LatestTouch(Front(es), f, i);
      }
    }
  }

  /** Its mechanism of record is the one the latest addition or reopening names. */
  lemma {:induction false} MechanismExactly(es: Events, f: string)
    ensures (forall i | 0 <= i < |es| :: !Names(es[i], f)) ==> MechanismOf(es, f) == ""
    ensures forall i | LatestName(es, f, i) :: MechanismOf(es, f) == es[i].mechanism
  {
    if es != [] {
      var last := |es| - 1;
      MechanismExactly(Front(es), f);
      assert forall j | 0 <= j < last :: Front(es)[j] == es[j];
      if Names(es[last], f) {
        assert forall i | LatestName(es, f, i) :: i == last;
      } else {
        assert forall i | LatestName(es, f, i) :: LatestName(Front(es), f, i);
      }
    }
  }

  /** The positions of the family's publications and reopenings. */
  ghost function DispatchPlaces(es: Events, f: string): set<nat> {
    set i: nat | i < |es| && (es[i].RequestPublished? || es[i].FamilyReopened?) && es[i].family == f
  }

  lemma {:induction false} DispatchesExactly(es: Events, f: string)
    ensures Dispatches(es, f) == |DispatchPlaces(es, f)|
  {
    if es != [] {
      var last: nat := |es| - 1;
      DispatchesExactly(Front(es), f);
      var before := DispatchPlaces(Front(es), f);
      assert forall j | 0 <= j < last :: Front(es)[j] == es[j];
      assert last !in before;
      assert DispatchPlaces(es, f) == before + if IsDispatch(es[last], f) then {last} else {};
    }
  }

  // ---- Rounds ----

  /** The positions of the round's publications. */
  predicate PublishesIn(es: Events, round: int, i: int) {
    0 <= i < |es| && es[i].RequestPublished? && es[i].round == round
  }

  /** The listed positions, in ascending order, are all the publications of the round, and these are their families. */
  ghost predicate InLedgerOrder(es: Events, round: int, families: seq<string>, at: seq<int>) {
    && |at| == |families|
    && (forall i, j | 0 <= i < j < |at| :: at[i] < at[j])
    && (forall i :: i in at <==> PublishesIn(es, round, i))
    && (forall k | 0 <= k < |at| :: PublishesIn(es, round, at[k]) && es[at[k]].family == families[k])
  }

  lemma OnePublicationMore(es: Events, round: int, families: seq<string>, at: seq<int>)
    requires es != [] && InLedgerOrder(Front(es), round, families, at) && PublishesIn(es, round, |es| - 1)
    ensures InLedgerOrder(es, round, families + [Last(es).family], at + [|es| - 1])
  {
    var more := at + [|es| - 1];
    assert forall k | 0 <= k < |at| :: PublishesIn(Front(es), round, at[k]);
    forall i ensures i in more <==> PublishesIn(es, round, i) {
      assert i in at <==> PublishesIn(Front(es), round, i);
    }
  }

  lemma OneEventMore(es: Events, round: int, families: seq<string>, at: seq<int>)
    requires es != [] && InLedgerOrder(Front(es), round, families, at) && !PublishesIn(es, round, |es| - 1)
    ensures InLedgerOrder(es, round, families, at)
  {
    assert forall k | 0 <= k < |at| :: PublishesIn(Front(es), round, at[k]);
    forall i ensures i in at <==> PublishesIn(es, round, i) {
      assert i in at <==> PublishesIn(Front(es), round, i);
    }
  }

  ghost function Places(es: Events, round: int): seq<int> {
    if es == [] then []
    else if PublishesIn(es, round, |es| - 1) then Places(Front(es), round) + [|es| - 1]
    else Places(Front(es), round)
  }

  lemma {:induction false} PlacesInOrder(es: Events, round: int)
    ensures InLedgerOrder(es, round, PublishedFamilies(es, round), Places(es, round))
  {
    if es != [] {
      PlacesInOrder(Front(es), round);
      var families, at := PublishedFamilies(Front(es), round), Places(Front(es), round);
      if PublishesIn(es, round, |es| - 1) {
        OnePublicationMore(es, round, families, at);
      } else {
        OneEventMore(es, round, families, at);
        assert families + [] == families;
      }
    }
  }

  /** PublishedFamilies lists the families of a round's publications as the ledger has them, none left out. */
  lemma PublishedFamiliesExactly(es: Events, round: int)
    ensures exists at :: InLedgerOrder(es, round, PublishedFamilies(es, round), at)
  {
    PlacesInOrder(es, round);
  }

  /** HighestRound is the greatest round published, or 0 if no publication has a positive one. */
  lemma {:induction false} HighestRoundExactly(es: Events)
    ensures forall e | e in es && e.RequestPublished? :: e.round <= HighestRound(es)
    ensures HighestRound(es) > 0 ==> exists e | e in es && e.RequestPublished? :: e.round == HighestRound(es)
  {
    if es != [] {
      HighestRoundExactly(Front(es));
      assert es == Front(es) + [Last(es)];
    }
  }
}
