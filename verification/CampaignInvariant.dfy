/** What is true of a campaign directory after every durable write of every command, and so after a
    crash at any point. */
module CampaignInvariant {
  import opened Text
  import opened Registries
  import opened CampaignLedger
  import opened LedgerLaws
  import opened Dispatch
  import opened Inboxes
  import opened Campaigns

  /** A plan as recorded: the round, the families, and the max-workers of the invocation that recorded it. */
  datatype PlanRecord = PlanRecord(round: int, plan: seq<string>, workers: nat)

  /** The directory, with the history of plans ever recorded in it. */
  datatype World = World(disk: Disk, plans: seq<PlanRecord>)

  function Do(w: World, e: Effect): World {
    World(Apply(w.disk, e),
          if e.RecordPlan? then w.plans + [PlanRecord(e.state.round, e.state.pendingPlan, e.workers)] else w.plans)
  }

  function DoAll(w: World, es: seq<Effect>): World
    decreases |es|
  {
    if es == [] then w else DoAll(Do(w, es[0]), es[1..])
  }

  lemma {:induction false} DoAllDisk(w: World, es: seq<Effect>)
    ensures DoAll(w, es).disk == ApplyAll(w.disk, es)
    decreases |es|
  {
    if es != [] {
      DoAllDisk(Do(w, es[0]), es[1..]);
    }
  }

  lemma {:induction false} DoAllConcat(w: World, a: seq<Effect>, b: seq<Effect>)
    ensures DoAll(w, a + b) == DoAll(DoAll(w, a), b)
    decreases |a|
  {
    if a == [] {
      assert a + b == b;
    } else {
      DoAllConcat(Do(w, a[0]), a[1..], b);
      assert (a + b)[1..] == a[1..] + b;
    }
  }

  // ---- The invariant ----

  ghost predicate IsPublication(es: Events, e: Event) { e in es && e.RequestPublished? }

  /** No round past the state's has been published; its own round only within its pending plan. */
  ghost predicate StateOk(s: RoundState, es: Events) {
    && s.round >= 1
    && (s.pendingPlan != [] ==> s.pendingRound <= s.round)
    && Distinct(s.pendingPlan)
    && (forall f | f in s.pendingPlan :: Known(es, f))
    && (forall e | IsPublication(es, e) :: e.round <= s.round)
    && (Pending(s, s.round) ==>
          && !Marked(s.publishedRounds, s.round)
          && forall e | IsPublication(es, e) && e.round == s.round :: e.family in s.pendingPlan)
  }

  /** Every envelope sits under its own id, and every published request's envelope is there unchanged. */
  ghost predicate RequestsOk(requests: map<string, Request>, es: Events) {
    && (forall n | n in requests :: requests[n].id == n && ValidRequest(requests[n]))
    && (forall e | IsPublication(es, e) :: e.id in requests && requests[e.id] == e.envelope)
  }

  /** A record that accounts for everything published in its round, within its worker bound. */
  ghost predicate Covers(p: PlanRecord, es: Events, round: int) {
    && p.round == round && |p.plan| <= p.workers
    && forall e | IsPublication(es, e) && e.round == round :: e.family in p.plan
  }

  ghost predicate PlansOk(w: World) {
    var es := w.disk.ledger;
    && (forall e | IsPublication(es, e) :: exists p | p in w.plans :: Covers(p, es, e.round))
    && (w.disk.state.Some? && Pending(w.disk.state.value, w.disk.state.value.round) ==>
          var s := w.disk.state.value;
          exists p | p in w.plans :: p.round == s.round && p.plan == s.pendingPlan && |p.plan| <= p.workers)
  }

  ghost predicate Inv(w: World) {
    var d := w.disk;
    && Lawful(d.ledger)
    && (d.registry.Some? ==> Faithful(d.registry.value, d.ledger))
    && (d.state.Some? ==> StateOk(d.state.value, d.ledger))
    && RequestsOk(d.requests, d.ledger)
    && PlansOk(w)
  }

  // ---- Which writes keep it ----

  /** The publication belongs to the pending plan on disk, and its envelope is already written. */
  ghost predicate Publishing(d: Disk, e: Event)
    requires e.RequestPublished?
  {
    && d.state.Some?
    && d.state.value.round == e.round && Pending(d.state.value, e.round) && e.family in d.state.value.pendingPlan
    && e.id in d.requests && d.requests[e.id] == e.envelope
  }

  ghost predicate Allowed(w: World, e: Effect) {
    var es := w.disk.ledger;
    match e
    case Append(event) => LawfulNext(es, event) && (event.RequestPublished? ==> Publishing(w.disk, event))
    case WriteRequest(r) => r.id !in w.disk.requests && ValidRequest(r)
    case SaveState(s) => StateOk(s, es) && !Pending(s, s.round)
    case RecordPlan(s, workers) => StateOk(s, es) && |s.pendingPlan| <= workers
    case SaveRegistry(view) => Faithful(view, es)
    case Consume(_) => true
  }

  lemma Extended(es: Events, e: Event)
    ensures Front(es + [e]) == es && Last(es + [e]) == e
    ensures forall x :: x in es + [e] <==> x in es || x == e
  {
  }

  lemma FaithfulStays(view: View, es: Events, e: Event)
    requires Faithful(view, es) && LawfulNext(es, e)
    ensures Faithful(view, es + [e])
  {
    Extended(es, e);
    forall f | f in view ensures Known(es + [e], f) {
      var k :| k in es && k.FamilyAdded? && k.family == f;
      assert k in es + [e];
    }
  }

  lemma StateStays(s: RoundState, es: Events, e: Event)
    requires StateOk(s, es)
    requires e.RequestPublished? ==> e.round == s.round && Pending(s, e.round) && e.family in s.pendingPlan
    ensures StateOk(s, es + [e])
  {
    Extended(es, e);
    forall f | f in s.pendingPlan ensures Known(es + [e], f) {
      var k :| k in es && k.FamilyAdded? && k.family == f;
      assert k in es + [e];
    }
  }

  lemma PlansStay(w: World, e: Event)
    requires PlansOk(w) && (w.disk.state.Some? ==> StateOk(w.disk.state.value, w.disk.ledger))
    requires e.RequestPublished? ==> Publishing(w.disk, e)
    ensures PlansOk(Do(w, Append(e)))
  {
    var es := w.disk.ledger;
    Extended(es, e);
    forall x | IsPublication(es + [e], x) ensures exists p | p in w.plans :: Covers(p, es + [e], x.round) {
      if e.RequestPublished? && x.round == e.round {
        var s := w.disk.state.value;
        var p :| p in w.plans && p.round == s.round && p.plan == s.pendingPlan && |p.plan| <= p.workers;
        assert Covers(p, es + [e], x.round);
      } else {
        assert IsPublication(es, x);
        var p :| p in w.plans && Covers(p, es, x.round);
        assert Covers(p, es + [e], x.round);
      }
    }
  }

  lemma AppendKeepsInv(w: World, e: Event)
    requires Inv(w) && Allowed(w, Append(e))
    ensures Inv(Do(w, Append(e)))
  {
    var d := w.disk;
    Extended(d.ledger, e);
    PlansStay(w, e);
    if d.registry.Some? { FaithfulStays(d.registry.value, d.ledger, e); }
    if d.state.Some? { StateStaysAllowed(w, e); }
  }

  lemma StateStaysAllowed(w: World, e: Event)
    requires Inv(w) && Allowed(w, Append(e)) && w.disk.state.Some?
    ensures StateOk(w.disk.state.value, w.disk.ledger + [e])
  {
    StateStays(w.disk.state.value, w.disk.ledger, e);
  }

  lemma AllowedKeepsInv(w: World, e: Effect)
    requires Inv(w) && Allowed(w, e)
    ensures Inv(Do(w, e))
  {
    match e
    case Append(event) => AppendKeepsInv(w, event);
    case RecordPlan(s, workers) =>
      var record := PlanRecord(s.round, s.pendingPlan, workers);
      var w' := Do(w, e);
      assert record in w'.plans;
      forall x | IsPublication(w.disk.ledger, x) ensures exists p | p in w'.plans :: Covers(p, w.disk.ledger, x.round) {
        var p :| p in w.plans && Covers(p, w.disk.ledger, x.round);
        assert p in w'.plans;
      }
    case _ =>
  }

  ghost predicate AllAllowed(w: World, es: seq<Effect>)
    decreases |es|
  {
    es == [] || (Allowed(w, es[0]) && AllAllowed(Do(w, es[0]), es[1..]))
  }

  /** Whatever prefix of allowed writes happens, the invariant holds. */
  lemma {:induction false} PrefixKeepsInv(w: World, es: seq<Effect>, n: nat)
    requires Inv(w) && AllAllowed(w, es) && n <= |es|
    ensures Inv(DoAll(w, es[..n]))
    decreases n
  {
    if n > 0 {
      AllowedKeepsInv(w, es[0]);
      PrefixKeepsInv(Do(w, es[0]), es[1..], n - 1);
      assert es[..n][1..] == es[1..][..n - 1];
    }
  }

  lemma {:induction false} AllAllowedConcat(w: World, a: seq<Effect>, b: seq<Effect>)
    requires AllAllowed(w, a) && AllAllowed(DoAll(w, a), b)
    ensures AllAllowed(w, a + b)
    ensures DoAll(w, a + b) == DoAll(DoAll(w, a), b)
    decreases |a|
  {
    if a == [] {
      assert a + b == b;
    } else {
      AllAllowedConcat(Do(w, a[0]), a[1..], b);
      assert (a + b)[1..] == a[1..] + b;
    }
  }

  lemma WholeKeepsInv(w: World, es: seq<Effect>)
    requires Inv(w) && AllAllowed(w, es)
    ensures Inv(DoAll(w, es))
  {
    PrefixKeepsInv(w, es, |es|);
    assert es[..|es|] == es;
  }
}
