/** The events campaign commands append, and what a list of them says about each family.
    The ledger is the source of truth; everything here is a function of it. */
module CampaignLedger {
  import opened Registries

  datatype ResultStatus = Progress | ResultBlocked | Finding | Refuted

  datatype Request = Request(id: string, round: int, family: string, mechanism: string)

  /** A published event carries the SHA-256 of the whole envelope; the model records the envelope
      itself, so equal digests mean equal envelopes. */
  datatype Event =
    | FamilyAdded(family: string, mechanism: string)
    | FamilyBlocked(family: string, reason: string)
    | FamilyReopened(family: string, mechanism: string)
    | RequestPublished(id: string, round: int, family: string, envelope: Request)
    | ResultIngested(id: string, family: string, status: ResultStatus, blockReason: string)
    | Unrelated

  type Events = seq<Event>

  function EventFamily(e: Event): string {
    if e.Unrelated? then "" else e.family
  }

  function Front(es: Events): Events
    requires es != []
  {
    es[..|es| - 1]
  }

  function Last(es: Events): Event
    requires es != []
  {
    es[|es| - 1]
  }

  /** Was the family ever added? */
  ghost predicate Known(es: Events, f: string) {
    exists e | e in es :: e.FamilyAdded? && e.family == f
  }

  predicate IsDispatch(e: Event, f: string) {
    (e.RequestPublished? || e.FamilyReopened?) && e.family == f
  }

  /** How many publications and reopenings the family has had. */
  function Dispatches(es: Events, f: string): nat {
    if es == [] then 0 else Dispatches(Front(es), f) + if IsDispatch(Last(es), f) then 1 else 0
  }

  datatype Standing = Untouched | Open | Shut(reason: string)

  function StandingAfter(e: Event, f: string, before: Standing): Standing {
    match e
    case FamilyReopened(g, _) => if g == f then Open else before
    case FamilyBlocked(g, reason) => if g == f then Shut(reason) else before
    case ResultIngested(_, g, status, reason) => if g == f && status == ResultBlocked then Shut(reason) else before
    case _ => before
  }

  /** The family's latest block, reopening or blocked result. */
  function StandingOf(es: Events, f: string): Standing {
    if es == [] then Untouched else StandingAfter(Last(es), f, StandingOf(Front(es), f))
  }

  /** The mechanism of record: the latest reopening's, else the one the family was added with. */
  function MechanismOf(es: Events, f: string): string {
    if es == [] then ""
    else match Last(es)
      case FamilyReopened(g, m) => if g == f then m else MechanismOf(Front(es), f)
      case FamilyAdded(g, m) => if g == f then m else MechanismOf(Front(es), f)
      case _ => MechanismOf(Front(es), f)
  }

  /** The approach the ledger records for a family; the last new mechanism is not in the ledger. */
  function Recorded(es: Events, f: string): Approach {
    var standing := StandingOf(es, f);
    Approach(f, MechanismOf(es, f), if standing.Shut? then Blocked else Active, 1 + Dispatches(es, f),
             if standing.Shut? then standing.reason else "", "")
  }

  /** Does an approach agree with the recorded one on everything the ledger records? Exhaustion is a decision the
      ledger does not record; an exhausted family has a status, and maybe a block reason, of its own. */
  predicate Agrees(a: Approach, b: Approach) {
    if a.status == Exhausted
    then a == b.(lastNewMechanism := a.lastNewMechanism, status := Exhausted, blockReason := a.blockReason)
    else a == b.(lastNewMechanism := a.lastNewMechanism)
  }

  // ---- Replaying the ledger over a materialised view ----

  function ReplayEvent(view: View, e: Event): View {
    match e
    case FamilyAdded(f, m) => if CanAdd(view, f, m) then view[f := NewApproach(f, m)] else view
    case FamilyReopened(f, m) =>
      if f != "" && f in view then view[f := view[f].(family := f, mechanism := m)] else view
    case FamilyBlocked(f, reason) =>
      if f != "" && CanBlock(view, f, reason) && view[f].status == Active
      then view[f := BlockedApproach(view[f], reason)] else view
    case _ => view
  }

  function Replay(view: View, es: Events): View {
    if es == [] then view else ReplayEvent(Replay(view, Front(es)), Last(es))
  }

  function CountAttempts(a: Approach, es: Events, f: string): Approach {
    if f != "" && Dispatches(es, f) > 0 then a.(family := f, attempts := 1 + Dispatches(es, f)) else a
  }

  /** ReconcileFromLedger's effect on one family. */
  function RestoreStanding(a: Approach, es: Events, f: string): Approach {
    var standing := StandingOf(es, f);
    if f == "" || standing.Untouched? || a.status == Exhausted then a
    else if standing.Shut? then (if standing.reason == "" then a else BlockedApproach(a, standing.reason))
    else if a.status == Blocked then a.(family := f, status := Active, blockReason := "")
    else a
  }

  function Reconcile(view: View, es: Events): View {
    var replayed := Replay(view, es);
    map f | f in replayed :: RestoreStanding(CountAttempts(replayed[f], es, f), es, f)
  }

  ghost predicate BlocksHaveReasons(es: Events) {
    forall f :: StandingOf(es, f).Shut? ==> StandingOf(es, f).reason != ""
  }

  /** The scan of ReconcileFromLedger: which families an event touched, and which end up blocked and why. */
  method ScanStandings(events: Events) returns (blocked: map<string, string>, touched: set<string>)
    ensures forall f :: f in touched <==> f != "" && !StandingOf(events, f).Untouched?
    ensures forall f :: f in blocked <==> f != "" && StandingOf(events, f).Shut?
    ensures forall f | f in blocked :: blocked[f] == StandingOf(events, f).reason
  {
    blocked, touched := map[], {};
    for i := 0 to |events|
      invariant forall f :: f in touched <==> f != "" && !StandingOf(events[..i], f).Untouched?
      invariant forall f :: f in blocked <==> f != "" && StandingOf(events[..i], f).Shut?
      invariant forall f | f in blocked :: blocked[f] == StandingOf(events[..i], f).reason
    {
      assert events[..i + 1] == events[..i] + [events[i]] && Front(events[..i + 1]) == events[..i];
      var event := events[i];
      var family := EventFamily(event);
      if family == "" {
        continue;
      }
      if event.FamilyReopened? {
        blocked := blocked - {family};
        touched := touched + {family};
      } else if event.FamilyBlocked? {
        blocked := blocked[family := event.reason];
        touched := touched + {family};
      } else if event.ResultIngested? && event.status == ResultBlocked {
        blocked := blocked[family := event.blockReason];
        touched := touched + {family};
      }
    }
    assert events[..|events|] == events;
  }

  /** Every block of a family that is there and not exhausted has its reason. */
  ghost predicate Restorable(view: View, es: Events) {
    forall f | f in view && f != "" && view[f].status != Exhausted && StandingOf(es, f).Shut? ::
        StandingOf(es, f).reason != ""
  }

  /** ReconcileFromLedger. It gives up at the first family, in the order of the map, whose block has no reason; the
      families before it have been restored, the others are as they were. */
  method ReconcileFromLedger(reg: Registry, events: Events) returns (ok: bool)
    modifies reg
    ensures reg.approaches.Keys == old(reg.approaches).Keys
    ensures ok <==> Restorable(old(reg.approaches), events)
    ensures ok ==> forall f | f in reg.approaches ::
              reg.approaches[f] == RestoreStanding(old(reg.approaches)[f], events, f)
    ensures forall f | f in reg.approaches ::
              reg.approaches[f] == old(reg.approaches)[f]
                  || reg.approaches[f] == RestoreStanding(old(reg.approaches)[f], events, f)
  {
    var blocked, touched := ScanStandings(events);
    ghost var before := reg.approaches;
    var left := touched;
    while left != {}
      invariant left <= touched
      invariant reg.approaches.Keys == before.Keys
      invariant forall f | f in before && f !in left :: reg.approaches[f] == RestoreStanding(before[f], events, f)
      invariant forall f | f in before && f in left :: reg.approaches[f] == before[f]
      invariant forall f | f in before && f in touched && f !in left && before[f].status != Exhausted && f in blocked ::
                  blocked[f] != ""
      decreases left
    {
      var family :| family in left;
      left := left - {family};
      if family !in reg.approaches || reg.approaches[family].status == Exhausted {
        continue;
      }
      var approach := reg.approaches[family];
      if family in blocked {
        var done := reg.Block(family, blocked[family]);
        if !done {
          return false;
        }
        continue;
      }
      if approach.status == Blocked {
        approach := approach.(status := Active);
        approach := approach.(blockReason := "");
        var _ := reg.Set(family, approach);
      }
    }
    ok := true;
  }

  /** The first loop of reconcileRegistry: replays each event and counts attempts. */
  method ReplayAndCount(reg: Registry, events: Events) returns (attempts: map<string, nat>)
    modifies reg
    ensures reg.approaches == Replay(old(reg.approaches), events)
    ensures forall f :: f in attempts <==> f != "" && Dispatches(events, f) > 0
    ensures forall f | f in attempts :: attempts[f] == Dispatches(events, f)
  {
    attempts := map[];
    for i := 0 to |events|
      invariant reg.approaches == Replay(old(reg.approaches), events[..i])
      invariant forall f :: f in attempts <==> f != "" && Dispatches(events[..i], f) > 0
      invariant forall f | f in attempts :: attempts[f] == Dispatches(events[..i], f)
    {
      assert events[..i + 1] == events[..i] + [events[i]] && Front(events[..i + 1]) == events[..i];
      var event := events[i];
      var family := EventFamily(event);
      if family == "" {
        continue;
      }
      match event
      case FamilyAdded(_, mechanism) =>
        if family !in reg.approaches {
          var _ := reg.Add(family, mechanism);
        }
      case FamilyReopened(_, mechanism) =>
        attempts := attempts[family := (if family in attempts then attempts[family] else 0) + 1];
        if family in reg.approaches {
          var _ := reg.Set(family, reg.approaches[family].(mechanism := mechanism));
        }
      case FamilyBlocked(_, reason) =>
        if family in reg.approaches && reg.approaches[family].status == Active {
          var _ := reg.Block(family, reason);
        }
      case RequestPublished(_, _, _, _) =>
        attempts := attempts[family := (if family in attempts then attempts[family] else 0) + 1];
      case _ =>
    }
    assert events[..|events|] == events;
  }

  /** The second loop of reconcileRegistry, in whatever order the counts come out of the map. */
  method ApplyAttempts(reg: Registry, attempts: map<string, nat>)
    modifies reg
    ensures reg.approaches.Keys == old(reg.approaches).Keys
    ensures forall f | f in reg.approaches :: reg.approaches[f] ==
              if f in attempts then old(reg.approaches)[f].(family := f, attempts := 1 + attempts[f])
              else old(reg.approaches)[f]
  {
    ghost var before := reg.approaches;
    var left := attempts.Keys;
    while left != {}
      invariant left <= attempts.Keys
      invariant reg.approaches.Keys == before.Keys
      invariant forall f | f in before :: reg.approaches[f] ==
                  if f in attempts && f !in left
                  then before[f].(family := f, attempts := 1 + attempts[f]) else before[f]
      decreases left
    {
      var family :| family in left;
      left := left - {family};
      if family !in reg.approaches {
        continue;
      }
      var _ := reg.Set(family, reg.approaches[family].(attempts := 1 + attempts[family]));
    }
  }

  /** The registry between the two: replayed and counted, standings not yet restored. */
  function Counted(view: View, events: Events): View {
    var replayed := Replay(view, events);
    map f | f in replayed :: CountAttempts(replayed[f], events, f)
  }

  /** reconcileRegistry. It ignores the failure of its last part, which leaves some standings unrestored. */
  method ReconcileRegistry(reg: Registry, events: Events)
    modifies reg
    ensures Restorable(Counted(old(reg.approaches), events), events) ==>
            reg.approaches == Reconcile(old(reg.approaches), events)
    ensures var counted, restored := Counted(old(reg.approaches), events), Reconcile(old(reg.approaches), events);
            && reg.approaches.Keys == restored.Keys == counted.Keys
            && forall f | f in reg.approaches :: reg.approaches[f] == counted[f] || reg.approaches[f] == restored[f]
  {
    var attempts := ReplayAndCount(reg, events);
    ApplyAttempts(reg, attempts);
    assert reg.approaches == Counted(old(reg.approaches), events);
    var _ := ReconcileFromLedger(reg, events);
  }
}
