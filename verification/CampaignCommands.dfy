/** The commands as the program runs them: loading files, updating the registry and the round state in
    place, and writing to disk as they go. Each is proved to perform exactly the writes of its Run, and
    when the process dies after some number of writes, exactly that many of them. */
module CampaignCommands {
  import opened Text
  import opened RequestIds
  import opened Registries
  import opened CampaignLedger
  import opened Dispatch
  import opened Inboxes
  import opened Campaigns

  /** From disk d0 with w0 writes left to live, the run ends on d1 with w1 writes left, reporting ok. */
  ghost predicate Executed(d0: Disk, w0: nat, run: Run, d1: Disk, w1: nat, ok: bool) {
    if |run.effects| <= w0
    then d1 == ApplyAll(d0, run.effects) && w1 == w0 - |run.effects| && ok == run.ok
    else d1 == ApplyAll(d0, run.effects[..w0]) && w1 == 0 && !ok
  }

  lemma {:induction false} ApplyAllConcat(d: Disk, a: seq<Effect>, b: seq<Effect>)
    ensures ApplyAll(d, a + b) == ApplyAll(ApplyAll(d, a), b)
    decreases |a|
  {
    if a == [] {
      assert a + b == b;
    } else {
      ApplyAllConcat(Apply(d, a[0]), a[1..], b);
      assert (a + b)[1..] == a[1..] + b;
    }
  }

  /** A completed first part, then the rest. */
  lemma ExecutedAfter(d0: Disk, w0: nat, done: seq<Effect>, d: Disk, w: nat, rest: Run, d1: Disk, w1: nat, ok: bool)
    requires Executed(d0, w0, Run(done, true), d, w, true)
    requires Executed(d, w, rest, d1, w1, ok)
    ensures Executed(d0, w0, After(done, rest), d1, w1, ok)
  {
    var all := done + rest.effects;
    if |all| <= w0 {
      ApplyAllConcat(d0, done, rest.effects);
    } else {
      assert all[..w0] == done + rest.effects[..w];
      ApplyAllConcat(d0, done, rest.effects[..w]);
    }
  }

  lemma AfterAfter(a: seq<Effect>, b: seq<Effect>, rest: Run)
    ensures After(a, After(b, rest)) == After(a + b, rest)
  {
    assert a + (b + rest.effects) == a + b + rest.effects;
  }

  lemma PublicationKeepsReasons(es: Events, e: Event)
    requires BlocksHaveReasons(es) && e.RequestPublished?
    ensures BlocksHaveReasons(es + [e])
  {
    assert Front(es + [e]) == es && Last(es + [e]) == e;
    forall f ensures StandingOf(es + [e], f) == StandingOf(es, f) {
    }
  }

  lemma {:induction false} PublishingKeepsReasons(requests: map<string, Request>, view: View, todo: seq<string>,
                                                  round: nat, es: Events)
    requires BlocksHaveReasons(es)
    ensures BlocksHaveReasons(es + Appended(PublishRun(requests, view, todo, round).effects))
    decreases |todo|
  {
    if todo != [] && todo[0] in view && !Blank(view[todo[0]].mechanism)
       && Publishable(requests, RequestFor(view, todo[0], round))
    {
      var r := RequestFor(view, todo[0], round);
      var e, rest := PublicationEvent(r), PublishRun(requests[r.id := r], view, todo[1..], round).effects;
      PublicationKeepsReasons(es, e);
      PublishingKeepsReasons(requests[r.id := r], view, todo[1..], round, es + [e]);
      OnePublished(requests, r, rest);
      assert es + [e] + Appended(rest) == es + ([e] + Appended(rest));
    } else {
      assert es + [] == es;
    }
  }

  lemma OnePublished(requests: map<string, Request>, r: Request, rest: seq<Effect>)
    ensures Appended(PublicationEffects(requests, r) + rest) == [PublicationEvent(r)] + Appended(rest)
  {
    var all := PublicationEffects(requests, r) + rest;
    if r.id in requests {
      assert all[1..] == rest;
    } else {
      assert all[1..][1..] == rest;
    }
  }

  lemma {:induction false} LedgerAfter(d: Disk, effects: seq<Effect>)
    ensures ApplyAll(d, effects).ledger == d.ledger + Appended(effects)
    decreases |effects|
  {
    if effects != [] {
      LedgerAfter(Apply(d, effects[0]), effects[1..]);
    }
  }

  lemma ApplyNothing(d: Disk, run: Run)
    ensures ApplyAll(d, []) == d && After([], run) == run
  {
    assert [] + run.effects == run.effects;
  }

  /** A process that dies during the first part never reaches the rest. */
  lemma ExecutedCut(d0: Disk, w0: nat, first: Run, d: Disk, w: nat, ok: bool, rest: Run)
    requires Executed(d0, w0, first, d, w, ok) && |first.effects| > w0
    ensures Executed(d0, w0, After(first.effects, rest), d, w, false)
  {
    assert (first.effects + rest.effects)[..w0] == first.effects[..w0];
  }

  /** What a command needs of the directory: that no block in the ledger lacks its reason, which no command writes,
      and that the registry file lists each family under its name, which loading it sees to. */
  ghost predicate Usable(d: Disk) {
    BlocksHaveReasons(d.ledger) && (d.registry.Some? ==> Keyed(d.registry.value))
  }

  // ---- The loops of round plan ----

  /** The completion check of one round. */
  method CheckPublished(events: Events, families: seq<string>, round: nat) returns (complete: bool)
    ensures complete <==> AllPublished(events, families, round)
  {
    var published := PublishedIds(events, round);
    for i := 0 to |families|
      invariant forall j | 0 <= j < i :: RequestId(families[j], round) in published
    {
      if RequestId(families[i], round) !in published {
        assert families[i] in families;
        return false;
      }
    }
    complete := true;
  }

  ghost predicate Grouped(byRound: map<int, seq<string>>, es: Events) {
    && byRound.Keys == RecordedRounds(es)
    && (forall r | r in byRound :: byRound[r] == PublishedFamilies(es, r))
    && (forall r | r >= 1 && r !in byRound :: PublishedFamilies(es, r) == [])
  }

  function GroupEvent(byRound: map<int, seq<string>>, e: Event): map<int, seq<string>> {
    if e.RequestPublished? && e.round >= 1 then
      byRound[e.round := (if e.round in byRound then byRound[e.round] else []) + [e.family]]
    else byRound
  }

  lemma GroupedOneMore(byRound: map<int, seq<string>>, es: Events, e: Event)
    requires Grouped(byRound, es)
    ensures Grouped(GroupEvent(byRound, e), es + [e])
  {
    assert Front(es + [e]) == es && Last(es + [e]) == e;
    var more := GroupEvent(byRound, e);
    forall r ensures r in more.Keys <==> r in RecordedRounds(es + [e]) {
      RecordedOneMore(es, e, r);
    }
  }

  lemma RecordedOneMore(es: Events, e: Event, r: int)
    ensures r in RecordedRounds(es + [e]) <==> r in RecordedRounds(es) || (e.RequestPublished? && e.round == r >= 1)
  {
    if r in RecordedRounds(es) {
      var x :| x in es && x.RequestPublished? && x.round == r;
      assert x in es + [e];
    }
    assert e in es + [e];
  }

  /** Groups publications by round, as the byRound maps do. */
  method GroupByRound(events: Events) returns (byRound: map<int, seq<string>>)
    ensures byRound.Keys == RecordedRounds(events)
    ensures forall r | r in byRound :: byRound[r] == PublishedFamilies(events, r)
  {
    byRound := map[];
    for i := 0 to |events|
      invariant Grouped(byRound, events[..i])
    {
      GroupedOneMore(byRound, events[..i], events[i]);
      assert events[..i + 1] == events[..i] + [events[i]];
      var event := events[i];
      if event.RequestPublished? && event.round >= 1 {
        var r := event.round;
        byRound := byRound[r := (if r in byRound then byRound[r] else []) + [event.family]];
      }
    }
    assert events[..|events|] == events;
  }

  /** recoverRoundState: refuses a ledger with a publication of no positive round. */
  method RecoverRoundState(events: Events, maxWorkers: int) returns (ok: bool, state: RoundState)
    ensures ok <==> RoundsValid(events)
    ensures ok ==> state == Recovered(events, maxWorkers)
  {
    state := RoundState(0, maxWorkers, 0, [], map[]);
    for i := 0 to |events|
      invariant forall j | 0 <= j < i && events[j].RequestPublished? :: events[j].round >= 1
    {
      if events[i].RequestPublished? && events[i].round < 1 {
        assert events[i] in events;
        return false, state;
      }
    }
    ok := true;
    var byRound := GroupByRound(events);
    var highest := 0;
    for i := 0 to |events|
      invariant highest == HighestRound(events[..i])
      invariant highest != 0 ==> highest in RecordedRounds(events)
    {
      assert events[..i + 1] == events[..i] + [events[i]] && Front(events[..i + 1]) == events[..i];
      assert events[i] in events;
      if events[i].RequestPublished? && events[i].round > highest {
        highest := events[i].round;
      }
    }
    assert events[..|events|] == events;
    NoRoundZero(events);
    state := RoundState(highest + 1, maxWorkers, if highest > 0 then highest else 0,
                        if highest in byRound then byRound[highest] else [],
                        map r | r in byRound.Keys :: true);
  }

  lemma {:induction false} NoRoundZero(es: Events)
    requires RoundsValid(es)
    ensures PublishedFamilies(es, 0) == []
  {
    if es != [] {
      assert Last(es) in es;
      assert forall e | e in Front(es) :: e in es;
      NoRoundZero(Front(es));
    }
  }

  /** The rounds in done have been judged, the others keep their mark. */
  ghost predicate MarkedSoFar(es: Events, state: RoundState, marks: map<int, bool>, done: set<int>)
    requires done <= RecordedRounds(es)
  {
    && marks.Keys == state.publishedRounds.Keys + done
    && forall r | r in marks :: marks[r] == if r in done then RoundComplete(es, state, r) else state.publishedRounds[r]
  }

  lemma AllMarked(es: Events, state: RoundState, marks: map<int, bool>)
    requires MarkedSoFar(es, state, marks, RecordedRounds(es))
    ensures marks == Marks(es, state)
  {
    var all := Marks(es, state);
    assert marks.Keys == all.Keys;
    assert forall r | r in marks :: marks[r] == all[r];
  }

  lemma MarkedOneMore(es: Events, state: RoundState, marks: map<int, bool>, done: set<int>, r: int)
    requires done <= RecordedRounds(es) && r in RecordedRounds(es) && MarkedSoFar(es, state, marks, done)
    ensures MarkedSoFar(es, state, marks[r := RoundComplete(es, state, r)], done + {r})
  {
  }

  /** Re-judges the completion of every recorded round, in whatever order the map yields them. */
  method ReconstructMarks(events: Events, state: RoundState) returns (marks: map<int, bool>)
    ensures marks == Marks(events, state)
  {
    var byRound := GroupByRound(events);
    marks := state.publishedRounds;
    var left := byRound.Keys;
    while left != {}
      invariant left <= byRound.Keys
      invariant MarkedSoFar(events, state, marks, byRound.Keys - left)
      decreases left
    {
      var r :| r in left;
      MarkedOneMore(events, state, marks, byRound.Keys - left, r);
      assert byRound.Keys - (left - {r}) == (byRound.Keys - left) + {r};
      left := left - {r};
      var families := if Pending(state, r) then state.pendingPlan else byRound[r];
      var complete := CheckPublished(events, families, r);
      marks := marks[r := complete];
    }
    AllMarked(events, state, marks);
  }

  method AdvanceRound(marks: map<int, bool>, start: int) returns (round: int)
    ensures round == NextRound(marks, start)
  {
    round := start;
    while Marked(marks, round)
      invariant NextRound(marks, round) == NextRound(marks, start)
      decreases MarksFrom(marks, round)
    {
      assert round in MarksFrom(marks, round) && round !in MarksFrom(marks, round + 1);
      round := round + 1;
    }
  }

  method FilterActive(reg: Registry, families: seq<string>) returns (out: seq<string>)
    ensures out == ValidActive(reg.approaches, families)
  {
    out := [];
    for i := 0 to |families|
      invariant out + ValidActive(reg.approaches, families[i..]) == ValidActive(reg.approaches, families)
    {
      assert families[i..][1..] == families[i + 1..];
      if IsActive(reg.approaches, families[i]) {
        out := out + [families[i]];
      }
    }
  }

  method FilterUnpublished(events: Events, plan: seq<string>, round: nat) returns (todo: seq<string>)
    ensures todo == Unpublished(events, plan, round)
  {
    var published := PublishedIds(events, round);
    todo := [];
    for i := 0 to |plan|
      invariant todo + Unpublished(events, plan[i..], round) == Unpublished(events, plan, round)
    {
      assert plan[i..][1..] == plan[i + 1..];
      if RequestId(plan[i], round) !in published {
        todo := todo + [plan[i]];
      }
    }
  }

  /** A process working on a campaign directory, alive for a given number of durable writes. */
  class Campaign {
    var disk: Disk
    var writes: nat

    constructor (disk: Disk, writes: nat)
      ensures this.disk == disk && this.writes == writes
    {
      this.disk := disk;
      this.writes := writes;
    }

    /** One durable write, unless the process dies first. */
    method Write(e: Effect) returns (alive: bool)
      modifies this
      ensures Executed(old(disk), old(writes), Run([e], true), disk, writes, alive)
      ensures alive ==> disk == Apply(old(disk), e)
    {
      assert [e][1..] == [];
      if writes == 0 {
        assert [e][..0] == [];
        return false;
      }
      match e {
      case Append(event) => disk := disk.(ledger := disk.ledger + [event]);
      case WriteRequest(request) => disk := disk.(requests := disk.requests[request.id := request]);
      case SaveState(state) => disk := disk.(state := Some(state));
      case RecordPlan(state, _) => disk := disk.(state := Some(state));
      case SaveRegistry(view) => disk := disk.(registry := Some(view));
      case Consume(name) =>
        if name in disk.results {
          var file := disk.results[name];
          disk := disk.(results := disk.results - {name}, consumed := disk.consumed[name := file]);
        }
      }
      writes := writes - 1;
      alive := true;
    }

    /** Registry.Save: refuses unsafe names, then replaces the file. */
    method SaveRegistryFile(reg: Registry) returns (ok: bool)
      requires reg as object != this
      modifies this
      ensures Executed(old(disk), old(writes), SaveView(reg.approaches), disk, writes, ok)
    {
      if exists f | f in reg.approaches :: !ValidName(f) {
        return false;
      }
      ok := Write(SaveRegistry(reg.approaches));
    }

    /** Loads the registry file, or an empty registry, and reconciles it with the ledger. */
    method LoadReconciled() returns (reg: Registry)
      requires Usable(disk)
      ensures fresh(reg) && reg.approaches == LoadedView(disk)
    {
      reg := new Registry();
      if disk.registry.Some? {
        reg.approaches := disk.registry.value;
      }
      ReconcileRegistry(reg, disk.ledger);
    }

    method AddFamily(family: string, mechanism: string) returns (ok: bool)
      requires Usable(disk)
      modifies this
      ensures Executed(old(disk), old(writes), AddRun(old(disk), family, mechanism), disk, writes, ok)
    {
      var reg := LoadReconciled();
      if !ValidName(family) {
        return false;
      }
      var added := reg.Add(family, mechanism);
      if !added {
        return false;
      }
      ok := AppendThenSave(FamilyAdded(family, mechanism), reg);
    }

    method BlockFamily(family: string, reason: string) returns (ok: bool)
      requires Usable(disk)
      modifies this
      ensures Executed(old(disk), old(writes), BlockRun(old(disk), family, reason), disk, writes, ok)
    {
      var reg := LoadReconciled();
      var blocked := reg.Block(family, reason);
      if !blocked {
        return false;
      }
      ok := AppendThenSave(FamilyBlocked(family, reason), reg);
    }

    method ReopenFamily(family: string, mechanism: string) returns (ok: bool)
      requires Usable(disk)
      modifies this
      ensures Executed(old(disk), old(writes), ReopenRun(old(disk), family, mechanism), disk, writes, ok)
    {
      var reg := LoadReconciled();
      var reopened := reg.Reopen(family, mechanism);
      if !reopened {
        return false;
      }
      ok := AppendThenSave(FamilyReopened(family, mechanism), reg);
    }

    /** The shared tail of the family commands: the ledger first, the registry file after it. */
    method AppendThenSave(event: Event, reg: Registry) returns (ok: bool)
      modifies this
      ensures Executed(old(disk), old(writes), After([Append(event)], SaveView(reg.approaches)), disk, writes, ok)
    {
      ok := Write(Append(event));
      ghost var d, w := disk, writes;
      if !ok {
        ExecutedCut(old(disk), old(writes), Run([Append(event)], true), disk, writes, ok, SaveView(reg.approaches));
        return;
      }
      ok := SaveRegistryFile(reg);
      ExecutedAfter(old(disk), old(writes), [Append(event)], d, w, SaveView(reg.approaches), disk, writes, ok);
    }

    method ListFamilies() returns (ok: bool)
      requires Usable(disk)
      modifies this
      ensures Executed(old(disk), old(writes), ListRun(old(disk)), disk, writes, ok)
    {
      var reg := LoadReconciled();
      ReconcileRegistry(reg, disk.ledger);
      if reg.approaches == map[] {
        return true;
      }
      ok := SaveRegistryFile(reg);
    }

    method SeedFamilies(seeds: seq<Seed>) returns (ok: bool)
      requires Usable(disk)
      modifies this
      ensures Executed(old(disk), old(writes), SeedRun(old(disk), seeds), disk, writes, ok)
    {
      var reg := LoadReconciled();
      var valid := ValidateSeeds(reg, seeds);
      if !valid {
        return false;
      }
      ok := SeedAll(reg, seeds);
    }

    /** Adds the families not yet present, one ledger event each, then saves the registry once. */
    method SeedAll(reg: Registry, seeds: seq<Seed>) returns (ok: bool)
      requires forall s | s in seeds :: s.family != "" && s.mechanism != ""
      modifies this, reg
      ensures Executed(old(disk), old(writes), SeedEffects(old(reg.approaches), seeds), disk, writes, ok)
    {
      ghost var whole := SeedEffects(reg.approaches, seeds);
      ghost var done: seq<Effect> := [];
      assert seeds[0..] == seeds;
      ApplyNothing(disk, whole);
      for i := 0 to |seeds|
        invariant Executed(old(disk), old(writes), Run(done, true), disk, writes, true)
        invariant whole == After(done, SeedEffects(reg.approaches, seeds[i..]))
      {
        assert seeds[i..][1..] == seeds[i + 1..] && seeds[i] in seeds;
        var s := seeds[i];
        if s.family in reg.approaches {
          continue;
        }
        var _ := reg.Add(s.family, s.mechanism);
        ghost var e, rest := Append(FamilyAdded(s.family, s.mechanism)), SeedEffects(reg.approaches, seeds[i + 1..]);
        AfterAfter(done, [e], rest);
        ok := WriteNext(old(disk), old(writes), done, Append(FamilyAdded(s.family, s.mechanism)), rest);
        if !ok {
          return;
        }
        done := done + [e];
      }
      ghost var d, w := disk, writes;
      ok := SaveRegistryFile(reg);
      ExecutedAfter(old(disk), old(writes), done, d, w, SaveView(reg.approaches), disk, writes, ok);
    }

    /** The next write of a longer run that has so far done its first part. */
    method WriteNext(ghost d0: Disk, ghost w0: nat, ghost done: seq<Effect>, e: Effect, ghost rest: Run)
      returns (alive: bool)
      requires Executed(d0, w0, Run(done, true), disk, writes, true)
      modifies this
      ensures alive ==> Executed(d0, w0, Run(done + [e], true), disk, writes, true)
      ensures alive ==> disk == Apply(old(disk), e)
      ensures !alive ==> Executed(d0, w0, After(done, After([e], rest)), disk, writes, false)
    {
      ghost var d, w := disk, writes;
      alive := Write(e);
      if alive {
        ExecutedAfter(d0, w0, done, d, w, Run([e], true), disk, writes, true);
      } else {
        ExecutedCut(d, w, Run([e], true), disk, writes, false, rest);
        ExecutedAfter(d0, w0, done, d, w, After([e], rest), disk, writes, false);
      }
    }

    method ValidateSeeds(reg: Registry, seeds: seq<Seed>) returns (ok: bool)
      ensures ok <==> SeedsValid(reg.approaches, seeds)
      ensures ok ==> forall s | s in seeds :: s.family != "" && s.mechanism != ""
    {
      if |seeds| == 0 {
        return false;
      }
      var seen: set<string> := {};
      for i := 0 to |seeds|
        invariant forall f :: f in seen <==> exists j | 0 <= j < i :: seeds[j].family == f
        invariant forall j | 0 <= j < i ::
                    && !Blank(seeds[j].family) && !Blank(seeds[j].mechanism) && ValidName(seeds[j].family)
                    && (seeds[j].family in reg.approaches
                        ==> reg.approaches[seeds[j].family].mechanism == seeds[j].mechanism)
        invariant forall j, k | 0 <= j < k < i :: seeds[j].family != seeds[k].family
      {
        var item := seeds[i];
        assert item in seeds;
        if Blank(item.family) || Blank(item.mechanism) || !ValidName(item.family) {
          return false;
        }
        if item.family in seen {
          return false;
        }
        seen := seen + {item.family};
        if item.family in reg.approaches && reg.approaches[item.family].mechanism != item.mechanism {
          return false;
        }
      }
      ok := true;
    }

    // ---- round plan ----

    /** Publishes one request: the envelope unless it is already there, then its ledger event. */
    method PublishOne(request: Request, ghost d0: Disk, ghost w0: nat, ghost done: seq<Effect>, ghost rest: Run)
      returns (alive: bool)
      requires Executed(d0, w0, Run(done, true), disk, writes, true)
      requires request.id in disk.requests ==> disk.requests[request.id] == request
      modifies this
      ensures var effects := PublicationEffects(old(disk.requests), request);
              && (alive ==> Executed(d0, w0, Run(done + effects, true), disk, writes, true))
              && (!alive ==> Executed(d0, w0, After(done, After(effects, rest)), disk, writes, false))
      ensures alive ==> disk.requests == old(disk.requests)[request.id := request]
    {
      ghost var event := Append(PublicationEvent(request));
      ghost var written := done;
      if request.id !in disk.requests {
        AfterAfter([WriteRequest(request)], [event], rest);
        alive := WriteNext(d0, w0, done, WriteRequest(request), After([event], rest));
        if !alive {
          return;
        }
        written := done + [WriteRequest(request)];
        assert written + [event] == done + ([WriteRequest(request)] + [event]);
        AfterAfter(done, [WriteRequest(request)], After([event], rest));
      } else {
        assert [] + [event] == [event];
      }
      alive := WriteNext(d0, w0, written, Append(PublicationEvent(request)), rest);
    }

    /** The publication loop. */
    method PublishAll(reg: Registry, todo: seq<string>, round: nat) returns (ok: bool)
      modifies this
      ensures Executed(old(disk), old(writes), PublishRun(old(disk.requests), reg.approaches, todo, round), disk,
                       writes, ok)
    {
      ghost var whole := PublishRun(disk.requests, reg.approaches, todo, round);
      ghost var done: seq<Effect> := [];
      assert todo[0..] == todo;
      ApplyNothing(disk, whole);
      for i := 0 to |todo|
        invariant Executed(old(disk), old(writes), Run(done, true), disk, writes, true)
        invariant whole == After(done, PublishRun(disk.requests, reg.approaches, todo[i..], round))
      {
        assert todo[i..][1..] == todo[i + 1..] && todo[i..][0] == todo[i];
        var family := todo[i];
        if family !in reg.approaches || Blank(reg.approaches[family].mechanism) {
          assert done + [] == done;
          return false;
        }
        var request := Request(RequestId(family, round), round, family, reg.approaches[family].mechanism);
        if !ValidRequest(request) || (request.id in disk.requests && disk.requests[request.id] != request) {
          assert done + [] == done;
          return false;
        }
        ghost var effects := PublicationEffects(disk.requests, request);
        ghost var rest := PublishRun(disk.requests[request.id := request], reg.approaches, todo[i + 1..], round);
        AfterAfter(done, effects, rest);
        ok := PublishOne(request, old(disk), old(writes), done, rest);
        if !ok {
          return;
        }
        done := done + effects;
      }
      assert done + [] == done;
      ok := true;
    }

    /** The end of round plan: reconcile, retire the round if its whole plan is on the ledger, save. */
    method FinishRound(reg: Registry, state: RoundState, round: nat) returns (ok: bool)
      requires BlocksHaveReasons(disk.ledger)
      modifies this, reg
      ensures Executed(old(disk), old(writes), FinishRun(old(disk.ledger), old(reg.approaches), state, round), disk,
                       writes, ok)
    {
      ReconcileRegistry(reg, disk.ledger);
      var fullyPublished := CheckPublished(disk.ledger, state.pendingPlan, round);
      if !fullyPublished {
        ok := SaveRegistryFile(reg);
        return;
      }
      ok := SaveStateThenRegistry(Advanced(state, state.publishedRounds, round), reg);
    }

    method SaveStateThenRegistry(state: RoundState, reg: Registry) returns (ok: bool)
      modifies this
      ensures Executed(old(disk), old(writes), After([SaveState(state)], SaveView(reg.approaches)), disk, writes, ok)
    {
      ok := Write(SaveState(state));
      ghost var d, w := disk, writes;
      if !ok {
        ExecutedCut(old(disk), old(writes), Run([SaveState(state)], true), disk, writes, ok, SaveView(reg.approaches));
        return;
      }
      ok := SaveRegistryFile(reg);
      ExecutedAfter(old(disk), old(writes), [SaveState(state)], d, w, SaveView(reg.approaches), disk, writes, ok);
    }

    method DispatchPlan(reg: Registry, state: RoundState, todo: seq<string>, round: nat) returns (ok: bool)
      requires BlocksHaveReasons(disk.ledger)
      modifies this, reg
      ensures Executed(old(disk), old(writes), DispatchRun(old(disk), old(reg.approaches), state, todo, round), disk,
                       writes, ok)
    {
      ghost var published := PublishRun(disk.requests, reg.approaches, todo, round);
      ok := PublishAll(reg, todo, round);
      ghost var d, w := disk, writes;
      if !ok {
        if published.ok {
          ghost var rest := FinishRun(old(disk.ledger) + Appended(published.effects), reg.approaches, state, round);
          ExecutedCut(old(disk), old(writes), published, disk, writes, ok, rest);
        }
        return;
      }
      LedgerAfter(old(disk), published.effects);
      PublishingKeepsReasons(old(disk.requests), reg.approaches, todo, round, old(disk.ledger));
      ok := FinishRound(reg, state, round);
      ghost var rest := FinishRun(d.ledger, old(reg.approaches), state, round);
      ExecutedAfter(old(disk), old(writes), published.effects, d, w, rest, disk, writes, ok);
    }

    /** One round with one plan. */
    method WorkRound(reg: Registry, state: RoundState, round: nat, plan: seq<string>, maxWorkers: nat)
      returns (ok: bool)
      requires BlocksHaveReasons(disk.ledger)
      modifies this, reg
      ensures Executed(old(disk), old(writes), RoundRun(old(disk), old(reg.approaches), state, round, plan, maxWorkers),
                       disk, writes, ok)
    {
      var marks := ReconstructMarks(disk.ledger, state);
      var here := state.(round := round, publishedRounds := marks);
      if |plan| == 0 && Pending(state, round) {
        var cleared := here.(pendingRound := 0, pendingPlan := []);
        var _ := Write(SaveState(cleared));
        return false;
      }
      var todo := FilterUnpublished(disk.ledger, plan, round);
      if |todo| == 0 {
        ok := SaveStateThenRegistry(Advanced(here, marks, round), reg);
        return;
      }
      if Pending(state, round) {
        ok := DispatchPlan(reg, here, todo, round);
        return;
      }
      var recorded := here.(pendingRound := round, pendingPlan := plan);
      ok := RecordAndDispatch(reg, recorded, todo, round, maxWorkers);
    }

    /** Records the plan durably before anything of it is published. */
    method RecordAndDispatch(reg: Registry, recorded: RoundState, todo: seq<string>, round: nat, maxWorkers: nat)
      returns (ok: bool)
      requires BlocksHaveReasons(disk.ledger)
      modifies this, reg
      ensures Executed(old(disk), old(writes),
                       After([RecordPlan(recorded, maxWorkers)],
                             DispatchRun(old(disk), old(reg.approaches), recorded, todo, round)),
                       disk, writes, ok)
    {
      ghost var record := RecordPlan(recorded, maxWorkers);
      ghost var rest := DispatchRun(disk, reg.approaches, recorded, todo, round);
      ok := Write(RecordPlan(recorded, maxWorkers));
      ghost var d, w := disk, writes;
      if !ok {
        ExecutedCut(old(disk), old(writes), Run([record], true), disk, writes, ok, rest);
        return;
      }
      assert rest == DispatchRun(disk, reg.approaches, recorded, todo, round);
      ok := DispatchPlan(reg, recorded, todo, round);
      ExecutedAfter(old(disk), old(writes), [record], d, w, rest, disk, writes, ok);
    }

    method WorkCurrentRound(reg: Registry, state: RoundState, maxWorkers: nat) returns (ok: bool)
      requires BlocksHaveReasons(disk.ledger) && Keyed(reg.approaches) && state.round >= 1
      modifies this, reg
      ensures Executed(old(disk), old(writes), StartRound(old(disk), old(reg.approaches), state, maxWorkers), disk,
                       writes, ok)
    {
      if reg.approaches == map[] {
        return false;
      }
      var marks := ReconstructMarks(disk.ledger, state);
      var round := AdvanceRound(marks, state.round);
      var plan;
      if Pending(state, round) {
        plan := FilterActive(reg, state.pendingPlan);
      } else {
        plan := PlanFamilies(reg, maxWorkers);
      }
      ok := WorkRound(reg, state, round, plan, maxWorkers);
    }

    method RoundPlan(maxWorkers: nat) returns (ok: bool)
      requires Usable(disk)
      modifies this
      ensures Executed(old(disk), old(writes), PlanRun(old(disk), maxWorkers), disk, writes, ok)
    {
      if maxWorkers < 1 {
        return false;
      }
      var reg := LoadReconciled();
      LoadedViewIsKeyed(disk);
      if disk.state.Some? {
        ok := WorkCurrentRound(reg, ReadState(disk.state.value), maxWorkers);
        return;
      }
      var recovered, state := RecoverRoundState(disk.ledger, maxWorkers);
      if !recovered {
        return false;
      }
      ok := Write(SaveState(state));
      ghost var d, w := disk, writes;
      ghost var rest := StartRound(old(disk).(state := Some(state)), reg.approaches, state, maxWorkers);
      if !ok {
        ExecutedCut(old(disk), old(writes), Run([SaveState(state)], true), disk, writes, ok, rest);
        return;
      }
      ok := WorkCurrentRound(reg, state, maxWorkers);
      ExecutedAfter(old(disk), old(writes), [SaveState(state)], d, w, rest, disk, writes, ok);
    }

    // ---- round ingest ----

    /** inbox.Consume: moves each listed file to results/consumed. */
    method ConsumeFiles(names: seq<string>) returns (ok: bool)
      modifies this
      ensures Executed(old(disk), old(writes), Run(ConsumeAll(names), true), disk, writes, ok)
    {
      ghost var whole := Run(ConsumeAll(names), true);
      ghost var done: seq<Effect> := [];
      assert names[0..] == names;
      ApplyNothing(disk, whole);
      for i := 0 to |names|
        invariant Executed(old(disk), old(writes), Run(done, true), disk, writes, true)
        invariant whole == After(done, Run(ConsumeAll(names[i..]), true))
      {
        assert names[i..][1..] == names[i + 1..];
        ghost var rest := Run(ConsumeAll(names[i + 1..]), true);
        AfterAfter(done, [Consume(names[i])], rest);
        ok := WriteNext(old(disk), old(writes), done, Consume(names[i]), rest);
        if !ok {
          return;
        }
        done := done + [Consume(names[i])];
      }
      assert done + [] == done;
      ok := true;
    }

    /** The append loop of round ingest. */
    method AppendResults(outstanding: map<string, string>, batch: seq<Collected>) returns (ok: bool)
      modifies this
      ensures Executed(old(disk), old(writes), IngestEvents(outstanding, batch), disk, writes, ok)
    {
      ghost var whole := IngestEvents(outstanding, batch);
      ghost var done: seq<Effect> := [];
      assert batch[0..] == batch;
      ApplyNothing(disk, whole);
      for i := 0 to |batch|
        invariant Executed(old(disk), old(writes), Run(done, true), disk, writes, true)
        invariant whole == After(done, IngestEvents(outstanding, batch[i..]))
      {
        assert batch[i..][1..] == batch[i + 1..] && batch[i..][0] == batch[i];
        var event := IngestedEvent(outstanding, batch[i].result);
        if !ValidName(event.family) {
          assert done + [] == done;
          return false;
        }
        ghost var rest := IngestEvents(outstanding, batch[i + 1..]);
        AfterAfter(done, [Append(event)], rest);
        ok := WriteNext(old(disk), old(writes), done, Append(event), rest);
        if !ok {
          return;
        }
        done := done + [Append(event)];
      }
      assert done + [] == done;
      ok := true;
    }

    /** Ingesting an accepted batch: registry in memory, events, files, registry on disk. */
    method IngestBatch(reg: Registry, outstanding: map<string, string>, batch: seq<Collected>) returns (ok: bool)
      modifies this, reg
      ensures Executed(old(disk), old(writes), BatchRun(old(reg.approaches), outstanding, batch), disk, writes, ok)
    {
      ghost var view := reg.approaches;
      ghost var events := IngestEvents(outstanding, batch);
      ok := CoordinatorIngest(reg, outstanding, batch);
      if !ok {
        return;
      }
      ghost var consume, save := ConsumeAll(Filenames(batch)), SaveView(reg.approaches);
      ok := AppendResults(outstanding, batch);
      ghost var d, w := disk, writes;
      if !ok {
        if events.ok {
          ExecutedCut(old(disk), old(writes), events, disk, writes, ok, After(consume, save));
          AfterAfter(events.effects, consume, save);
        }
        return;
      }
      ok := ConsumeFiles(Filenames(batch));
      if ok {
        ghost var d', w' := disk, writes;
        ok := SaveRegistryFile(reg);
        ExecutedAfter(d, w, consume, d', w', save, disk, writes, ok);
      } else {
        ExecutedCut(d, w, Run(consume, true), disk, writes, ok, save);
      }
      ExecutedAfter(old(disk), old(writes), events.effects, d, w, After(consume, save), disk, writes, ok);
      AfterAfter(events.effects, consume, save);
    }

    /** From the leftovers on: archive them, then work on what remains. */
    method IngestAfter(reg: Registry, leftovers: seq<string>, ghost files: map<string, ResultFile>,
                       ghost outstanding: map<string, string>)
      returns (ok: bool)
      requires files == disk.results - (set n | n in leftovers)
      requires outstanding == Outstanding(disk.requests, disk.ledger)
      modifies this, reg
      ensures Executed(old(disk), old(writes),
                       After(ConsumeAll(leftovers),
                             IngestRest(old(reg.approaches), old(disk.requests), old(disk.ledger), files, outstanding)),
                       disk, writes, ok)
    {
      ghost var rest := IngestRest(reg.approaches, disk.requests, disk.ledger, files, outstanding);
      ok := ConsumeFiles(leftovers);
      ghost var d, w := disk, writes;
      if !ok {
        ExecutedCut(old(disk), old(writes), Run(ConsumeAll(leftovers), true), disk, writes, ok, rest);
        return;
      }
      ConsumedDisk(old(disk), leftovers);
      ok := IngestRemaining(reg);
      ExecutedAfter(old(disk), old(writes), ConsumeAll(leftovers), d, w, rest, disk, writes, ok);
    }

    /** What ingest does once only unanswered result files remain. */
    method IngestRemaining(reg: Registry) returns (ok: bool)
      modifies this, reg
      ensures var d, outstanding := old(disk), Outstanding(old(disk.requests), old(disk.ledger));
              Executed(d, old(writes), IngestRest(old(reg.approaches), d.requests, d.ledger, d.results, outstanding),
                       disk, writes, ok)
    {
      var derived, outstanding := OutstandingFromLedger(disk.requests, disk.ledger);
      if !derived {
        return false;
      }
      var names := Sorted(disk.results.Keys);
      AscendingIsDistinct(names);
      var accepted, collected := CollectResults(disk.results, names, outstanding);
      if !accepted {
        return false;
      }
      ok := IngestBatch(reg, outstanding, collected);
    }

    /** The dispatch on the command line. */
    method Perform(c: Command) returns (ok: bool)
      requires Usable(disk)
      modifies this
      ensures Executed(old(disk), old(writes), CommandRun(old(disk), c), disk, writes, ok)
    {
      match c {
        case AddFamily(family, mechanism) => ok := AddFamily(family, mechanism);
        case BlockFamily(family, reason) => ok := BlockFamily(family, reason);
        case ReopenFamily(family, mechanism) => ok := ReopenFamily(family, mechanism);
        case ListFamilies => ok := ListFamilies();
        case SeedFamilies(seeds) => ok := SeedFamilies(seeds);
        case PlanRound(maxWorkers) => ok := RoundPlan(maxWorkers);
        case IngestRound => ok := RoundIngest();
      }
    }

    method RoundIngest() returns (ok: bool)
      requires Usable(disk)
      modifies this
      ensures Executed(old(disk), old(writes), IngestRun(old(disk)), disk, writes, ok)
    {
      var reg := LoadReconciled();
      var names := Sorted(disk.results.Keys);
      var readable, leftovers := LedgeredLeftovers(disk.results, names, AnsweredIds(disk.ledger));
      if !readable {
        return false;
      }
      ok := IngestAfter(reg, leftovers, Remaining(disk), Outstanding(disk.requests, disk.ledger));
    }
  }

  /** coordinator.State.Ingest: blocks the family of every blocked result. */
  method CoordinatorIngest(reg: Registry, outstanding: map<string, string>, batch: seq<Collected>) returns (ok: bool)
    modifies reg
    ensures ok <==> BlockResults(old(reg.approaches), outstanding, batch).Some?
    ensures ok ==> reg.approaches == BlockResults(old(reg.approaches), outstanding, batch).value
  {
    assert batch[0..] == batch;
    for i := 0 to |batch|
      invariant BlockResults(reg.approaches, outstanding, batch[i..])
                == BlockResults(old(reg.approaches), outstanding, batch)
    {
      assert batch[i..][1..] == batch[i + 1..] && batch[i..][0] == batch[i];
      var result := batch[i].result;
      if result.requestId !in outstanding {
        return false;
      }
      if result.status == ResultBlocked {
        var blocked := reg.Block(outstanding[result.requestId], result.blockReason);
        if !blocked {
          return false;
        }
      }
    }
    ok := true;
  }

  lemma LoadedViewIsKeyed(d: Disk)
    requires Usable(d)
    ensures Keyed(LoadedView(d))
  {
    ReplayKeyed(if d.registry.Some? then d.registry.value else map[], d.ledger);
  }

  lemma {:induction false} ReplayKeyed(view: View, es: Events)
    requires Keyed(view)
    ensures Keyed(Replay(view, es))
  {
    if es != [] {
      ReplayKeyed(view, Front(es));
    }
  }

  /** Consuming files takes them out of results and touches nothing ingest reads. */
  lemma {:induction false} ConsumedDisk(d: Disk, names: seq<string>)
    ensures var d' := ApplyAll(d, ConsumeAll(names));
            && d'.results == d.results - (set n | n in names)
            && d'.ledger == d.ledger && d'.requests == d.requests && d'.registry == d.registry
    decreases |names|
  {
    if names != [] {
      var first := Apply(d, Consume(names[0]));
      ConsumedDisk(first, names[1..]);
      assert ConsumeAll(names)[1..] == ConsumeAll(names[1..]);
      assert names == [names[0]] + names[1..];
    }
  }
}
