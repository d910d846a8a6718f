/** Runs of a campaign: any commands in any order, each cut short after any number of durable writes, with the
    state file or the registry file lost at any time, with families marked exhausted in the registry file by hand,
    and with workers putting whatever they like under results. */
module CampaignRuns {
  import opened Text
  import opened Registries
  import opened CampaignLedger
  import opened Inboxes
  import opened Campaigns
  import opened CampaignInvariant
  import opened CampaignSafety
  import opened PlanningSafety
  import opened IngestSafety

  datatype Step =
    | Execute(command: Command, writes: nat)
    | Exhaust(family: string)
    | LoseState
    | LoseRegistry
    | DropResults(files: map<string, ResultFile>)

  function Perform(w: World, step: Step): World {
    match step
    case Execute(c, writes) => DoAll(w, Written(w.disk, c, writes))
    case Exhaust(f) => w.(disk := w.disk.(registry := Exhausting(w.disk.registry, f)))
    case LoseState => w.(disk := w.disk.(state := None))
    case LoseRegistry => w.(disk := w.disk.(registry := None))
    case DropResults(files) => w.(disk := w.disk.(results := files))
  }

  /** The writes of a command that may be cut short. */
  function Written(d: Disk, c: Command, writes: nat): seq<Effect> {
    var es := CommandRun(d, c).effects;
    if writes < |es| then es[..writes] else es
  }

  lemma WrittenInFull(d: Disk, c: Command, writes: nat, es: seq<Effect>)
    requires es == CommandRun(d, c).effects && writes >= |es|
    ensures Written(d, c, writes) == es
  {
  }

  lemma CommandIs(w: World, c: Command, writes: nat, effects: seq<Effect>)
    requires effects == CommandRun(w.disk, c).effects
    ensures Perform(w, Execute(c, writes)) == DoAll(w, if writes < |effects| then effects[..writes] else effects)
  {
  }

  function Exhausting(registry: Option<View>, f: string): Option<View> {
    if registry.Some? && f in registry.value
    then Some(registry.value[f := registry.value[f].(status := Exhausted)])
    else registry
  }

  function Continued(w: World, steps: seq<Step>): World
    decreases |steps|
  {
    if steps == [] then w else Continued(Perform(w, steps[0]), steps[1..])
  }

  const START := World(EMPTY_DISK, [])

  function Reached(steps: seq<Step>): World { Continued(START, steps) }

  lemma {:induction false} ContinuedConcat(w: World, a: seq<Step>, b: seq<Step>)
    ensures Continued(w, a + b) == Continued(Continued(w, a), b)
    decreases |a|
  {
    if a == [] {
      assert a + b == b;
    } else {
      ContinuedConcat(Perform(w, a[0]), a[1..], b);
      assert (a + b)[1..] == a[1..] + b;
    }
  }

  lemma CommandAllowed(w: World, c: Command)
    requires Inv(w)
    ensures AllAllowed(w, CommandRun(w.disk, c).effects)
  {
    match c
    case AddFamily(f, m) => AddAllowed(w, f, m);
    case BlockFamily(f, r) => BlockAllowed(w, f, r);
    case ReopenFamily(f, m) => ReopenAllowed(w, f, m);
    case ListFamilies => ListAllowed(w);
    case SeedFamilies(seeds) =>
      LoadedViewMirrors(w);
      if SeedsValid(LoadedView(w.disk), seeds) { SeedAllowed(w, LoadedView(w.disk), seeds); }
    case PlanRound(workers) => PlanAllowed(w, workers);
    case IngestRound => IngestAllowed(w);
  }

  lemma StepKeepsInv(w: World, step: Step)
    requires Inv(w)
    ensures Inv(Perform(w, step))
  {
    match step
    case Execute(c, writes) =>
      CommandAllowed(w, c);
      var es := CommandRun(w.disk, c).effects;
      PrefixKeepsInv(w, es, if writes < |es| then writes else |es|);
      assert es[..|es|] == es;
    case _ =>
  }

  lemma {:induction false} ContinuedKeepsInv(w: World, steps: seq<Step>)
    requires Inv(w)
    ensures Inv(Continued(w, steps))
    decreases |steps|
  {
    if steps != [] {
      StepKeepsInv(w, steps[0]);
      ContinuedKeepsInv(Perform(w, steps[0]), steps[1..]);
    }
  }

  /** The invariant holds in every reachable directory. */
  lemma ReachedKeepsInv(steps: seq<Step>)
    ensures Inv(Reached(steps))
  {
    ContinuedKeepsInv(START, steps);
  }

  lemma StepGrowsLedger(w: World, step: Step)
    ensures w.disk.ledger <= Perform(w, step).disk.ledger
  {
    match step
    case Execute(c, writes) => LedgerGrows(w, Written(w.disk, c, writes));
    case _ =>
  }

  lemma {:induction false} ContinuedGrowsLedger(w: World, steps: seq<Step>)
    ensures w.disk.ledger <= Continued(w, steps).disk.ledger
    decreases |steps|
  {
    if steps != [] {
      StepGrowsLedger(w, steps[0]);
      ContinuedGrowsLedger(Perform(w, steps[0]), steps[1..]);
    }
  }

  /** The ledger only ever grows. */
  lemma LedgerIsAppendOnly(steps: seq<Step>, n: nat)
    requires n <= |steps|
    ensures Reached(steps[..n]).disk.ledger <= Reached(steps).disk.ledger
  {
    assert steps == steps[..n] + steps[n..];
    ContinuedConcat(START, steps[..n], steps[n..]);
    ContinuedGrowsLedger(Reached(steps[..n]), steps[n..]);
  }
}
