/** A campaign directory and the commands that change it. Each command is a list of durable writes,
    decided from what is on disk; a crash keeps a prefix of the list. */
module Campaigns {
  import opened Text
  import opened RequestIds
  import opened Registries
  import opened CampaignLedger
  import opened Dispatch
  import opened Inboxes

  datatype RoundState = RoundState(
    round: int,
    maxWorkers: int,
    pendingRound: int,
    pendingPlan: seq<string>,
    publishedRounds: map<int, bool>)

  /** The files of a campaign; None is a missing file. */
  datatype Disk = Disk(
    ledger: Events,
    registry: Option<View>,
    state: Option<RoundState>,
    requests: map<string, Request>,
    results: map<string, ResultFile>,
    consumed: map<string, ResultFile>)

  const EMPTY_DISK := Disk([], None, None, map[], map[], map[])

  /** One durable write: a ledger append, or a file written aside and renamed into place. */
  datatype Effect =
    | Append(event: Event)
    | WriteRequest(request: Request)
    | SaveState(state: RoundState)
    | RecordPlan(state: RoundState, workers: nat)
    | SaveRegistry(view: View)
    | Consume(filename: string)

  function Apply(d: Disk, e: Effect): Disk {
    match e
    case Append(event) => d.(ledger := d.ledger + [event])
    case WriteRequest(request) => d.(requests := d.requests[request.id := request])
    case SaveState(state) => d.(state := Some(state))
    case RecordPlan(state, _) => d.(state := Some(state))
    case SaveRegistry(view) => d.(registry := Some(view))
    case Consume(name) =>
      if name in d.results then d.(results := d.results - {name},
                                   consumed := d.consumed[name := d.results[name]]) else d
  }

  function ApplyAll(d: Disk, es: seq<Effect>): Disk
    decreases |es|
  {
    if es == [] then d else ApplyAll(Apply(d, es[0]), es[1..])
  }

  /** What a command writes, and whether it reports success. */
  datatype Run = Run(effects: seq<Effect>, ok: bool)

  /** First these writes, then the rest of the command. */
  function After(effects: seq<Effect>, rest: Run): Run { Run(effects + rest.effects, rest.ok) }

  const REFUSED := Run([], false)

  // ---- Loading ----

  /** loadRegistry followed by reconcileRegistry. */
  function LoadedView(d: Disk): View {
    Reconcile(if d.registry.Some? then d.registry.value else map[], d.ledger)
  }

  predicate SavableView(view: View) { forall f | f in view :: ValidName(f) }

  /** reg.Save refuses unsafe names. */
  function SaveView(view: View): Run {
    if SavableView(view) then Run([SaveRegistry(view)], true) else REFUSED
  }

  // ---- families add | block | reopen | list | seed ----

  function AddRun(d: Disk, family: string, mechanism: string): Run {
    var view := LoadedView(d);
    if !ValidName(family) || !CanAdd(view, family, mechanism) then REFUSED
    else After([Append(FamilyAdded(family, mechanism))], SaveView(view[family := NewApproach(family, mechanism)]))
  }

  function BlockRun(d: Disk, family: string, reason: string): Run {
    var view := LoadedView(d);
    if !CanBlock(view, family, reason) then REFUSED
    else After([Append(FamilyBlocked(family, reason))], SaveView(view[family := BlockedApproach(view[family], reason)]))
  }

  function ReopenRun(d: Disk, family: string, mechanism: string): Run {
    var view := LoadedView(d);
    if !CanReopen(view, family, mechanism) then REFUSED
    else After([Append(FamilyReopened(family, mechanism))],
               SaveView(view[family := ReopenedApproach(view[family], mechanism)]))
  }

  /** list reconciles a second time and saves the rebuilt view unless it is empty. */
  function ListRun(d: Disk): Run {
    var view := Reconcile(LoadedView(d), d.ledger);
    if view == map[] then Run([], true) else SaveView(view)
  }

  datatype Seed = Seed(family: string, mechanism: string)

  predicate SeedsValid(view: View, seeds: seq<Seed>) {
    && seeds != []
    && (forall s | s in seeds ::
          && !Blank(s.family) && !Blank(s.mechanism) && ValidName(s.family)
          && (s.family in view ==> view[s.family].mechanism == s.mechanism))
    && (forall i, j | 0 <= i < j < |seeds| :: seeds[i].family != seeds[j].family)
  }

  /** One added event per family not yet present, then one save. */
  function SeedEffects(view: View, seeds: seq<Seed>): Run
    decreases |seeds|
  {
    if seeds == [] then SaveView(view)
    else if seeds[0].family in view then SeedEffects(view, seeds[1..])
    else
      var s := seeds[0];
      After([Append(FamilyAdded(s.family, s.mechanism))],
            SeedEffects(view[s.family := NewApproach(s.family, s.mechanism)], seeds[1..]))
  }

  function SeedRun(d: Disk, seeds: seq<Seed>): Run {
    var view := LoadedView(d);
    if SeedsValid(view, seeds) then SeedEffects(view, seeds) else REFUSED
  }

  // ---- round plan ----

  /** Rounds that any publication names. */
  function RecordedRounds(es: Events): set<int> {
    set e | e in es && e.RequestPublished? && e.round >= 1 :: e.round
  }

  function PublishedIds(es: Events, round: int): set<string> {
    set e | e in es && e.RequestPublished? && e.round == round :: e.id
  }

  function PublishedFamilies(es: Events, round: int): seq<string> {
    if es == [] then []
    else PublishedFamilies(Front(es), round)
         + if Last(es).RequestPublished? && Last(es).round == round then [Last(es).family] else []
  }

  function HighestRound(es: Events): (h: nat)
  {
    if es == [] then 0
    else
      var h := HighestRound(Front(es));
      if Last(es).RequestPublished? && Last(es).round > h then Last(es).round else h
  }

  predicate RoundsValid(es: Events) { forall e | e in es && e.RequestPublished? :: e.round >= 1 }

  /** recoverRoundState, on a ledger all of whose rounds are positive. */
  function Recovered(es: Events, workers: int): RoundState {
    var highest := HighestRound(es);
    RoundState(highest + 1, workers, if highest > 0 then highest else 0, PublishedFamilies(es, highest),
               map r | r in RecordedRounds(es) :: true)
  }

  /** A plan is pending for this round. */
  predicate Pending(s: RoundState, round: int) { s.pendingRound == round && s.pendingPlan != [] }

  predicate AllPublished(es: Events, families: seq<string>, round: int)
    requires round >= 0
  {
    forall f | f in families :: RequestId(f, round) in PublishedIds(es, round)
  }

  predicate RoundComplete(es: Events, s: RoundState, round: int)
    requires round >= 0
  {
    AllPublished(es, if Pending(s, round) then s.pendingPlan else PublishedFamilies(es, round), round)
  }

  /** Completion per round: rounds the ledger mentions are judged afresh, others keep their mark. */
  function Marks(es: Events, s: RoundState): map<int, bool> {
    map r | r in s.publishedRounds.Keys + RecordedRounds(es) ::
      if r in RecordedRounds(es) then RoundComplete(es, s, r) else s.publishedRounds[r]
  }

  predicate Marked(marks: map<int, bool>, round: int) { round in marks && marks[round] }

  function MarksFrom(marks: map<int, bool>, r: int): set<int> { set q | q in marks && q >= r }

  /** The first round from r on that is not marked complete. */
  function NextRound(marks: map<int, bool>, r: int): (c: int)
    ensures c >= r && !Marked(marks, c) && forall q | r <= q < c :: Marked(marks, q)
    decreases MarksFrom(marks, r)
  {
    if Marked(marks, r) then
      assert r in MarksFrom(marks, r) && r !in MarksFrom(marks, r + 1);
      NextRound(marks, r + 1)
    else r
  }

  predicate IsActive(view: View, f: string) { f in view && view[f].status == Active }

  /** validActiveFamilies. */
  function ValidActive(view: View, families: seq<string>): (fs: seq<string>)
    ensures forall f :: f in fs <==> f in families && IsActive(view, f)
  {
    if families == [] then []
    else
      var rest := ValidActive(view, families[1..]);
      if IsActive(view, families[0]) then [families[0]] + rest else rest
  }

  function Unpublished(es: Events, plan: seq<string>, round: nat): (todo: seq<string>)
    ensures forall f :: f in todo <==> f in plan && RequestId(f, round) !in PublishedIds(es, round)
  {
    if plan == [] then []
    else
      var rest := Unpublished(es, plan[1..], round);
      if RequestId(plan[0], round) in PublishedIds(es, round) then rest else [plan[0]] + rest
  }

  function RequestFor(view: View, family: string, round: nat): Request
    requires family in view
  {
    Request(RequestId(family, round), round, family, view[family].mechanism)
  }

  /** inbox.Publish succeeds: a valid request, and no different envelope under its name. */
  predicate Publishable(requests: map<string, Request>, r: Request) {
    ValidRequest(r) && (r.id in requests ==> requests[r.id] == r)
  }

  function PublicationEvent(r: Request): Event { RequestPublished(r.id, r.round, r.family, r) }

  /** An envelope, unless it is already there, then its ledger event. */
  function PublicationEffects(requests: map<string, Request>, r: Request): seq<Effect> {
    (if r.id in requests then [] else [WriteRequest(r)]) + [Append(PublicationEvent(r))]
  }

  /** The publication loop: per family an envelope, unless it is already there, then its ledger event. */
  function PublishRun(requests: map<string, Request>, view: View, todo: seq<string>, round: nat): Run
    decreases |todo|
  {
    if todo == [] then Run([], true)
    else if todo[0] !in view || Blank(view[todo[0]].mechanism) then REFUSED
    else
      var request := RequestFor(view, todo[0], round);
      if !Publishable(requests, request) then REFUSED
      else
        After(PublicationEffects(requests, request),
              PublishRun(requests[request.id := request], view, todo[1..], round))
  }

  function Advanced(s: RoundState, marks: map<int, bool>, round: int): RoundState {
    s.(round := round + 1, pendingRound := 0, pendingPlan := [], publishedRounds := marks[round := true])
  }

  /** The end of a round plan: with the whole pending plan on the ledger the round advances. */
  function FinishRun(es: Events, view: View, s: RoundState, round: nat): Run {
    var saved := SaveView(Reconcile(view, es));
    if AllPublished(es, s.pendingPlan, round)
    then After([SaveState(Advanced(s, s.publishedRounds, round))], saved)
    else saved
  }

  /** The events among a list of writes. */
  function Appended(es: seq<Effect>): Events {
    if es == [] then [] else (if es[0].Append? then [es[0].event] else []) + Appended(es[1..])
  }

  /** Publishing todo for the pending plan of s, which is on disk. */
  function DispatchRun(d: Disk, view: View, s: RoundState, todo: seq<string>, round: nat): Run {
    var published := PublishRun(d.requests, view, todo, round);
    if !published.ok then published
    else After(published.effects, FinishRun(d.ledger + Appended(published.effects), view, s, round))
  }

  /** The round whose plan this invocation works on. */
  function CurrentRound(es: Events, s: RoundState): int { NextRound(Marks(es, s), s.round) }

  function CurrentPlan(view: View, s: RoundState, round: int, workers: nat): seq<string> {
    if Pending(s, round) then ValidActive(view, s.pendingPlan) else Plan(Scratch(view), workers)
  }

  /** Working on one round with one plan. */
  function RoundRun(d: Disk, view: View, s: RoundState, round: nat, plan: seq<string>, workers: nat): Run {
    var marks := Marks(d.ledger, s);
    var here := s.(round := round, publishedRounds := marks);
    var todo := Unpublished(d.ledger, plan, round);
    if Pending(s, round) && plan == [] then
      Run([SaveState(here.(pendingRound := 0, pendingPlan := []))], false)
    else if todo == [] then
      After([SaveState(Advanced(here, marks, round))], SaveView(view))
    else if Pending(s, round) then
      DispatchRun(d, view, here, todo, round)
    else
      var recorded := here.(pendingRound := round, pendingPlan := plan);
      After([RecordPlan(recorded, workers)], DispatchRun(d, view, recorded, todo, round))
  }

  /** A saved state with a round below one is read as round one. */
  function ReadState(s: RoundState): RoundState { if s.round < 1 then s.(round := 1) else s }

  function StartRound(d: Disk, view: View, s: RoundState, workers: nat): Run
    requires s.round >= 1
  {
    var round := CurrentRound(d.ledger, s);
    if view == map[] then REFUSED
    else RoundRun(d, view, s, round, CurrentPlan(view, s, round, workers), workers)
  }

  function PlanRun(d: Disk, workers: nat): Run {
    if workers < 1 then REFUSED
    else if d.state.Some? then StartRound(d, LoadedView(d), ReadState(d.state.value), workers)
    else if !RoundsValid(d.ledger) then REFUSED
    else
      var s := Recovered(d.ledger, workers);
      After([SaveState(s)], StartRound(d.(state := Some(s)), LoadedView(d), s, workers))
  }

  // ---- round ingest ----

  function ConsumeAll(names: seq<string>): seq<Effect> {
    if names == [] then [] else [Consume(names[0])] + ConsumeAll(names[1..])
  }

  function Filenames(batch: seq<Collected>): seq<string> {
    if batch == [] then [] else [batch[0].filename] + Filenames(batch[1..])
  }

  /** coordinator.Ingest: the families of blocked results are blocked in the registry. */
  function BlockResults(view: View, outstanding: map<string, string>, batch: seq<Collected>): Option<View>
    decreases |batch|
  {
    if batch == [] then Some(view)
    else
      var r := batch[0].result;
      if r.requestId !in outstanding then None
      else if r.status != ResultBlocked then BlockResults(view, outstanding, batch[1..])
      else
        var f := outstanding[r.requestId];
        if !CanBlock(view, f, r.blockReason) then None
        else BlockResults(view[f := BlockedApproach(view[f], r.blockReason)], outstanding, batch[1..])
  }

  function IngestedEvent(outstanding: map<string, string>, r: Result): Event {
    var family := if r.requestId in outstanding then outstanding[r.requestId] else "";
    ResultIngested(r.requestId, family, r.status, r.blockReason)
  }

  /** The append loop of round ingest; a request with an unsafe family name stops it. */
  function IngestEvents(outstanding: map<string, string>, batch: seq<Collected>): Run {
    if batch == [] then Run([], true)
    else
      var event := IngestedEvent(outstanding, batch[0].result);
      if !ValidName(event.family) then REFUSED else After([Append(event)], IngestEvents(outstanding, batch[1..]))
  }

  /** Ingesting an accepted batch. */
  function BatchRun(view: View, outstanding: map<string, string>, batch: seq<Collected>): Run {
    var blocked := BlockResults(view, outstanding, batch);
    var events := IngestEvents(outstanding, batch);
    if blocked.None? then REFUSED
    else if !events.ok then events
    else After(events.effects + ConsumeAll(Filenames(batch)), SaveView(blocked.value))
  }

  function AnsweredIds(es: Events): set<string> {
    set e | e in es && e.ResultIngested? :: e.id
  }

  function Leftovers(d: Disk): seq<string> {
    LeftoversAmong(d.results, Sorted(d.results.Keys), AnsweredIds(d.ledger))
  }

  function Remaining(d: Disk): map<string, ResultFile> {
    d.results - (set n | n in Leftovers(d))
  }

  /** Ingest once only unanswered result files remain. */
  function IngestRest(view: View, requests: map<string, Request>, es: Events, files: map<string, ResultFile>,
                      outstanding: map<string, string>): Run {
    if !Derivable(requests, es) || !Collectable(files, outstanding) then REFUSED
    else BatchRun(view, outstanding, Batch(files))
  }

  /** Ingest, given the leftovers, the other result files and the outstanding requests. */
  function IngestWith(d: Disk, leftovers: seq<string>, files: map<string, ResultFile>,
                      outstanding: map<string, string>): Run {
    After(ConsumeAll(leftovers), IngestRest(LoadedView(d), d.requests, d.ledger, files, outstanding))
  }

  function IngestRun(d: Disk): Run {
    if exists n | n in d.results :: d.results[n].Unreadable? then REFUSED
    else IngestWith(d, Leftovers(d), Remaining(d), Outstanding(d.requests, d.ledger))
  }

  // ---- Runs of a campaign ----

  datatype Command =
    | AddFamily(family: string, mechanism: string)
    | BlockFamily(family: string, reason: string)
    | ReopenFamily(family: string, mechanism: string)
    | ListFamilies
    | SeedFamilies(seeds: seq<Seed>)
    | PlanRound(workers: nat)
    | IngestRound

  function CommandRun(d: Disk, c: Command): Run {
    match c
    case AddFamily(f, m) => AddRun(d, f, m)
    case BlockFamily(f, r) => BlockRun(d, f, r)
    case ReopenFamily(f, m) => ReopenRun(d, f, m)
    case ListFamilies => ListRun(d)
    case SeedFamilies(seeds) => SeedRun(d, seeds)
    case PlanRound(workers) => PlanRun(d, workers)
    case IngestRound => IngestRun(d)
  }

  // So that proofs need not look at all the commands to look at one.

  lemma PlanCommand(d: Disk, workers: nat)
    ensures CommandRun(d, PlanRound(workers)) == PlanRun(d, workers)
  {
  }

  lemma IngestCommand(d: Disk)
    ensures CommandRun(d, IngestRound) == IngestRun(d)
  {
  }
}
