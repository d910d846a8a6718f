/** The inbox: request envelopes written for workers, and the result envelopes they drop. */
module Inboxes {
  import opened Text
  import opened RequestIds
  import opened CampaignLedger

  datatype Result = Result(requestId: string, status: ResultStatus, blockReason: string, wellFormed: bool)

  /** A file under results/: unreadable JSON, or an envelope whose capability gate passed or not. */
  datatype ResultFile = Unreadable | Envelope(gatePassed: bool, result: Result)

  datatype Collected = Collected(filename: string, result: Result)

  /** Result.Validate; wellFormed stands for its checks on summary and findings. */
  predicate ValidResult(r: Result) {
    && r.wellFormed && !Blank(r.requestId) && SafeId(r.requestId)
    && (r.status == ResultBlocked ==> !Blank(r.blockReason))
  }

  /** Request.Validate; the goal is never blank. */
  predicate ValidRequest(r: Request) {
    && !Blank(r.id) && r.round >= 1 && !Blank(r.family)
    && SafeId(r.id) && SafeId(r.family)
  }

  // ---- The outstanding set ----

  /** The ledger's latest publication under an id. */
  function Publication(es: Events, id: string): Option<Event> {
    if es == [] then None
    else if Last(es).RequestPublished? && Last(es).id == id then Some(Last(es))
    else Publication(Front(es), id)
  }

  predicate Answered(es: Events, id: string) {
    exists e | e in es :: e.ResultIngested? && e.id == id
  }

  /** The i-th event is the latest publication under the id. */
  ghost predicate LatestPublication(es: Events, id: string, i: int) {
    && 0 <= i < |es| && es[i].RequestPublished? && es[i].id == id
    && forall j | i < j < |es| && es[j].RequestPublished? :: es[j].id != id
  }

  lemma {:induction false} PublicationExactly(es: Events, id: string)
    ensures forall i | LatestPublication(es, id, i) :: Publication(es, id) == Some(es[i])
    ensures Publication(es, id).Some? ==> exists i :: LatestPublication(es, id, i)
  {
    if es != [] {
      var last := |es| - 1;
      if es[last].RequestPublished? && es[last].id == id {
        assert LatestPublication(es, id, last);
        assert forall i | LatestPublication(es, id, i) :: i == last;
      } else {
        PublicationExactly(Front(es), id);
        forall i ensures LatestPublication(es, id, i) <==> LatestPublication(Front(es), id, i) {
          LatestInFront(es, id, i);
        }
      }
    }
  }

  lemma LatestInFront(es: Events, id: string, i: int)
    requires es != [] && !(Last(es).RequestPublished? && Last(es).id == id)
    ensures LatestPublication(es, id, i) <==> LatestPublication(Front(es), id, i)
  {
    assert forall j | 0 <= j < |es| - 1 :: Front(es)[j] == es[j];
  }

  /** The file is the assignment the ledger's latest publication of its id records. */
  ghost predicate AsPublished(es: Events, r: Request) {
    exists i :: LatestPublication(es, r.id, i) && es[i].envelope == r && es[i].family == r.family
  }

  /** When the outstanding set can be derived: every publication names a family, every file an id and a family, files
      for one id are alike, and each is for a published id and, unless that has been answered, as published. */
  lemma DerivableMeans(files: map<string, Request>, es: Events)
    ensures Derivable(files, es) <==>
            && (forall i | 0 <= i < |es| && es[i].RequestPublished? :: es[i].family != "")
            && (forall n | n in files :: !Blank(files[n].id) && !Blank(files[n].family))
            && (forall n, m | n in files && m in files && files[n].id == files[m].id :: files[n] == files[m])
            && (forall n | n in files ::
                  && (exists i :: LatestPublication(es, files[n].id, i))
                  && (Answered(es, files[n].id) || AsPublished(es, files[n])))
  {
    forall n | n in files
      ensures Untampered(es, files[n]) <==>
                && (exists i :: LatestPublication(es, files[n].id, i))
                && (Answered(es, files[n].id) || AsPublished(es, files[n]))
    {
      PublicationExactly(es, files[n].id);
    }
    assert NamedFamilies(es) <==> forall i | 0 <= i < |es| && es[i].RequestPublished? :: es[i].family != "";
  }

  /** A request file that is not the assignment the ledger recorded, for an id that has no answer yet. */
  ghost predicate Altered(files: map<string, Request>, es: Events, n: string) {
    n in files && !Answered(es, files[n].id)
    && exists i :: LatestPublication(es, files[n].id, i) && es[i].envelope != files[n]
  }

  /** One altered file, and the outstanding set cannot be derived. */
  lemma AlteredIsRefused(files: map<string, Request>, es: Events, n: string)
    requires Altered(files, es, n)
    ensures !Derivable(files, es)
  {
    PublicationExactly(es, files[n].id);
  }

  predicate NamedFamilies(es: Events) {
    forall e | e in es && e.RequestPublished? :: e.family != ""
  }

  /** readRequestFiles succeeds: every envelope names an id and a family, and no two differ under one id. */
  predicate Readable(files: map<string, Request>) {
    && (forall n | n in files :: !Blank(files[n].id) && !Blank(files[n].family))
    && (forall n, m | n in files && m in files && files[n].id == files[m].id :: files[n] == files[m])
  }

  /** The envelope is the very one the ledger published. */
  predicate Untampered(es: Events, r: Request) {
    var p := Publication(es, r.id);
    p.Some? && (Answered(es, r.id)
                || (p.value.RequestPublished? && r.family == p.value.family && r == p.value.envelope))
  }

  predicate Derivable(files: map<string, Request>, es: Events) {
    NamedFamilies(es) && Readable(files) && forall n | n in files :: Untampered(es, files[n])
  }

  function PublishedFamily(es: Events, id: string): string {
    var p := Publication(es, id);
    if p.Some? then EventFamily(p.value) else ""
  }

  /** What OutstandingFromLedger returns when it succeeds: each unanswered id among the request files,
      with the family the ledger published it for. */
  function Outstanding(files: map<string, Request>, es: Events): map<string, string> {
    var ids := set n | n in files && !Answered(es, files[n].id) :: files[n].id;
    map id | id in ids :: PublishedFamily(es, id)
  }

  /** The first loop of OutstandingFromLedger. */
  method ScanDispatches(events: Events)
    returns (ok: bool, dispatched: map<string, Event>, ingested: set<string>)
    ensures ok <==> NamedFamilies(events)
    ensures ok ==> forall id :: id in dispatched <==> Publication(events, id).Some?
    ensures ok ==> forall id | id in dispatched :: dispatched[id] == Publication(events, id).value
    ensures ok ==> forall id :: id in ingested <==> Answered(events, id)
  {
    dispatched, ingested := map[], {};
    for i := 0 to |events|
      invariant NamedFamilies(events[..i])
      invariant forall id :: id in dispatched <==> Publication(events[..i], id).Some?
      invariant forall id | id in dispatched :: dispatched[id] == Publication(events[..i], id).value
      invariant forall id :: id in ingested <==> Answered(events[..i], id)
    {
      assert events[..i + 1] == events[..i] + [events[i]] && Front(events[..i + 1]) == events[..i];
      var event := events[i];
      if event.RequestPublished? {
        if event.family == "" {
          return false, dispatched, ingested;
        }
        dispatched := dispatched[event.id := event];
      } else if event.ResultIngested? {
        ingested := ingested + {event.id};
      }
    }
    assert events[..|events|] == events;
    ok := true;
  }

  /** readRequestFiles: maps the id inside each envelope to the envelope, in any order of files. */
  method ReadRequestFiles(files: map<string, Request>) returns (ok: bool, byId: map<string, Request>)
    ensures ok <==> Readable(files)
    ensures ok ==> forall id :: id in byId <==> exists n | n in files :: files[n].id == id
    ensures ok ==> forall n | n in files :: files[n].id in byId && byId[files[n].id] == files[n]
  {
    byId := map[];
    var left := files.Keys;
    while left != {}
      invariant left <= files.Keys
      invariant forall n | n in files && n !in left ::
                  !Blank(files[n].id) && !Blank(files[n].family) && files[n].id in byId && byId[files[n].id] == files[n]
      invariant forall id | id in byId :: exists n | n in files :: files[n].id == id && byId[id] == files[n]
      decreases left
    {
      var name :| name in left;
      var request := files[name];
      if Blank(request.id) || Blank(request.family) {
        return false, byId;
      }
      if request.id in byId && byId[request.id] != request {
        return false, byId;
      }
      byId := byId[request.id := request];
      left := left - {name};
    }
    ok := true;
  }

  predicate Matches(r: Request, p: Event) { p.RequestPublished? && r.family == p.family && r == p.envelope }

  /** The last loop of OutstandingFromLedger, in any order of ids. */
  method CheckEnvelopes(byId: map<string, Request>, dispatched: map<string, Event>, ingested: set<string>)
    returns (ok: bool, outstanding: map<string, string>)
    ensures ok <==> forall id | id in byId :: id in dispatched && (id in ingested || Matches(byId[id], dispatched[id]))
    ensures ok ==> outstanding.Keys == byId.Keys - ingested
    ensures ok ==> forall id | id in outstanding :: outstanding[id] == byId[id].family
  {
    outstanding := map[];
    var left := byId.Keys;
    while left != {}
      invariant left <= byId.Keys
      invariant forall id | id in byId && id !in left ::
                  id in dispatched && (id in ingested || Matches(byId[id], dispatched[id]))
      invariant outstanding.Keys == byId.Keys - left - ingested
      invariant forall id | id in outstanding :: outstanding[id] == byId[id].family
      decreases left
    {
      var id :| id in left;
      if id !in dispatched {
        return false, outstanding;
      }
      left := left - {id};
      if id in ingested {
        continue;
      }
      if !Matches(byId[id], dispatched[id]) {
        return false, outstanding;
      }
      outstanding := outstanding[id := byId[id].family];
    }
    ok := true;
  }

  method OutstandingFromLedger(files: map<string, Request>, events: Events)
    returns (ok: bool, outstanding: map<string, string>)
    ensures ok <==> Derivable(files, events)
    ensures ok ==> outstanding == Outstanding(files, events)
    ensures ok ==> forall n | n in files && !Answered(events, files[n].id) ::
              AsPublished(events, files[n]) && files[n].id in outstanding && outstanding[files[n].id] == files[n].family
    ensures ok ==> forall id | id in outstanding ::
              !Answered(events, id) && exists n | n in files :: files[n].id == id
    ensures (exists n :: Altered(files, events, n)) ==> !ok
  {
    outstanding := map[];
    DerivableMeans(files, events);
    if n :| Altered(files, events, n) {
      AlteredIsRefused(files, events, n);
    }
    var named, dispatched, ingested := ScanDispatches(events);
    if !named {
      return false, outstanding;
    }
    var readable, byId := ReadRequestFiles(files);
    if !readable {
      return false, outstanding;
    }
    ok, outstanding := CheckEnvelopes(byId, dispatched, ingested);
    DerivableById(files, events, byId, dispatched, ingested);
    if ok {
      OutstandingById(files, events, byId, dispatched, ingested, outstanding);
    }
  }

  lemma OutstandingById(files: map<string, Request>, es: Events, byId: map<string, Request>,
                        dispatched: map<string, Event>, ingested: set<string>, outstanding: map<string, string>)
    requires forall id :: id in byId <==> exists n | n in files :: files[n].id == id
    requires forall id :: id in dispatched <==> Publication(es, id).Some?
    requires forall id | id in dispatched :: dispatched[id] == Publication(es, id).value
    requires forall id :: id in ingested <==> Answered(es, id)
    requires forall id | id in byId :: id in dispatched && (id in ingested || Matches(byId[id], dispatched[id]))
    requires outstanding.Keys == byId.Keys - ingested
    requires forall id | id in outstanding :: outstanding[id] == byId[id].family
    ensures outstanding == Outstanding(files, es)
  {
    forall id | id in outstanding ensures outstanding[id] == PublishedFamily(es, id) {
      assert Matches(byId[id], dispatched[id]);
    }
    assert outstanding.Keys == Outstanding(files, es).Keys;
  }

  lemma DerivableById(files: map<string, Request>, es: Events, byId: map<string, Request>,
                      dispatched: map<string, Event>, ingested: set<string>)
    requires NamedFamilies(es) && Readable(files)
    requires forall id :: id in byId <==> exists n | n in files :: files[n].id == id
    requires forall n | n in files :: files[n].id in byId && byId[files[n].id] == files[n]
    requires forall id :: id in dispatched <==> Publication(es, id).Some?
    requires forall id | id in dispatched :: dispatched[id] == Publication(es, id).value
    requires forall id :: id in ingested <==> Answered(es, id)
    ensures Derivable(files, es) <==>
            forall id | id in byId :: id in dispatched && (id in ingested || Matches(byId[id], dispatched[id]))
  {
    forall n | n in files
      ensures Untampered(es, files[n]) <==>
                var id := files[n].id; id in dispatched && (id in ingested || Matches(byId[id], dispatched[id]))
    {
    }
  }

  // ---- Collecting results ----

  predicate Acceptable(file: ResultFile, outstanding: map<string, string>) {
    file.Envelope? && file.gatePassed && ValidResult(file.result) && file.result.requestId in outstanding
  }

  /** CollectResults accepts the batch: some results, all acceptable, no two for one request. */
  predicate Collectable(files: map<string, ResultFile>, outstanding: map<string, string>) {
    && files != map[] && outstanding != map[]
    && (forall n | n in files :: Acceptable(files[n], outstanding))
    && (forall n, m | n in files && m in files && n != m :: files[n].result.requestId != files[m].result.requestId)
  }

  function CollectedFrom(files: map<string, ResultFile>, names: seq<string>): (cs: seq<Collected>)
    requires forall n | n in names :: n in files && files[n].Envelope?
    ensures |cs| == |names|
    ensures forall i | 0 <= i < |names| :: cs[i] == Collected(names[i], files[names[i]].result)
  {
    if names == [] then []
    else [Collected(names[0], files[names[0]].result)] + CollectedFrom(files, names[1..])
  }

  /** The batch in filename order, as os.ReadDir lists it. */
  function Batch(files: map<string, ResultFile>): seq<Collected>
    requires forall n | n in files :: files[n].Envelope?
  {
    CollectedFrom(files, Sorted(files.Keys))
  }

  /** The position of an already collected result for the request, or the length if there is none. */
  method PriorAnswer(collected: seq<Collected>, id: string) returns (at: nat)
    ensures at <= |collected|
    ensures at < |collected| ==> collected[at].result.requestId == id
    ensures forall k | 0 <= k < at :: collected[k].result.requestId != id
  {
    at := 0;
    while at < |collected| && collected[at].result.requestId != id
      invariant 0 <= at <= |collected|
      invariant forall k | 0 <= k < at :: collected[k].result.requestId != id
    {
      at := at + 1;
    }
  }

  ghost predicate Lists(names: seq<string>, files: map<string, ResultFile>) {
    (forall n :: n in names <==> n in files) && forall i, j | 0 <= i < j < |names| :: names[i] != names[j]
  }

  predicate CollectableInOrder(files: map<string, ResultFile>, names: seq<string>, outstanding: map<string, string>)
    requires forall n | n in names :: n in files
  {
    && names != [] && outstanding != map[]
    && (forall i | 0 <= i < |names| :: Acceptable(files[names[i]], outstanding))
    && (forall i, j | 0 <= i < j < |names| :: files[names[i]].result.requestId != files[names[j]].result.requestId)
  }

  lemma InOrderIsCollectable(files: map<string, ResultFile>, names: seq<string>, outstanding: map<string, string>)
    requires Lists(names, files)
    ensures CollectableInOrder(files, names, outstanding) <==> Collectable(files, outstanding)
  {
    assert forall n | n in files :: n in names;
    assert forall i | 0 <= i < |names| :: names[i] in files;
    assert names == [] ==> files.Keys == {};
    assert names != [] ==> names[0] in files;
  }

  /** The first i files are acceptable answers to different requests, and collected. */
  ghost predicate CollectedSoFar(files: map<string, ResultFile>, names: seq<string>, outstanding: map<string, string>,
                                 collected: seq<Collected>, i: nat)
    requires i <= |names| && forall n | n in names :: n in files
  {
    && |collected| == i
    && (forall j | 0 <= j < i ::
          Acceptable(files[names[j]], outstanding) && collected[j] == Collected(names[j], files[names[j]].result))
    && (forall j, k | 0 <= j < k < i :: collected[j].result.requestId != collected[k].result.requestId)
  }

  lemma CollectedAll(files: map<string, ResultFile>, names: seq<string>, outstanding: map<string, string>,
                     collected: seq<Collected>)
    requires Lists(names, files) && CollectedSoFar(files, names, outstanding, collected, |names|)
    ensures forall n | n in files :: n in names && files[n].Envelope?
    ensures collected == CollectedFrom(files, names)
    ensures names != [] && outstanding != map[] ==> CollectableInOrder(files, names, outstanding)
  {
    forall n | n in files ensures n in names && files[n].Envelope? {
      var j :| 0 <= j < |names| && names[j] == n;
      assert Acceptable(files[names[j]], outstanding);
    }
  }

  method CollectResults(files: map<string, ResultFile>, names: seq<string>, outstanding: map<string, string>)
    returns (ok: bool, collected: seq<Collected>)
    requires Lists(names, files)
    ensures ok <==> Collectable(files, outstanding)
    ensures ok ==> (forall n | n in files :: files[n].Envelope?) && collected == CollectedFrom(files, names)
  {
    InOrderIsCollectable(files, names, outstanding);
    collected := [];
    if outstanding == map[] {
      return false, collected;
    }
    for i := 0 to |names|
      invariant CollectedSoFar(files, names, outstanding, collected, i)
    {
      assert names[i] in names;
      var file := files[names[i]];
      if !Acceptable(file, outstanding) {
        return false, collected;
      }
      var prior := PriorAnswer(collected, file.result.requestId);
      if prior < |collected| {
        return false, collected;
      }
      collected := collected + [Collected(names[i], file.result)];
    }
    CollectedAll(files, names, outstanding, collected);
    ok := |collected| > 0;
  }

  /** LedgeredLeftovers: result files whose request is already answered; fails on an unreadable file. */
  method LedgeredLeftovers(files: map<string, ResultFile>, names: seq<string>, ingested: set<string>)
    returns (ok: bool, leftovers: seq<string>)
    requires forall n :: n in names <==> n in files
    ensures ok <==> forall n | n in files :: files[n].Envelope?
    ensures ok ==> leftovers == LeftoversAmong(files, names, ingested)
  {
    leftovers := [];
    for i := 0 to |names|
      invariant forall j | 0 <= j < i :: files[names[j]].Envelope?
      invariant leftovers == LeftoversAmong(files, names[..i], ingested)
    {
      assert names[i] in names;
      if files[names[i]].Unreadable? {
        return false, leftovers;
      }
      assert names[..i + 1] == names[..i] + [names[i]];
      if files[names[i]].result.requestId in ingested {
        leftovers := leftovers + [names[i]];
      }
    }
    assert names[..|names|] == names;
    assert forall n | n in files :: n in names;
    ok := true;
  }

  function LeftoversAmong(files: map<string, ResultFile>, names: seq<string>, ingested: set<string>): (l: seq<string>)
    requires forall n | n in names :: n in files
    ensures forall n :: n in l <==> n in names && files[n].Envelope? && files[n].result.requestId in ingested
  {
    if names == [] then []
    else
      var last := names[|names| - 1];
      var rest := LeftoversAmong(files, names[..|names| - 1], ingested);
      if files[last].Envelope? && files[last].result.requestId in ingested then rest + [last] else rest
  }
}
