# Verified model of the research harness

This project models three parts of the harness in Dafny and proves what each promises.

**The schema review** (`internal/mcpreview`). It looks through the JSON schema of a tool's arguments and raises a
hypothesis for every URL-like, path-like or command-like argument that nothing constrains. Silence makes a claim about
the values accepted there; the model proves what claim it makes for each kind of place in a schema, and exactly when
it fails. `Acceptance` says what acceptance means: a relation between schemas and values is an acceptance relation if
it meets the necessary condition of each keyword (JSON Schema 2020-12 Core, sections 8.2.3.1, 10.2.1, 10.2.2.4, 10.3.1
and 10.3.2, and section 6.1 of the Validation vocabulary), which leaves cyclic references unproblematic. These
conditions are written on the keywords as they stand; `KeywordReaders` proves of each reader of the analyser that it
reads what the keyword says. A value *carries* if it is a string, an object, or an array with a carrying element, and
is *covered* if all that it carries was accepted by a node with direct evidence (an enum, a const, or a keyword for
the kind in question). `ConstraintSearch` is the recursion without memo, guards and budgets, as least fixpoints;
`ConstraintSoundness` and `PropertySoundness` prove it sound; `FindingLaws` says, on the keywords again, in which ways
each of its questions is answered yes, and that there is no other; `ConstraintEvaluator` is the evaluator as written,
a class proved against it from both sides; `SchemaMeasure` and `EvaluatorGuards` say for which documents its guards
never cut in. An answer about a schema is an answer about values at a *place*: a value, the arrays it was reached
through, and the object it is a property of. `SchemaWalk` lists what the walker enters below a node, `FrameTable`
proves it field by field and in order, `SchemaGraph` proves over any graph that the walk without limits ends and
enters exactly what is reachable, `SchemaWalkers` is the walker with its depth bound and node budget, and
`SchemaReview` joins walk and evaluator. `FramePlaces` proves along the walk which values of a document that the root
accepts each frame stands for, and `Silence` what the absence of a hypothesis says of them; `SilentBranch` and
`SilentNameless` are the schemas for which it says nothing, and `SilentReviews` runs the review on both. `JsonPointer`
resolves local references (RFC 6901, sections 3, 4 and 6).

**The campaign protocol** (`cmd/vrh`, `internal/coordinator`, `internal/executor`, `internal/registry`). An
append-only ledger is the source of truth; `registry.json` and `state.json` are views that may lag or be lost.
`Campaigns` gives, for every command and every state of the directory, the sequence of durable writes it performs:
ledger events, envelopes, state and registry saves, consumed result files. A crash is a prefix of that sequence.
`CampaignCommands` holds the commands as written, methods of a class whose write budget may run out anywhere, each
proved to perform exactly those writes; `CommandSteps` joins them to the runs below. `CampaignInvariant`,
`CampaignSafety`, `PlanningSafety` and `IngestSafety` prove that each single write keeps one invariant.
`FamilyOutcomes`, `PlanOutcome` and `IngestOutcome` say when each command goes through and what it then leaves, by the
events in the ledger and the files in the directory; `LedgerReading` says what the recursive readings of a ledger mean
event by event. `CampaignRuns` defines runs: any commands, each cut short anywhere, losses of either view, families
marked exhausted by hand, and result files dropped by workers. `CampaignTheorems` draws the conclusions for every run.
`PlanRetry`, `PlanPursuit` and `PlanSuccess` follow one recorded plan through any number of interrupted invocations;
`Dispatch`, `FreshRounds` and `FairRuns` prove which families a plan picks and that over runs none waits forever,
`ResumedRounds` which rounds that counts, and `EvenRuns` that attempts stay close even when plans are cut short and
resumed; `ExhaustedFamilies` follows the mark of exhaustion; `KeptAnswers` proves that no crash loses an answer;
`TamperedRequests` shows that a rewritten request file stops ingest for good; `OrphanedEnvelopes`, `Wedges` and
`OrphanExample` show how a crash can stop a campaign, and for how long.

**Three smaller algorithms**: the hash-linked ledger file (`HashChains`), the output capture that looks for a marker
across writes (`Captures`), and the chunked head and tail readers of the vendored filesystem server (`LineReaders`).

`dafny verify dfyconfig.toml` checks everything.

## Where the code and its documentation differ

- The comment on `unconstrained` (`internal/mcpreview/constraint.go:37-42`) promises the constraints of the property
  on its instance. For a composition branch of a property that is not the instance it gets: the walker passes the
  property's own schema, together with the property's name (`internal/mcpreview/schema.go:231-235`, `325-348`). Where
  that schema forbids or governs a property of that name the review answers about this other property. In
  `{"type": "object", "properties": {"target": {"anyOf": [{"type": "string", "format": "uri"}],
  "additionalProperties": false}}}` it is silent about the branch, though `{"target": "http://anywhere"}` is accepted
  (`SilenceHidesText`, and `ReviewBoth` for the evaluator with all its guards). The exact condition is `Misled`, a
  question about the property's schema and its name: `AnswerExactly` for one branch, `BranchAnswersExactly` for all
  branches at the origin they share. Where it fails, a branch answered "constrained" is so by itself or by its origin;
  and even where guards cut in, silence is sound unless `MaybeMisled` holds (`BranchSilenceIsSound`).
- A property named by the empty string counts as unnamed when the instance of the frames below it is chosen
  (`internal/mcpreview/schema.go:90-98`), so a property below it is asked about on the schema of an object further out
  (`NamelessKeepsInstance`), and a text there can be passed over in silence (`SilenceBelowNamelessProperty`,
  `ReviewBoth`). The exact condition is again `Misled`, with that schema for the instance (`AnswerExactly`,
  `NamelessAnswersExactly`). Unless `MaybeMisled` holds of it, and always for the property without a name itself,
  silence is sound (`PropertySilenceAnywhere`).
- The comment on `OutstandingFromLedger` says that every ledgered id must have an envelope. The code does not
  check that; in reachable directories it holds anyway, because the envelope is written first, and
  `OutstandingIsExact` relies on that. What the code does refuse, an envelope without its event, can be left
  behind by a crash: `DerivableExactly` gives the exact condition, `OrphanIsReached` a run that ends there.
  `OrphanPersists` proves that no command but a round plan repairs it, and only by publishing that family in that
  round with the mechanism in the envelope; if the family is blocked and reopened first, which needs another
  mechanism, that cannot happen, and every later round plan and ingest is refused until the family is blocked or
  exhausted or `state.json` is lost (`WedgeIsReached`, `WedgeStopsCampaign`).
- Array indexes of the form `+1` and `-0` are accepted in JSON pointers, which RFC 6901, section 4, excludes
  (`IndexForms`, `SignedIndexIsAccepted`).
- A type name that is none of the seven of the Validation vocabulary counts as string-like for viability. The
  acceptance relation lets such a name match nothing, as section 6.1 allows no other names; soundness of the
  branches excluded by an object-only or array-only parent depends on it.
- Reopening leaves the mechanism on record unchanged in the saved registry until the next reconciliation, so
  after a reopening the registry file is faithful to the ledger but not equal to it.
- The comment on `reconcileRegistry` calls exhaustion terminal. Reconciliation leaves exhausted families alone
  (`ReconcileKeepsExhaustion`), but blocking does not look at the mark. `MarkStaysExactly` says which steps take it
  away: a block with a reason, an accepted batch with a blocked result, if the registry is saved, and losing the file.
- The tail reader takes what one read delivers for the whole chunk. A short read leaves a gap in the text
  (`ShortReadLosesText`). It is right for every file of a given length if and only if every read on the grid of chunks
  of that length is full (`TailIsRightExactly`).
- The walker reports truncation also when the limit is met by a node it would have turned back at anyway;
  `LimitOf` counts such attempts, so the limit reported is exact, not merely safe.

## Assumptions

- Schemas are well formed where the program relies on it: `items` is a list only in the legacy form, which is
  read as a tuple continuing `prefixItems`.
- Whether a pattern matches a name (`patternMatchesName`) and whether a name or a description hints at a kind
  of argument (`urlCue`, `pathCue`, `commandCue`) are parameters.
- An object is identified by its place in the decoded document, an object the program builds itself by the
  object and name it was built for; the program uses the address of the map.
- An envelope's digest is the envelope itself, as if SHA-256 did not collide; the ledger theorems that need a
  digest without collisions say so.
- One process at a time, and single appends and renames are atomic.
- No command exhausts a family; in a run someone marks it in `registry.json`.
- An object the program builds for a required, undeclared name accepts what all the schemas it puts under `allOf`
  accept, and the patterns that match such a name hold schemas. Only the results about the frames of properties
  need this.

## Model

| member | source | states |
|---|---|---|
| `ConstraintSoundness.BarrenSound` | internal/mcpreview/constraint.go:684-831 | Viability is sound: a node judged to carry no value accepts no value holding a string or object, whatever the nesting of tuples, disjunctions and references. |
| `ConstraintSoundness.ForcesSound` | internal/mcpreview/constraint.go:487-546 | Array forcing is sound: a branch judged to force arrays accepts only arrays and values that carry nothing. |
| `ConstraintSoundness.AllOfForcesSound` | internal/mcpreview/constraint.go:470-485 | An object whose allOf forces arrays, or that declares an array-only type, accepts only arrays and values that carry nothing. |
| `ConstraintSoundness.SearchSound` | internal/mcpreview/constraint.go:328-636 | Whenever the search finds a constraint on a node, every value the node accepts is covered; in array context, every array it accepts. Holds for every schema graph, every value and every acceptance relation that meets the necessary condition of each keyword. |
| `PropertySoundness.ForbiddenSound` | internal/mcpreview/constraint.go:221-258 | A property judged forbidden is absent from every object the schema accepts. |
| `PropertySoundness.ClosedBranchSound` | internal/mcpreview/constraint.go:140-160 | The anyOf and oneOf branches the property search skips (forbidding the property, or excluded by an object-only parent) accept no object of the parent that has the property. |
| `PropertySoundness.DirectPropertySound` | internal/mcpreview/constraint.go:94-117 | A constraint found through properties, matching patternProperties or, when neither mentions the name, additionalProperties covers the property in every accepted object. |
| `PropertySoundness.PropertySound` | internal/mcpreview/constraint.go:70-162 | In every object a schema accepts, a property found constrained has a covered value. |
| `PropertySoundness.ConstrainedSound` | internal/mcpreview/constraint.go:37-68 | The whole question, of a value at its place: if the answer is "constrained", the node accepts the value, its origin accepts it or the outermost array around it, and the instance schema, if any, accepts an object holding it under the name asked about, then the value is covered or sits in an array accepted by a directly constrained schema. Item frames, whose origin is the array schema, included. |
| `PropertySoundness.ConstrainedItselfSound` | internal/mcpreview/constraint.go:43-57 | The part of the answer that does not ask the instance schema needs nothing of it. |
| `ConstraintSearch.FindsMonotone` | internal/mcpreview/constraint.go:332-443 | What is found without array context is also found with it, so an answer remembered for one context never contradicts the recursion. |
| `ConstraintSearch.ForcesMonotone` | internal/mcpreview/constraint.go:492-546 | Counting a disjunction without a viable branch as forcing only adds to what is forced. |
| `KeywordReaders.DeclaredTypesExactly` | internal/mcpreview/constraint.go:833-856 | The type reader gives exactly the names the keyword holds, alone or in a list. |
| `KeywordReaders.BranchesExactly` | internal/mcpreview/constraint.go:872-886 | The branches of a list keyword are exactly its entries that are objects or booleans. |
| `KeywordReaders.RequiredExactly` | internal/mcpreview/schema.go:397-411 | The required names are exactly the non-empty strings of the list. |
| `KeywordReaders.DependentsExactly` | internal/mcpreview/schema.go:413-433 | The dependent schemas that always apply are exactly those whose trigger is a required name. |
| `KeywordReaders.TypeReadersExactly` | internal/mcpreview/constraint.go:550-564 | Which declared types count as string-like, as array-only and as object-only, name by name. |
| `KeywordReaders.BranchReadersExactly` | internal/mcpreview/constraint.go:449-468 | Which branches an array-only parent excludes, and which an object-only one, by the names they declare. |
| `KeywordReaders.UndeclaredExactly` | internal/mcpreview/schema.go:438-475 | The schema for a required, undeclared name: the one matching pattern's; additionalProperties' where no pattern matches; otherwise an object with all the matching patterns' schemas under allOf. |
| `FindingLaws.FindsExactly` | internal/mcpreview/constraint.go:332-443 | The search finds a constraint on an object in these ways and no other, told by the keywords as they stand: evidence, the schema referred to, some conjunct (in array context where the object or a conjunct forces arrays), every disjunct that matters, every position of arrays where items count; in both contexts. |
| `FindingLaws.ItemsUnderForcing` | internal/mcpreview/constraint.go:638-650 | Items count for an object without a type where a sibling conjunct forces arrays: if each position is governed by a schema that is found or lets nothing through, the conjunction is found. |
| `FindingLaws.BarrenExactly` | internal/mcpreview/constraint.go:684-831 | The ways in which a schema is not viable, and no other. |
| `FindingLaws.ForcesExactly` | internal/mcpreview/constraint.go:475-546 | The ways in which a branch forces arrays, and no other; a disjunction only with a viable branch. |
| `FindingLaws.ForbiddenExactly` | internal/mcpreview/constraint.go:221-258 | The ways in which an object forbids a property, and no other. |
| `FindingLaws.AppliesExactly` | internal/mcpreview/constraint.go:164-219 | The ways in which an object has something to say about a property, and no other. |
| `FindingLaws.PropertyFindsExactly` | internal/mcpreview/constraint.go:70-162 | The ways in which the property search finds a constraint, and no other; a disjunction only with an open branch. |
| `FindingLaws.DeclaredPropertyAnswers` | internal/mcpreview/constraint.go:54-67 | Whatever a frame's origin, a property the instance declares with a constrained schema is constrained. |
| `FindingLaws.SilentInstanceAnswers` | internal/mcpreview/constraint.go:54-67 | An instance with none of the keywords that speak about properties leaves the answer to the origin. |
| `ConstraintEvaluator.ConstraintEval.ViableForKind` | internal/mcpreview/constraint.go:684-747 | "Not viable" is established by the unbounded recursion; "viable" is, too, unless the depth bound or a reference cycle cut the question short, which in a document with a measure they do not. |
| `ConstraintEvaluator.ConstraintEval.DisjunctionViable` | internal/mcpreview/constraint.go:710-730 | An anyOf or oneOf is viable when some branch is, and vacuously when it has none. |
| `ConstraintEvaluator.ConstraintEval.ArrayElementsViable` | internal/mcpreview/constraint.go:749-831 | An array-only node with closed positions is not viable exactly when no position admits a carrying element. |
| `ConstraintEvaluator.ConstraintEval.BranchForcesArray` | internal/mcpreview/constraint.go:487-546 | Both directions of the forcing judgement against the unbounded recursion, outside cut-short questions. |
| `ConstraintEvaluator.ConstraintEval.AllOfForcesArray` | internal/mcpreview/constraint.go:470-485 | As BranchForcesArray, for an allOf and the type its parent declares. |
| `ConstraintEvaluator.ConstraintEval.SearchCtx` | internal/mcpreview/constraint.go:332-377 | Memo, cycle guard, depth bound and budget never invent an answer: what is found the unbounded recursion finds, and a denial not cut short is a denial by it; guards come back as they were and the memo keeps only what was found. In a document with a measure no more nodes are visited than it counts below the node, and with room for them no guard cuts in. |
| `ConstraintEvaluator.ConstraintEval.SearchRef` | internal/mcpreview/constraint.go:379-393 | The same for a $ref, restoring the set of references being followed. |
| `ConstraintEvaluator.ConstraintEval.SearchComposition` | internal/mcpreview/constraint.go:395-409 | The same for allOf (which may bring in array context), anyOf and oneOf together. |
| `ConstraintEvaluator.ConstraintEval.SearchEveryBranch` | internal/mcpreview/constraint.go:420-443 | A disjunction is constrained when every branch that can carry a value in this context is, and there is at least one branch. |
| `ConstraintEvaluator.ConstraintEval.SearchArrayItems` | internal/mcpreview/constraint.go:568-611 | Items count only where an array constraint applies and every position (prefixItems, legacy list, the schema of the rest) is constrained. |
| `ConstraintEvaluator.ConstraintEval.SearchEveryItemList` | internal/mcpreview/constraint.go:613-636 | Every item schema of a list is constrained or can carry nothing. |
| `ConstraintEvaluator.ConstraintEval.Has` | internal/mcpreview/constraint.go:30-35 | A fresh question with a kept memo: guards reset, both directions against the recursion. |
| `ConstraintEvaluator.ConstraintEval.PropertyForbidden` | internal/mcpreview/constraint.go:221-258 | Both directions of "forbids this property" against the recursion; a schema that forbids it itself is always seen to. |
| `ConstraintEvaluator.ConstraintEval.PropertyApplies` | internal/mcpreview/constraint.go:164-219 | Outside cut-short questions, exactly whether some reachable applicator governs the property. |
| `ConstraintEvaluator.ConstraintEval.PropertyHas` | internal/mcpreview/constraint.go:70-162 | Both directions of the property search against the recursion. |
| `ConstraintEvaluator.ConstraintEval.Unconstrained` | internal/mcpreview/constraint.go:37-68 | False only if the recursion establishes a constraint or the value cannot exist; true, if no guard cut in, only if it does not. In a document with a measure none does: no cycle but through properties, at most 15 levels of applicators and references, and at most 256 nodes at and below a node, counted for every way to them. Never true, whatever the guards do, where the instance itself forbids the property. |
| `JsonDocument.MatchedExactly` | internal/mcpreview/schema.go:438-451 | The candidate schemas for an undeclared required name are exactly those of the patterns that match it. |
| `JsonPointer.DecodeToken` | internal/mcpreview/schema.go:559-580 | The decoding loop decodes ~0 and ~1 and refuses every other use of a tilde. |
| `JsonPointer.TokenCodec` | internal/mcpreview/schema.go:559-580 | Decoding a token gives a text exactly when the token is the encoding of that text (RFC 6901, section 3). |
| `JsonPointer.PointerSplits` | internal/mcpreview/schema.go:510-525 | A pointer built from a list of keys is split and decoded back into that list, whatever slashes and tildes the keys contain. |
| `JsonPointer.EvalPointer` | internal/mcpreview/schema.go:510-530 | The empty pointer is the root, one without a leading slash is refused, and otherwise the loop steps through the document as the tokens, decoded up front, would. |
| `JsonPointer.ResolveLocalRef` | internal/mcpreview/schema.go:485-508 | A reference resolves if it is # or a percent-decoded pointer into the root. |
| `JsonPointer.EscapeRoundTrip` | internal/mcpreview/schema.go:493-508 | Percent-decoding (RFC 6901, section 6) undoes percent-encoding of any byte string. |
| `JsonPointer.ReferenceRoundTrip` | internal/mcpreview/schema.go:485-530 | The escaped pointer to any list of keys resolves to the schema those keys lead to. |
| `JsonPointer.UnescapeExactly` | internal/mcpreview/schema.go:493-508 | Percent-decoding gives a text for every way of writing it, with digits of either case (RFC 3986, section 2.1), and for nothing else. |
| `JsonPointer.EveryValueIsReferable` | internal/mcpreview/schema.go:485-546 | Every value in the document, found through keys and list indexes, is denoted by the reference to its place, however that is percent-encoded. |
| `JsonPointer.IndexForms` | internal/mcpreview/schema.go:548-557 | The array indexes accepted, exactly: decimal without leading zero, and in addition a signed form that RFC 6901, section 4, does not allow. |
| `JsonPointer.SignedIndexIsAccepted` | internal/mcpreview/schema.go:548-557 | The input that shows the difference: the token +1 is taken for index 1. |
| `SchemaWalk.EnteredSubschemas` | internal/mcpreview/schema.go:200-350 | What the walk enters below an object is exactly what applies to its instances: the subschemas of the listed keywords, the stand-ins of required undeclared names, and the $ref target; never those of not. |
| `SchemaWalk.UndeclaredEnter` | internal/mcpreview/schema.go:228-236 | Required names without a declaration are entered with the schema that governs them. |
| `FrameTable.FramesExactly` | internal/mcpreview/schema.go:200-368 | All frames entered below an object, field by field: section after section in the program's order, each with one frame for every schema in it, names ascending and lists by index, with node, origin, instance, location, name, depth and cue site; the target of a $ref in the place of the node that holds it; and what is reported of the object: itself, or the value it is an inspected branch of, or nothing. |
| `SchemaGraph.LessRoom` | internal/mcpreview/schema.go:144-160 | Why the walk ends without limits: below every object entered strictly less of the document is off the path. |
| `SchemaGraph.WalkIsClosed` | internal/mcpreview/schema.go:129-198 | Turning back at objects on the path and at references being followed loses nothing: whatever is entered has its subschemas entered too. |
| `SchemaGraph.WalkReachesExactly` | internal/mcpreview/schema.go:110-350 | The walk without limits enters a schema if and only if it is reachable from the root. |
| `SchemaWalkers.GraphDescribes` | internal/mcpreview/schema.go:129-350 | A document is such a graph: its walk terminates and follows its keywords. |
| `SchemaWalkers.ExploredThen` | internal/mcpreview/schema.go:129-160 | Parts of a limited walk compose: a subsequence of the walk without limits, equal to it until the first limit in its way. |
| `SchemaWalkers.SchemaWalker.Enter` | internal/mcpreview/schema.go:129-160 | One call of enter, limits included, against the walk without limits; counter, visits and guards accounted for. |
| `SchemaWalkers.SchemaWalker.FollowRef` | internal/mcpreview/schema.go:173-198 | The same for a $ref. |
| `SchemaWalkers.SchemaWalker.VisitFrame` | internal/mcpreview/schema.go:162-171 | What is reported for a frame: its own place, or the property a composition branch belongs to. |
| `SchemaReview.WalkSchema` | internal/mcpreview/schema.go:110-127 | The limit reported is the first one in the way of the walk without limits. If there is none the visits are that walk's and the nodes entered are exactly the reachable ones; otherwise they are a subsequence, from at most 256 nodes less than 32 deep. |
| `SchemaWalkers.LimitExactly` | internal/mcpreview/schema.go:129-137 | The limit reported is that of the first attempt 32 levels deep or with 256 nodes entered before it, depth before number. |
| `SchemaWalkers.NoLimit` | internal/mcpreview/schema.go:129-137 | Where every attempt is within both there is none. |
| `SchemaReview.ReviewFrames` | internal/mcpreview/mcpreview.go:157-198 | With one evaluator and its memo for all frames, every cued frame is reported or constrained; and every hypothesis has a cued frame at its location that the unbounded recursion finds unconstrained, unless a guard cut that very question short. |
| `SchemaReview.ReviewSchema` | internal/mcpreview/mcpreview.go:157-199 | The same for the whole schema: the hypotheses in any case, the settled questions when the walk was not truncated; and in a document with a measure no question is cut short, so that every hypothesis is on a frame the recursion finds unconstrained. |
| `FramePlaces.StepKeepsFrame` | internal/mcpreview/schema.go:200-350 | Each step of the walk, from a frame to one of the frames below it, keeps the frame invariant. |
| `FramePlaces.FrameInvariant` | internal/mcpreview/schema.go:90-350 | Whatever value a frame reached by named properties stands for in a document the root accepts, the frame's origin accepts that value or the outermost array around it, and its instance accepts the object that holds the value under the frame's name, or the value itself where the frame has no name. |
| `FramePlaces.StepKeepsLoose` | internal/mcpreview/schema.go:90-350 | What every step keeps, also one to a property without a name: origin and instance, where there are any, each accept some value of the document around the one the frame stands for. |
| `FramePlaces.LooseInvariant` | internal/mcpreview/schema.go:90-350 | So they do for every frame, whatever the names on the way. |
| `FramePlaces.RequiredAccepts` | internal/mcpreview/schema.go:438-475 | What an accepted object holds under a required, undeclared name is accepted by the stand-in schema entered for it. |
| `FramePlaces.PropertyTaken` | internal/mcpreview/schema.go:209-236 | So the frame of a declared or required property stands for the value every accepted object has there. |
| `Silence.OwnSilenceIsSound` | internal/mcpreview/mcpreview.go:157-199 | No hypothesis on a frame reported under its own name: every value it stands for and accepts, in any document the root accepts, is covered or sits in an array accepted by a directly constrained schema. |
| `Silence.PropertySilenceIsSound` | internal/mcpreview/mcpreview.go:157-199 | No hypothesis on a property, declared or only required and whatever its own name, below named properties: in every object its parent frame stands for and accepts, the value of that property is covered. |
| `Silence.ItemAnswerIsSound` | internal/mcpreview/constraint.go:43-68 | The answer "constrained" about an item schema: of every array its origin accepts, a directly constrained schema accepts the array or every element the item schema accepts is covered. |
| `Silence.ItemSilenceIsSound` | internal/mcpreview/mcpreview.go:157-199 | The same from the absence of a hypothesis on an item frame. |
| `Silence.BranchSilenceIsSound` | internal/mcpreview/mcpreview.go:157-199 | No hypothesis on a composition branch reported as its property: sound unless the property's schema, asked about the property's own name, can be found to forbid or constrain it; and sound then, too, if the branch or its origin is constrained by itself. |
| `Silence.SilenceAnywhere` | internal/mcpreview/mcpreview.go:157-199 | No hypothesis on any report of any frame, whatever branches and names lead to it, that the instance is not misled about: every value the frame stands for is covered, or inside a value of the document that a directly constrained schema accepts; without an origin it is covered. |
| `Silence.PropertySilenceAnywhere` | internal/mcpreview/mcpreview.go:157-199 | So no hypothesis on a property without a name, and on one below it unless the schema further out, asked in its place, can be found to forbid or constrain the name and the property is not constrained by itself: in every object its parent frame stands for and accepts, its value is covered. |
| `Silence.AnswerExactly` | internal/mcpreview/constraint.go:54-67 | The condition is exact, for branches and for properties below one without a name: what is not constrained by itself is answered "constrained" if and only if the instance, asked about the name, forbids it or governs and constrains it. |
| `Silence.BranchAnswersExactly` | internal/mcpreview/constraint.go:54-67 | So the answers about all branches a property may have, at the origin they share, speak about the branches if and only if its schema is not misled by its name or that origin is constrained. |
| `Silence.NamelessKeepsInstance` | internal/mcpreview/schema.go:90-98 | Below a property without a name a property is reported with the instance of the nameless one, the schema of the object around it or further out, and without an origin. |
| `Silence.NamelessAnswersExactly` | internal/mcpreview/constraint.go:54-67 | So the answers about all properties of one name there speak about these properties if and only if that schema is not misled by the name. |
| `SilentBranch.SilenceHidesText` | internal/mcpreview/constraint.go:59-67 | The input that shows it: an anyOf branch below a closed schema for "target" is reported with a cue and settled without a hypothesis, yet the root accepts a target that nothing covers. |
| `SilentNameless.SilenceBelowNamelessProperty` | internal/mcpreview/schema.go:90-98 | The other input: below a property whose name is empty the frame's instance is not the object that holds the value, and an uncovered text the frame stands for is passed over in silence. |
| `SilentReviews.ExampleReviewIsSilent` | internal/mcpreview/mcpreview.go:157-199 | Any outcome the review of the first input can have, whatever its guards do, is without a hypothesis. |
| `SilentReviews.NamelessReviewIsSilent` | internal/mcpreview/mcpreview.go:157-199 | Nor has the review of the second any. |
| `SilentReviews.ReviewBoth` | internal/mcpreview/mcpreview.go:157-199 | Walk, memo, guards and budgets included, the program raises no hypothesis for either. |
| `SilentReviews.ExampleIsTame` | internal/mcpreview/constraint.go:19-35 | The first of them is a document with a measure. |
| `Registries.Registry.Add` | internal/registry/registry.go:31-40 | Adds an active family with one attempt, or refuses and changes nothing. |
| `Registries.Registry.Block` | internal/registry/registry.go:42-54 | Blocks with a reason whatever the status was, exhausted included. |
| `Registries.Registry.Reopen` | internal/registry/registry.go:56-73 | Reopens a blocked family with a new mechanism kept aside: the mechanism of record changes only when the ledger is replayed. |
| `Registries.Registry.Exhaust` | internal/registry/registry.go:75-83 | Marks a family exhausted. |
| `Registries.Registry.Set` | internal/registry/registry.go:90-100 | Replaces one entry. |
| `Registries.Registry.RecordDispatch` | internal/registry/persist.go:79-92 | Counts one more attempt of an active family. |
| `FamilyOutcomes.AddOutcome` | cmd/vrh/commands.go:77-90 | families add goes through exactly for a valid name the ledger does not know and a mechanism; then one event and the new entry; otherwise no write. |
| `FamilyOutcomes.BlockOutcome` | cmd/vrh/commands.go:91-101 | families block goes through exactly for a known family and a reason; then one event and the blocked entry; otherwise no write. |
| `FamilyOutcomes.ReopenOutcome` | cmd/vrh/commands.go:102-112 | families reopen goes through exactly for a family last blocked and not marked exhausted, on a mechanism neither of record nor last reopened on; then one event and the reopened entry; otherwise no write. |
| `FamilyOutcomes.ListOutcome` | cmd/vrh/commands.go:249-269 | families list saves the view of the ledger unless it is empty, and nothing else. |
| `FamilyOutcomes.SeedOutcome` | cmd/vrh/commands.go:144-194 | families seed goes through exactly for a list that is not empty, repeats no family, has valid names and mechanisms, and for known families the mechanism of record. The unknown ones are then added, every listed family is known with the mechanism listed, and the registry mirrors the ledger. Otherwise no write. |
| `FamilyOutcomes.AdditionsInOrder` | cmd/vrh/commands.go:172-183 | The added families come in the order of the list. |
| `RequestIds.RequestIdInjective` | cmd/vrh/commands.go:524-524 | A request id names one family and one round. |
| `RequestIds.SplitDashesExactly` | internal/registry/persist.go:19-33 | The parts of a family name that are checked: what is left when it is cut at each pair of dashes, the leftmost first. |
| `LedgerReading.StandingExactly` | internal/coordinator/coordinator.go:113-155 | A family's standing is what the latest event that decides it leaves: a block, a reopening, or a result that reports a block. |
| `LedgerReading.MechanismExactly` | cmd/vrh/commands.go:317-329 | Its mechanism of record is the one the latest addition or reopening names. |
| `LedgerReading.DispatchesExactly` | cmd/vrh/commands.go:312-337 | Its dispatches are its publications and reopenings, counted. |
| `LedgerReading.PublishedFamiliesExactly` | cmd/vrh/commands.go:412-420 | The families of a round are those of its publications, all of them and in ledger order. |
| `CampaignLedger.ReconcileFromLedger` | internal/coordinator/coordinator.go:113-155 | Succeeds exactly when every family that needs blocking has a reason, and then gives the block state of the event-by-event definition; when it gives up, each family is as before or already restored, in whatever order they were visited. |
| `CampaignLedger.ReconcileRegistry` | cmd/vrh/commands.go:300-346 | The loops over events and over the attempt counts (in any order) compute Reconcile of the registry and the ledger; where its last part gives up, which is ignored, each family is still counted and either restored or not. |
| `LedgerLaws.ReconcileAgrees` | cmd/vrh/commands.go:300-346 | Reconciling any registry a command could have written, or none, with or without families marked exhausted in it, gives exactly the ledger's families, each with the mechanism, attempts and, unless exhausted, status and reason the ledger records. |
| `LedgerLaws.ReconcileIdempotent` | cmd/vrh/commands.go:300-346 | Reconciling twice changes nothing the second time, whatever the registry said. |
| `LedgerLaws.ReconcileKeepsExhaustion` | cmd/vrh/commands.go:309-310 | Reconciliation neither grants nor revokes exhaustion, whatever the ledger says. |
| `LedgerLaws.ReconciledIsFaithful` | cmd/vrh/commands.go:300-346 | A reconciled registry is again one a command could have written. |
| `Dispatch.PlanIsLeast` | internal/coordinator/coordinator.go:41-76 | A plan is the k least active families by attempts, then name byte by byte, in that order. |
| `Text.LessExactly` | internal/coordinator/coordinator.go:59-64 | The order of names: at the first place where two differ, the smaller byte or the end of the shorter. |
| `Dispatch.CoordinatorPlan` | internal/coordinator/coordinator.go:41-76 | Plan returns that plan and counts one attempt for each of its families. |
| `Dispatch.CloneRegistry` | cmd/vrh/commands.go:597-608 | The scratch copy is what adding, blocking or exhausting, and recounting each family gives, ignored errors included. |
| `Dispatch.PlanFamilies` | cmd/vrh/commands.go:589-614 | Planning on the scratch copy leaves the registry unchanged. |
| `Dispatch.ScratchPlansAlike` | cmd/vrh/commands.go:589-614 | On a registry whose blocked families have reasons, the scratch copy plans as the registry itself would. |
| `FreshRounds.FreshRun` | cmd/vrh/commands.go:460-538 | A round plan with nothing pending records the fair plan on the loaded view and goes on to dispatch all of it. |
| `FreshRounds.FreshPlanDispatches` | cmd/vrh/commands.go:460-567 | When it completes, that plan and nothing else has been published, and the view loaded from the longer ledger is the loaded view with that plan dispatched. |
| `FairRuns.FullRoundDispatches` | cmd/vrh/commands.go:372-574 | The same as a step of a run: the families dispatched are the least by attempts and name, and each of them gained a dispatch on the ledger. |
| `FairRuns.PassedOver` | internal/coordinator/coordinator.go:41-76 | From drawing up a plan that leaves out a family to having it published, by however many invocations, the total lead of the others over that family falls by at least the number of workers. |
| `FairRuns.WaitingIsBounded` | cmd/vrh/commands.go:372-574 | No starvation, over every run of any commands, complete, cut short or resumed: while a family is neither given work nor reopened, the workers of the completed rounds that left it out when it could have been given work are at most the total lead over it of the families active at those times; and so there are at most so many such rounds of k workers as k goes into that lead. |
| `ResumedRounds.FullRoundIsServed` | cmd/vrh/commands.go:372-574 | Such a round begun and completed by one invocation counts. |
| `ResumedRounds.ResumedRoundIsServed` | cmd/vrh/commands.go:408-567 | So does one cut after recording its plan and completed by another invocation, with the max-workers of the first. |
| `EvenRuns.GentleKeepsBalance` | cmd/vrh/commands.go:505-567 | What each write of a round plan keeps: dispatches of families that may be given work within one of each other, and those of the pending plan still to be published the ones with the fewest, in order. |
| `EvenRuns.PlanGentle` | cmd/vrh/commands.go:372-574 | Every write of a round plan, fresh, resumed or recovering its state, is of that kind. |
| `EvenRuns.GapStaysBoundedOverRuns` | cmd/vrh/commands.go:372-574 | Over every run of round plans with any max-workers, complete, cut short anywhere and resumed or not, and of steps that let no family newly work, attempts of active families once within one of each other stay so. |
| `EvenRuns.QuietStepHasNoNewcomers` | cmd/vrh/commands.go:91-101 | Such steps are all that append nothing but blocks and results and unmark no exhausted family that is not blocked. |
| `Inboxes.ReadRequestFiles` | internal/executor/outstanding.go:82-124 | The envelopes by id, or a refusal of unnamed or repeated ones. |
| `Inboxes.OutstandingFromLedger` | internal/executor/outstanding.go:15-71 | Succeeds exactly when every envelope matches its publication or is answered; then each unanswered file is the envelope of the ledger's latest publication of its id, and the ids come with their ledgered families. A single unanswered file that differs makes it fail. |
| `Inboxes.DerivableMeans` | internal/executor/outstanding.go:22-124 | What success takes, by events and files: every publication names a family, every file an id and a family, files for one id are alike, and each is for a published id and, unless answered, the latest publication's envelope. |
| `Inboxes.AlteredIsRefused` | internal/executor/outstanding.go:58-67 | One request file that is not what was published for its unanswered id makes it fail. |
| `Inboxes.CollectResults` | internal/executor/executor.go:158-207 | Accepts exactly the batches of acceptable answers to different outstanding requests, in filename order. |
| `Inboxes.LedgeredLeftovers` | internal/executor/executor.go:209-238 | The result files already answered in the ledger, unless a file is unreadable. |
| `CampaignCommands.Campaign.Write` | cmd/vrh/commands.go:785-795 | One durable write: done, or the command stops there for good. |
| `CampaignCommands.Campaign.LoadReconciled` | cmd/vrh/commands.go:227-247 | Loading yields the reconciled registry. |
| `CampaignCommands.Campaign.AddFamily` | cmd/vrh/commands.go:77-90 | The command performs its specified writes in order, or the prefix before the crash. |
| `CampaignCommands.Campaign.BlockFamily` | cmd/vrh/commands.go:91-101 | As AddFamily. |
| `CampaignCommands.Campaign.ReopenFamily` | cmd/vrh/commands.go:102-112 | As AddFamily. |
| `CampaignCommands.Campaign.ListFamilies` | cmd/vrh/commands.go:249-269 | As AddFamily. |
| `CampaignCommands.Campaign.SeedFamilies` | cmd/vrh/commands.go:144-194 | As AddFamily, after validating every entry before the first write. |
| `CampaignCommands.GroupByRound` | cmd/vrh/commands.go:412-420 | The families published per round, in ledger order. |
| `CampaignCommands.RecoverRoundState` | cmd/vrh/commands.go:751-783 | The state rebuilt from publications alone, or a refusal exactly when one has no positive round. |
| `CampaignCommands.ReconstructMarks` | cmd/vrh/commands.go:408-438 | Completion per round, judged from the pending plan where there is one, in whatever order the rounds are visited. |
| `CampaignCommands.AdvanceRound` | cmd/vrh/commands.go:450-458 | The loop ends at the first round not marked complete. |
| `CampaignCommands.FilterActive` | cmd/vrh/commands.go:576-587 | The families of a pending plan that are still active. |
| `CampaignCommands.FilterUnpublished` | cmd/vrh/commands.go:481-487 | The families of a plan not yet published in the round. |
| `CampaignCommands.Campaign.PublishAll` | cmd/vrh/commands.go:519-539 | Each request's envelope, unless already there unchanged, then its event; stops at the first refusal or crash. |
| `CampaignCommands.Campaign.FinishRound` | cmd/vrh/commands.go:540-568 | Reconciles, advances the state only if the whole plan is on the ledger, saves the registry. |
| `CampaignCommands.Campaign.RoundPlan` | cmd/vrh/commands.go:372-574 | The whole command against its specified writes, for every crash point. |
| `CampaignCommands.Campaign.RoundIngest` | cmd/vrh/commands.go:616-723 | As RoundPlan. |
| `CampaignCommands.Campaign.Perform` | cmd/vrh/main.go:20-44 | The dispatch of the command line: any of these commands against its specified writes. |
| `CommandSteps.InvIsUsable` | cmd/vrh/commands.go:227-247 | Every directory that keeps the campaign invariant is one the commands can be called in. |
| `CommandSteps.CommandIsStep` | cmd/vrh/commands.go:60-723 | A command as written, stopped after any number of writes, leaves on disk what the corresponding step of a run leaves. |
| `CommandSteps.RunNext` | cmd/vrh/commands.go:60-723 | In every directory a run reaches the program may run any command, and reaches the directory of the run with that step added. |
| `CampaignCommands.CoordinatorIngest` | internal/coordinator/coordinator.go:78-105 | Applies a batch of results to the registry or refuses. |
| `CampaignRuns.ReachedKeepsInv` | cmd/vrh/commands.go:60-723 | The invariant holds after any sequence of commands with crashes, lost state or registry files, families marked exhausted by hand and arbitrary result files. |
| `CampaignRuns.LedgerIsAppendOnly` | internal/ledger/ledger.go:105-123 | Later directories extend the ledger of earlier ones. |
| `CampaignInvariant.AllowedKeepsInv` | cmd/vrh/commands.go:505-538 | Every allowed durable write keeps the campaign invariant. |
| `CampaignInvariant.PrefixKeepsInv` | cmd/vrh/commands.go:372-574 | So does every prefix of allowed writes: a crash point is as good as the end. |
| `PlanningSafety.RecoveredIsOk` | cmd/vrh/commands.go:751-783 | A recovered state never points at or before a recorded round. |
| `PlanningSafety.PlanAllowed` | cmd/vrh/commands.go:372-574 | Every write of a round plan, in any state of the directory the invariant allows, is allowed. |
| `PlanOutcome.RecoveredExactly` | cmd/vrh/commands.go:751-783 | The state rebuilt after a loss: one past the highest published round, which it takes for pending with the families published in it, in order; every published round complete. |
| `PlanOutcome.MarksExactly` | cmd/vrh/commands.go:408-438 | A round with publications is complete if no plan is pending for it or all of that plan is published; any other round keeps its mark. |
| `PlanOutcome.WorkOfRound` | cmd/vrh/commands.go:440-487 | A round plan works on the first round from the state's on that is not complete, on the families of the pending plan that are still active, in order, or else on the fair plan, and has yet to publish those without a request in the round. |
| `PlanOutcome.RoundPlanCompletes` | cmd/vrh/commands.go:460-574 | What a completed round plan has done: published exactly those, in that order, each with its assignment and envelope; left the round if the plan it was started with is published; saved a registry that says what the ledger records; and nothing else. |
| `PlanOutcome.PlanEndsWithRegistry` | cmd/vrh/commands.go:540-572 | A completed round plan saves the registry last. |
| `IngestSafety.DerivableExactly` | internal/executor/outstanding.go:22-71 | The outstanding set can be derived if and only if every envelope has its publication in the ledger. |
| `IngestSafety.OutstandingIsExact` | internal/executor/outstanding.go:22-71 | Once derived it is exactly the published and unanswered ids, with their ledgered families. |
| `IngestSafety.IngestAllowed` | cmd/vrh/commands.go:640-720 | Ingest succeeds exactly on an acceptable batch; a refused one leaves the ledger alone; an accepted one saves a registry equal to what the longer ledger records. |
| `IngestOutcome.IngestSucceedsExactly` | cmd/vrh/commands.go:616-723 | Ingest succeeds if and only if every result file can be read, every request file belongs to a publication, some result is unanswered, and the unanswered ones are in order and answer different published requests. |
| `IngestOutcome.IngestAppends` | cmd/vrh/commands.go:697-715 | It then appends one event for each unanswered result file, in filename order: id, status and block reason from the file, and the family the request was published for. |
| `IngestOutcome.IngestCompletes` | cmd/vrh/commands.go:656-723 | And leaves no result file, every one archived as it was, an answer in the ledger for each, a registry that says what that ledger records, and requests and round state untouched. |
| `IngestOutcome.IngestEndsWithRegistry` | cmd/vrh/commands.go:716-720 | The registry is saved last. |
| `IngestOutcome.IngestRefused` | cmd/vrh/commands.go:656-678 | A refused ingest appends nothing; it has archived the files answered before, if all could be read, and changed nothing else. |
| `TamperedRequests.TamperingStopsIngest` | internal/executor/outstanding.go:58-67 | In any directory a run reaches, a request file is rewritten to another assignment under a published, unanswered id: over every run that follows the file stays, ingest refuses without appending anything, and the request is never answered. |
| `KeptAnswers.ArchivedAreAnswered` | cmd/vrh/commands.go:640-717 | Over every run, crashes included: whatever is archived under results/consumed is an answer the ledger has. |
| `KeptAnswers.NoAnswerIsLost` | cmd/vrh/commands.go:640-717 | Over every run, whichever command comes next and wherever it is cut: a result file stays where it is, or is archived as it was with its answer in the ledger. |
| `CampaignTheorems.ViewAgreesWithLedger` | cmd/vrh/commands.go:300-346 | In every reachable directory, loading the registry gives each family what the ledger records, whatever registry.json is on disk, but for the standing of families marked exhausted. |
| `CampaignTheorems.OneBoundedPlanPerRound` | cmd/vrh/commands.go:505-513 | All that is ever published in a round belongs to one recorded plan no larger than the max-workers it was recorded with. |
| `CampaignTheorems.RoundsAreBounded` | cmd/vrh/commands.go:460-513 | No round dispatches more families than its planner had workers. |
| `CampaignTheorems.HistoryIsSound` | cmd/vrh/commands.go:372-723 | Over every run: no double dispatch, no round going back, exactly-once ingestion, no work for blocked families. |
| `CampaignTheorems.OutstandingOverRuns` | internal/executor/outstanding.go:22-71 | DerivableExactly and OutstandingIsExact over every run. |
| `PlanRetry.RetryFinishesPlan` | cmd/vrh/commands.go:460-567 | With a plan pending none of whose families has been blocked or exhausted since, a successful round plan publishes exactly that plan, whatever max-workers it is given. |
| `PlanPursuit.FirstIsPursued` | cmd/vrh/commands.go:505-567 | After recording its plan a round plan may be cut anywhere: the plan is still pending and can be finished, or it is published and its round retired; nothing else was published in the round. |
| `PlanPursuit.PursuedPrefix` | cmd/vrh/commands.go:408-567 | Any further round plan, with any max-workers and cut anywhere, keeps that. |
| `PlanPursuit.PursuitEnds` | cmd/vrh/commands.go:408-567 | And one that completes leaves exactly the plan published in the round. |
| `PlanPursuit.CrashThenRetry` | cmd/vrh/commands.go:408-567 | A round plan stops anywhere after recording its plan, even after retiring the round; any number of further ones are interrupted anywhere; then one completes: the round has exactly the publications of the recorded plan, at most as many as the first max-workers. |
| `PlanSuccess.PublishRunSucceeds` | cmd/vrh/commands.go:519-539 | The publication loop goes through if and only if each family on its list could be published by itself. |
| `PlanSuccess.RetrySucceedsExactly` | cmd/vrh/commands.go:460-567 | With an unfinished plan on disk, a round plan succeeds if and only if every unpublished family of it has a usable mechanism and no different envelope under its request name. |
| `PlanSuccess.RetryAfterCrashSucceeds` | cmd/vrh/commands.go:408-567 | A round plan that would have succeeded, stopped between recording its plan and publishing all of it, succeeds when run again and the round comes to exactly that plan. |
| `ExhaustedFamilies.PlanPublishesActive` | cmd/vrh/commands.go:576-614 | Whatever a round plan publishes is for families active in the loaded view. |
| `ExhaustedFamilies.ExhaustedGetNoWork` | cmd/vrh/commands.go:601-603 | So a family marked exhausted is given no work by a round plan. |
| `ExhaustedFamilies.BlockMarks` | internal/registry/registry.go:42-54 | Blocking an exhausted family takes its mark away if and only if a reason is given and the registry is saved. |
| `ExhaustedFamilies.IngestMarks` | internal/coordinator/coordinator.go:78-105 | Ingesting does if and only if the batch is acceptable, holds a blocked result for the family, and the registry is saved. |
| `ExhaustedFamilies.MarkStaysExactly` | cmd/vrh/commands.go:298-310 | A step takes the mark of an exhausted family away if and only if it is one of these two or loses registry.json. |
| `ExhaustedFamilies.ExhaustedStayWithoutWork` | cmd/vrh/commands.go:298-310 | Over every run without such a step a family marked exhausted stays exhausted and nothing is published for it. |
| `OrphanedEnvelopes.CrashOrphans` | cmd/vrh/commands.go:532-538 | A round plan that starts a fresh round, stopped between its first new envelope and its event, orphans the envelope. |
| `OrphanedEnvelopes.OrphanPersists` | cmd/vrh/commands.go:372-723 | Over every continuation the orphan stays and every ingest refuses, unless the envelope's family is published in that very round with the mechanism in the envelope. |
| `OrphanedEnvelopes.WedgeRefuses` | cmd/vrh/commands.go:519-539 | When the family of an orphan is in the pending plan and has meanwhile another mechanism on record, every round plan is refused too. |
| `Wedges.WedgePersists` | cmd/vrh/commands.go:519-539 | Such a wedge outlives every step, complete or cut short, but blocking or exhausting the family and losing state.json. |
| `Wedges.WedgeStopsCampaign` | cmd/vrh/commands.go:372-723 | Over every run without those steps every round plan, with any max-workers, and every ingest is refused. |
| `OrphanExample.OrphanIsReached` | cmd/vrh/commands.go:532-538 | A run of four steps after which an envelope is orphaned and ingest refuses an acceptable answer to a published request, which it would accept were the orphan gone. |
| `OrphanExample.WedgeIsReached` | cmd/vrh/commands.go:91-112 | Blocking and reopening the family after that run wedges the campaign. |
| `HashChains.Ledger.Verify` | internal/ledger/ledger.go:125-154 | Accepts exactly the files whose links and digests are right, and then caches the last hash. |
| `HashChains.Ledger.Append` | internal/ledger/ledger.go:105-123 | Refuses blank ids and types; otherwise appends one event linked to the last and keeps the file verifiable. |
| `HashChains.LastHashDeterminesHistory` | internal/ledger/ledger.go:125-161 | Under a digest without collisions two ledgers that verify and end in the same hash are equal event for event. |
| `Captures.Capture.Write` | internal/repro/capture.go:25-48 | One write updates digest input, carry-over, found flag and kept prefix. |
| `Captures.ScanAcrossBoundary` | internal/repro/capture.go:27-40 | A new occurrence lies within the chunk and the last marker-length-minus-one bytes before it. |
| `Captures.ChunksDoNotMatter` | internal/repro/capture.go:25-48 | For any split into writes the marker is found exactly when it occurs in the whole output, the digest covers all of it, and the kept part is its first mebibyte. |
| `LineReaders.SplitIsTheDivision` | campaigns/mcp-filesystem/source/lib.ts:394-394 | The lines of a text are the one way to write it as newline-free pieces with newlines between. |
| `LineReaders.NormalizeEndsWith` | campaigns/mcp-filesystem/source/lib.ts:57-59 | Cutting a text anywhere, even inside CR LF, leaves the normal form of the rest at the end of the normal form of the whole. |
| `LineReaders.NormalizeExactly` | campaigns/mcp-filesystem/source/lib.ts:57-59 | Normalizing drops the carriage returns right before line feeds and keeps everything else in order. |
| `LineReaders.LastLinesOfSuffix` | campaigns/mcp-filesystem/source/lib.ts:377-394 | A suffix with n newlines holds the last n lines. |
| `LineReaders.TailFile` | campaigns/mcp-filesystem/source/lib.ts:364-399 | The last n lines of the text the reads gather, wherever the chunks fall and however short each read is; with full reads the last n lines of the normalised file; nothing for n below one. |
| `LineReaders.FullReadsSuffice` | campaigns/mcp-filesystem/source/lib.ts:364-399 | Reads that deliver what they are asked for, where the loop makes them, gather a suffix of the file that has its last n lines. |
| `LineReaders.TailIsRightExactly` | campaigns/mcp-filesystem/source/lib.ts:364-399 | For n of one or more, the tail of every file of a given length is right if and only if every read on the grid of chunks of that length is full. |
| `LineReaders.ShortReadLosesText` | campaigns/mcp-filesystem/source/lib.ts:372-381 | An input that shows the gap a short read leaves: the last line of "ab" read one byte at a time is "a". |
| `LineReaders.HeadFile` | campaigns/mcp-filesystem/source/lib.ts:402-440 | The first n lines with a trailing empty line dropped, for every sequence of read sizes. |
| `LineReaders.WholeFile` | campaigns/mcp-filesystem/source/lib.ts:364-440 | Asking for at least as many lines as there are returns the whole file, in normal form from the tail, without a final newline from the head. |
| `LineReaders.HeadAndTailMeet` | campaigns/mcp-filesystem/source/lib.ts:364-440 | The first k lines of the normal form and the remaining ones from the tail reader make it up. |

## Left out

- Unconstrained: the two recursions it is checked against differ on whether a disjunction with no viable branch
  forces arrays, because there the program's own answer depends on how deep its viability questions could look;
  and outside documents with a measure a "true" given after a guard cut in claims nothing, which is how the program
  means it.
- SearchCtx: as Unconstrained.
- ReviewSchema: hypotheses are pairs of kind and location; cue matching, description and name findings, report
  order and texts are not part of this model. The walk ends before the questions are asked; walker and evaluator
  share no state.
- HeadFile: characters stand for bytes; decoding UTF-8 across chunks is not part of this model, nor are
  fractional line counts.
- CrashThenRetry: between the invocations nothing else happens. After losing `state.json` the next plan goes on to a
  new round, which the theorems over every run cover.
- ViewAgreesWithLedger: says nothing of the last new mechanism, which is not in the ledger.
- LoadReconciled: like all commands, asks that no block in the ledger lacks its reason. No command writes such a
  block, and every reached directory meets this (`InvIsUsable`); with one, the order in which a map is visited would
  decide which standings are restored, as `ReconcileFromLedger` and `ReconcileRegistry` say.
- AddFamily: as LoadReconciled.
- BlockFamily: as LoadReconciled.
- ReopenFamily: as LoadReconciled.
- ListFamilies: as LoadReconciled.
- SeedFamilies: as LoadReconciled.
- FinishRound: as LoadReconciled.
- RoundIngest: as LoadReconciled.
- Perform: as LoadReconciled.
- RoundPlan: as LoadReconciled, and starts where the admission check has passed.
- WalkApplicators: the loops of walkApplicators, which build frames on the way, are a list of frames computed first
  and then entered in order; nothing they read changes meanwhile.
- Contract, capability and worker field checks, beyond a blocked result having a reason and names being safe.
- Manifest, archive and snapshot verification: admission is taken as passed.
- Torn ledger lines, the scanner's line limit, file locking, permissions and concurrent processes.
- Container, Landlock, sandbox and reproduction process control.
- JSON encoding and decoding, SHA-256, Unicode white space beyond Latin-1 in trimmed strings, and the range of
  machine integers in pointer indexes.
- The rest of the vendored filesystem server and all command-line output.
