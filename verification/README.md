# A verified model of the legal question-answering backend

The repository answers questions about Vietnamese law over a graph of documents: a chat backend resolves what a message
refers to and keeps one consistent record per conversation; a generation package selects evidence under a budget, asks a
provider and accepts only grounded answers; a crawler collects documents through resumable jobs. This project models the
parts of it whose correctness depends on several functions or on whole runs, and proves what those parts are for. Nothing
here executes the original program.

| file | what it models |
|---|---|
| `Prelude.dfy`, `Text.dfy` | `dict.fromkeys`, stable sorting, string comparison; Python's stripping, white-space collapsing and numerals |
| `Clarification.dfy`, `Resolver.dfy`, `ResolverOutcomes.dfy` | clarification candidates and their stored JSON; how a message is resolved to legal units, and what each kind of message comes to |
| `Focuses.dfy`, `Conversation.dfy`, `LockedTurn.dfy`, `ConversationInvariant.dfy` | the rows of a conversation, each committed transaction as an update in place, and what every transaction keeps |
| `AdvisoryLock.dfy`, `TurnProtocol.dfy`, `TurnOpening.dfy`, `TurnOutcomes.dfy`, `StrandedTurn.dfy` | polling the lock; interleaved requests, retries and crashes as a state machine over those rows; what a turn begins with and what each way of ending it leaves; turns that nobody finishes |
| `Compaction.dfy`, `RequiredEvidence.dfy`, `ComparisonEvidence.dfy`, `CompactedPlan.dfy` | duplicates and required bundle sets, and the whole plan read off the evidence |
| `Projection.dfy`, `ProjectedChoice.dfy`, `ProjectedValidation.dfy`, `ProjectedRecheck.dfy` | budget packing and the re-check, and what they choose, hold and accept |
| `ProjectionAgreement.dfy`, `ComparisonExample.dfy` | when compaction, projection and re-check agree, and an input on which they do not |
| `Rendering.dfy`, `ReadableAnswer.dfy`, `Grounding.dfy`, `ValidatedAnswer.dfy`, `AnswerService.dfy` | the answer text, its citation numbers and what a reader sees of it, the grounding checks and which candidates pass them, the call to the provider and its one repair |
| `RetrievalRunner.dfy`, `RunnerSafety.dfy`, `RunnerSteps.dfy`, `RunnerFairness.dfy` | permits, threads, timeouts and shutdown of the bounded retrieval runner as event-loop steps, the effect of each step, and the order in which calls are served |
| `Hierarchy.dfy`, `HierarchySafety.dfy`, `HierarchyReport.dfy`, `HierarchyPayload.dfy`, `HierarchyExample.dfy` | the reconciler that deletes flattened CONTAINS edges, what it reports and refuses, the payloads it is given, and those on which it fails |
| `Embedding.dfy`, `DocumentTree.dfy`, `DetailContents.dfy` | the search for embedded units and their texts; the parent choice and the tree of the document browser, and what a detail lists in which order |
| `CrawlJobs.dfy`, `JobOutcomes.dfy`, `CrawlWorker.dfy`, `WorkerOutcomes.dfy`, `CrawlWorkerSafety.dfy` | job records and what each operation writes and reports, the worker loop, its passes and its runs |
| `RequestSafety.dfy`, `SearchDiscovery.dfy`, `SearchReading.dfy` | request pacing and budgets; the collection of search results, and which pages are read for it |
| `ReferenceTokens.dfy`, `ContentTracing.dfy`, `ContentCleaning.dfy`, `ContentRendering.dfy`, `ContentWords.dfy`, `ContentSymbols.dfy`, `ContentMarked.dfy` | the HTML serializer: references replaced by tokens, rendering, line cleaning, and markers with their character offsets; which words and lines of a page are in its text |

Objects whose methods update their fields are classes proved against functions of the old state; runs are sequences of
events from a start state, and the main results hold in every state of every run. The functions that specify an operation
are in turn characterised by predicates over its input and output that do not use them: which elements are chosen and in
which order, which field holds what, which case ends how.

What the proofs brought to light, each stated as a lemma:

- A comparison that rests on an AMENDS or REPLACES path is compacted and projected but never accepted by the re-check,
  because such a bundle carries no version keys; the same holds of comparisons under a relation goal or a composition plan.
  `ProjectionAgreement.AcceptedExactly` says which plans are accepted, and
  `ComparisonExample.AmendmentComparisonIsRejected` gives one that is not.
- Reconciling a payload a second time fails if and only if some article under a Subsection lies in a Section with a Chapter
  (`HierarchySafety.RunAgain`). A payload that passes the consistency check already fails on its first ingestion if there
  is such an article, or if a Part with a Chapter is not in a Document, and only then
  (`HierarchyPayload.FirstIngestionSucceeds`); payloads are in `HierarchyExample.FreshRunFails`,
  `HierarchyExample.SecondRunFails` and `HierarchyExample.InstrumentFails`.
- A page block leaves its job claimable whatever its attempt count, so a series of runs that meet the same pages drains a
  bundle if and only if no referenced job meets a page block (`CrawlWorkerSafety.BlockLeavesClaimable`,
  `CrawlWorkerSafety.SeriesDrainsExactly`).
- The request counter is charged to the day before the pause, so one request more than the daily budget can be stamped on one
  day, and never two (`RequestSafety.BudgetPlusOne`, `RequestSafety.RequestsArePaced`).
  `RequestSafety.BudgetHoldsExactly` says when the budget holds, and by `RequestSafety.BudgetHoldsWithinDays` it does while
  no pause crosses midnight.
- A reply to an open selection that `str.isdigit` takes for a number and `int` does not, such as a superscript two, raises;
  every other reply that neither cancels nor selects repeats the question (`Clarification.MatchRaisesExactly`,
  `TurnProtocol.InvalidReplyRepeatsCandidates`).
- A turn whose processing raised, or whose handler crashed, stays PROCESSING for good: no request for it is ever given a
  result, and repeating it is answered with "processing" (`StrandedTurn.FinishStrandsExactly`,
  `StrandedTurn.StrandedForever`). `StrandedTurn.SuperscriptRun` is a run from the start state that ends in such a turn.
- A reference inside another reference is numbered but detached with the outer one, and serializing the page fails on it;
  pages without such a pair lose no reference (`ContentRendering.SerializationIsExact`,
  `ContentRendering.NestedReferenceIsLost`).
- The resolver's documentation speaks of a message breaking out of an open selection; the code never does that, and the model
  follows the code (`TurnProtocol.InvalidReplyRepeatsCandidates`).

## Model

| member | source | states |
|---|---|---|
| `TurnProtocol.OneTurnPerClientId` | apps/backend/conversation/service.py:151-180 | over every interleaving of requests, retries and crashes a client turn id has at most one turn, turns are numbered 1..n, message ordinals are 1..m and each reply directly follows its user message |
| `TurnProtocol.FinishedTurnsNeverChange` | apps/backend/persistence/repository.py:241-464 | a turn leaves PROCESSING at most once: afterwards no later state of the run changes it |
| `TurnProtocol.AllReplaysAgree` | apps/backend/conversation/service.py:151-180 | all handlers of one client turn that are given its result are given the same snapshot |
| `TurnProtocol.ResponsesAreFaithful` | apps/backend/conversation/service.py:174-180 | a response is "processing" for an existing turn or its persisted snapshot; the missing-snapshot error never occurs |
| `TurnProtocol.MutualExclusion` | apps/backend/persistence/repository.py:688-708 | two handlers never hold the lock of one key at once |
| `TurnProtocol.PendingIsLastQuestion` | apps/backend/persistence/repository.py:319-464 | a stored clarification points to a NEEDS_CLARIFICATION turn, every later turn is FAILED or PROCESSING, and it can be read back |
| `TurnProtocol.FocusesAlwaysGrounded` | apps/backend/persistence/repository.py:476-526 | at every commit there are at most five focuses, each last grounded by a COMPLETED turn |
| `TurnProtocol.InvalidReplyRepeatsCandidates` | apps/backend/resolution/resolver.py:88-119 | a reply that neither cancels nor selects persists exactly the same candidate list again iff it is not a digit string without a value; such a reply raises and leaves the rows as they were |
| `TurnProtocol.CancelEndsPending` | apps/backend/resolution/resolver.py:88-95 | a cancel ends the open clarification, completes its turn and leaves the focuses alone |
| `StrandedTurn.StrandedForever` | apps/backend/conversation/service.py:151-180 | a PROCESSING turn that no handler works on stays so in every later state of every run; no request for it is ever given a result, and its owner is told to wait |
| `StrandedTurn.FinishStrandsExactly` | apps/backend/conversation/service.py:182-202 | the end of processing strands its turn iff an exception escapes instead of a finalize |
| `StrandedTurn.CrashStrands` | apps/backend/conversation/service.py:163-172 | a crash strands the turn its handler was processing |
| `StrandedTurn.SuperscriptStrands` | apps/backend/resolution/clarification.py:51-64 | in every state a superscript two in reply to an open selection writes nothing, answers with an error and strands its turn |
| `StrandedTurn.SuperscriptRun` | apps/backend/conversation/service.py:151-202 | a run from the start state in which a message that names two documents is followed by a superscript two: an error, and a stranded turn |
| `TurnProtocol.StepKeepsInv` | apps/backend/conversation/service.py:151-202 | every atomic action keeps all conversations sound, all held locks owned and all responses faithful, and extends every conversation |
| `TurnProtocol.RunExtends` | apps/backend/persistence/repository.py:241-464 | along a run turns are never removed, renumbered or, once finished, rewritten |
| `TurnProtocol.DecideIsWellFormed` | apps/backend/conversation/service.py:182-202 | whichever branch handles an outcome, it finalizes with a storable clarification, a canonical answer or a failure; which of them and with what contents is said of the rows by `TurnOutcomes` |
| `TurnOutcomes.AnswerCompletes` | apps/backend/conversation/service.py:577-721 | an answer in a resolved or standalone turn completes it with its text, closes an open question and leaves as focuses the five freshest of the old rows overridden by the cited units at this turn; if it cites any, one of them is among the focuses |
| `TurnOutcomes.CannotAnswerLeavesFocuses` | apps/backend/conversation/service.py:577-721 | an answer that finds no basis finishes the turn as such and leaves the focuses as they were |
| `TurnOutcomes.ClarificationIsAsked` | apps/backend/conversation/service.py:288-315 | a clarification the resolver calls for is stored with its mode, question and candidates, and reads back as asked |
| `TurnOutcomes.DirectReplies` | apps/backend/conversation/service.py:317-372 | a cancel and a greeting are answered at once, whatever retrieval would have done |
| `TurnOutcomes.WorkAsks` | apps/backend/conversation/service.py:182-202 | a filter conflict and a query processor that asks lead to a stored request for a new wording |
| `TurnOutcomes.WorkFails` | apps/backend/conversation/service.py:723-732 | a failure finishes the turn with its code, without a message, and changes nothing else |
| `TurnOutcomes.RaisingChangesNothing` | apps/backend/conversation/service.py:182-202 | an exception, in the resolver or later, leaves the conversation as it was and answers with an error |
| `TurnOutcomes.PreCheckAnswers` | apps/backend/conversation/service.py:151-180 | before the lock a stranger is refused and a known turn is told its stored result or to wait; only a new one goes on |
| `TurnOutcomes.ReCheckAnswers` | apps/backend/conversation/service.py:163-180 | under the lock the same is asked again, and only a turn that is still new is begun |
| `TurnOutcomes.LockAnswers` | apps/backend/conversation/service.py:151-180 | once the lock is given back the client has its response; a request that never got the lock is told to come again |
| `TurnOpening.BeginOpens` | apps/backend/persistence/repository.py:241-317 | a begun turn is the next one, has its user message, the unexpired focuses, the open question and the recent messages |
| `TurnOpening.RecentIs` | apps/backend/persistence/repository.py:540-579 | the recent messages are the end of the history of finished turns, oldest first, as long as it may be: at most six messages, and within 4000 characters unless it is one message |
| `TurnProtocol.FinishStep` | apps/backend/conversation/service.py:288-372 | the one finalize of a turn keeps the invariant and answers with the snapshot it has just persisted |
| `TurnProtocol.BeginStep` | apps/backend/persistence/repository.py:241-317 | beginning under the lock creates the only turn of its client id and reads the context that finalize will still find |
| `AdvisoryLock.AcquireWithDeadline` | apps/backend/persistence/lock.py:49-66 | the lock is acquired iff some try succeeds whose predecessors failed before the deadline; at least one try, none after the deadline has passed |
| `ConversationInvariant.BeginKeepsSound` | apps/backend/persistence/repository.py:241-317 | begin succeeds exactly for the owner, appends one PROCESSING turn numbered next, and keeps the conversation sound |
| `ConversationInvariant.ClarificationKeepsSound` | apps/backend/persistence/repository.py:319-374 | storing a clarification of valid candidates succeeds and keeps the conversation sound |
| `ConversationInvariant.GroundedAnswerKeepsSound` | apps/backend/persistence/repository.py:376-446 | an answer clears the clarification, updates the focuses only if it completed, and keeps the conversation sound |
| `ConversationInvariant.FailureKeepsSound` | apps/backend/persistence/repository.py:448-464 | a failure finishes the turn without a message and leaves an open clarification in place |
| `ConversationInvariant.PendingLoads` | apps/backend/persistence/repository.py:622-638 | the stored clarification of a sound conversation always loads, and loads what was stored |
| `ConversationInvariant.LoadedFocusesAreRecent` | apps/backend/persistence/repository.py:581-620 | every focus handed to the resolver was grounded by a COMPLETED turn at most five user turns back |
| `Conversation.ReplyFollowsQuestion` | apps/backend/persistence/repository.py:207-211 | in the expected transcript the message after an answered turn's user message is that turn's reply |
| `Conversation.PendingPointsToLastQuestion` | apps/backend/persistence/repository.py:319-374 | a stored clarification belongs to a turn that asked one, and no later turn was answered |
| `Conversation.AffordableIsLongestRun` | apps/backend/persistence/repository.py:540-579 | the recent context is the longest run of newest messages within the character budget, but always at least one |
| `LockedTurn.Tables.FindTurnByClientId` | apps/backend/persistence/repository.py:228-239 | finds the turn with that client id or reports none |
| `LockedTurn.Tables.BeginTurnAndLoadContext` | apps/backend/persistence/repository.py:241-317 | the begin transaction as updates in place, rolled back on error |
| `LockedTurn.Tables.LoadRecentMessages` | apps/backend/persistence/repository.py:540-579 | the loop that accumulates recent messages computes the longest affordable run, oldest first |
| `LockedTurn.Tables.PersistClarificationTurn` | apps/backend/persistence/repository.py:319-374 | the clarification transaction as updates in place; invalid candidates change nothing |
| `LockedTurn.Tables.PersistGroundedAnswerTurn` | apps/backend/persistence/repository.py:376-446 | the answer transaction as updates in place |
| `LockedTurn.Tables.MarkFailed` | apps/backend/persistence/repository.py:448-464 | the failure transaction as an update in place |
| `LockedTurn.Tables.UpsertFocuses` | apps/backend/persistence/repository.py:476-513 | the upsert loop overrides focuses one by one |
| `LockedTurn.Tables.LoadFocuses` | apps/backend/persistence/repository.py:581-620 | afterwards the table holds exactly the rows that have not expired, and the result is the first of them in order; of at most five keyed rows none is cut off, and the kept rows stay keyed |
| `Focuses.UpsertOverrides` | apps/backend/persistence/repository.py:476-513 | a row is in the table after the upserts iff it is the last upsert for its node, or an old row of an untouched node |
| `Focuses.PruneKeepsTopFive` | apps/backend/persistence/repository.py:515-526 | pruning keeps exactly the five rows that precede all others by turn, citation order and node id |
| `Focuses.CommitKeepsTopFive` | apps/backend/persistence/repository.py:433-435 | an answer leaves the top five of the old rows overridden by its upserts |
| `Focuses.LoadIsExact` | apps/backend/persistence/repository.py:581-620 | the load returns exactly the unexpired rows, in order: its LIMIT never drops one |
| `Clarification.CandidateRoundTrip` | apps/backend/persistence/domain.py:74-116 | a candidate survives writing and reading iff its id and label are visible and its optional fields are trimmed and not empty |
| `Clarification.ReadCandidateIsNormal` | apps/backend/persistence/domain.py:88-116 | whatever is read back is trimmed, so that it survives the next write |
| `Clarification.ValidateCandidates` | apps/backend/persistence/domain.py:119-140 | accepts a list iff it has at most five candidates with distinct ids |
| `Clarification.ListRoundTrip` | apps/backend/persistence/domain.py:142-155 | a valid list of such candidates survives storage |
| `Clarification.ReadListIsNormal` | apps/backend/persistence/domain.py:148-155 | a list that reads back is valid and its candidates are trimmed |
| `Clarification.MatchSelect` | apps/backend/resolution/clarification.py:51-64 | by ordinal when the reply is a number, otherwise the first candidate with that label, with the digits and values of the Unicode database |
| `Clarification.MatchRaisesExactly` | apps/backend/resolution/clarification.py:51-64 | matching raises iff the reply is a digit string with a character that has no decimal value |
| `Clarification.SuperscriptRaises` | apps/backend/resolution/clarification.py:51-64 | for every Unicode database that knows the superscript two, matching it raises whatever was offered, and it is no cancel |
| `Clarification.OrdinalReplyPicks` | apps/backend/resolution/clarification.py:51-64 | a reply that is the numeral i picks the i-th candidate, whatever the labels are |
| `Clarification.LabelReplyPicks` | apps/backend/resolution/clarification.py:51-64 | a reply that is no digit string picks the first candidate whose label equals it after stripping and case folding, or none |
| `Clarification.NumberOutOfRange` | apps/backend/resolution/clarification.py:51-64 | a number that is no ordinal of the list picks nothing, whatever the labels are |
| `Clarification.MatchIsOffered` | apps/backend/resolution/clarification.py:51-64 | a match is one of the offered candidates |
| `Resolver.ResolveExplicit` | apps/backend/resolution/resolver.py:144-197 | the collecting loops compute one unit per node id, then one per document number, and branch on how many are left |
| `Resolver.ExplicitUnitsCover` | apps/backend/resolution/resolver.py:144-197 | every unit found shares its node id with a collected one, which is offered itself or by one with the same document number |
| `Resolver.ResolveOffersStorable` | apps/backend/resolution/resolver.py:88-253 | whatever the resolver asks the user to choose from passes validation and survives storage |
| `Resolver.CandidateRecoversUnit` | apps/backend/resolution/models.py:101-168 | converting a unit to a candidate and back gives the unit |
| `Resolver.SelectionRoundTrip` | apps/backend/resolution/resolver.py:96-110 | offered, stored, loaded and answered with the numeral i, a clarification resolves to the i-th offered unit with its method, goal and original message |
| `ResolverOutcomes.ExplicitComesTo` | apps/backend/resolution/resolver.py:144-197 | explicit references resolve to the one unit found with its document number, ask for a choice among two to five, or ask for a new wording, with the question and the candidates in the order found |
| `ResolverOutcomes.AnaphoraComesTo` | apps/backend/resolution/resolver.py:199-253 | an anaphora is resolved among the focuses of the expected kind, in their order: one is taken, several are offered, none asks for a new wording |
| `ResolverOutcomes.OtherOutcomes` | apps/backend/resolution/resolver.py:76-142 | a message without references stands alone; a cancel, a choice and an invalid reply to an open selection come to what they say |
| `Compaction.Deduplicate` | src/generation/evidence_compaction.py:118-153 | the loop with its dictionary of keepers computes the retained candidates and the omissions |
| `Compaction.SplitPartitions` | src/generation/evidence_compaction.py:118-153 | retained and dropped candidates together are the candidates, with multiplicity |
| `Compaction.DroppedNameKeepers` | src/generation/evidence_compaction.py:118-153 | each omission names a retained candidate with the same key that comes no later by rank and id |
| `Compaction.RetainedAreDistinct` | src/generation/evidence_compaction.py:118-153 | protected candidates always stay, and no two unprotected ones that stay have the same content |
| `Compaction.SecondPassDropsNothing` | src/generation/evidence_compaction.py:118-153 | a second pass over what was retained omits nothing |
| `Compaction.NormalizedNamesRetained` | src/generation/evidence_compaction.py:381-408 | the normalised composition plan names only retained units, without repeats |
| `Compaction.ResolvePathBundles` | src/generation/evidence_compaction.py:304-337 | the loop over authoritative paths yields one bundle set per fully cited path that qualifies |
| `Compaction.ResolveOperandBundles` | src/generation/evidence_compaction.py:275-302 | the loop over the operands against its specification, which `RequiredEvidence.OperandBundlesAre` reads off the evidence |
| `RequiredEvidence.OperandBundlesAre` | src/generation/evidence_compaction.py:275-302 | one set with one bundle per operand, on the first of its evidence ids that names an eligible unit; no set iff some operand has no such id |
| `Compaction.ResolveComparisonBundles` | src/generation/evidence_compaction.py:223-273 | one set per version family with two documents, then one per amending path with two known units |
| `ComparisonEvidence.ComparisonBundlesAre` | src/generation/evidence_compaction.py:223-273 | the family sets in order of family id, each with one bundle per document on its best-ranked units, then for each path with an AMENDS or REPLACES edge and two known cited units one set of those units and the path |
| `Compaction.Compact` | src/generation/evidence_compaction.py:43-97 | puts the stages together into the compaction plan |
| `CompactedPlan.PlanIsRight` | src/generation/evidence_compaction.py:43-97 | the whole plan: its paths, its candidates by rank without uncited duplicates, each omission with its kept unit and reason, the normalised composition, and the required sets of the question |
| `Projection.ProjectEvidence` | src/generation/context_projection.py:53-182 | the whole projection with its rejections, against its specification |
| `Projection.ChoiceIsFirstAffordable` | src/generation/context_projection.py:82-129 | projection succeeds iff some required set is affordable, and the chosen one is first in sort order among those |
| `Projection.UsedIsExact` | src/generation/context_projection.py:131-164 | used is the size of the selected units and chosen paths and at most the budget, so overhead, reserve and evidence fit the context |
| `Projection.OmittedForSize` | src/generation/context_projection.py:137-156 | each candidate is selected or left out for size, exactly one of the two and once, and none left out would fit even at the end |
| `Projection.PackingIsTight` | src/generation/context_projection.py:131-181 | the same of a projection, and `truncated` says exactly whether a candidate was left out |
| `ProjectedChoice.RefusedExactly` | src/generation/context_projection.py:53-129 | no projection is made iff the request or the budget is out of bounds, nothing is required, or no required set fits, each with its own refusal |
| `ProjectedChoice.ProjectedExactly` | src/generation/context_projection.py:82-182 | the set chosen fits and is preferred, by rank, size and identifiers, to every other that fits; then each other candidate in order of rank is taken iff it fits beside all taken before it; the fields of the projection are those of what was taken |
| `ProjectedValidation.CompactedSetsHaveShape` | src/generation/evidence_compaction.py:155-273 | every required set of a compacted plan has the shape its intent, goal or composition calls for |
| `ProjectionAgreement.CompactedPlanIsBuildable` | src/generation/context_projection.py:76-99 | projection never meets an unknown unit or path or an empty set in a compacted plan |
| `ProjectionAgreement.AcceptedExactly` | src/generation/projected_validation.py:12-91 | what was compacted and projected is accepted iff: no composition for hierarchy, multi-hop, validity and comparison; a CONTAINS edge for hierarchy goals; no goal for validity and comparison; a set of several bundles for comparison; always for factual and definition |
| `ProjectedRecheck.EvaluatesExactly` | src/generation/projected_validation.py:12-91 | for every context and plan, composed by hand or not: the verdict of the re-check, in the order of its checks |
| `ComparisonExample.AmendmentComparisonIsRejected` | src/generation/projected_validation.py:12-91 | an amending and an amended document without families and the path between them, in every large enough context: sufficient, valid, ready, and rejected as incomplete versions |
| `ComparisonExample.AmendmentReachesCompaction` | src/generation/evidence_validation.py:57-165 | that evidence passes the sufficiency policy for comparisons and the evidence validator |
| `ProjectionAgreement.SeveralBundlesAreAFamily` | src/generation/evidence_compaction.py:223-273 | in a comparison a set has several bundles iff it is a version family |
| `ProjectionAgreement.ProjectionIsWellFormed` | src/generation/models.py:330-353 | a projected context of a compacted plan meets every consistency rule of its own constructor |
| `ProjectionAgreement.EveryCandidateIsAccountedFor` | src/generation/context_projection.py:131-156 | every candidate compaction started from is selected, left out for size, or dropped as a duplicate of a retained one, exactly one of the three |
| `ProjectionAgreement.OmissionsAreDuplicates` | src/generation/evidence_compaction.py:118-153 | each omission of a compacted plan names a retained unit that is itself never omitted, and its own unit is not retained |
| `Rendering.Render` | src/generation/renderer.py:16-39 | the loops over answer, sections and caveats produce the specified blocks, whose text `ReadableAnswer.AnswerIsReadable` reads back |
| `Rendering.ScanEscaped` | src/generation/renderer.py:62-64 | escaped text contributes no citation, whatever it contains and whatever follows it |
| `Rendering.AnswerReadsBack` | src/generation/renderer.py:16-64 | the unescaped bracket groups of the rendered answer are the citation ordinals, statement by statement |
| `ReadableAnswer.AnswerIsReadable` | src/generation/renderer.py:16-64 | a reader of the Markdown sees exactly the stripped statements with their citation numbers, the section headings and the heading of the caveats, in order, and no formatting but that of the headings |
| `Rendering.NumberedWhenCited` | src/generation/renderer.py:51-60 | rendering never meets a citation without an ordinal when every cited id has one |
| `Grounding.CollectCitations` | src/generation/grounding.py:60-83 | the citation loops compute the order of first use and the quotes, or the first error |
| `Grounding.StatementsPass` | src/generation/grounding.py:64-83 | the citation check passes iff every statement has text and every citation quotes a known unit |
| `Grounding.StatementsChecked` | src/generation/grounding.py:64-83 | a passed check has collected the distinct cited ids in order of first use, each with a verified quote |
| `Grounding.CollectPaths` | src/generation/grounding.py:85-122 | the path loop selects the linked allowed paths or reports the first that is unknown or misses the goal |
| `Grounding.TemporalChecked` | src/generation/grounding.py:124-155 | linked and declared assertions coincide, and each one agrees with the interval of its subject on the query date |
| `Grounding.ValidateAndRender` | src/generation/grounding.py:30-193 | the whole validation with its errors in order, against its specification |
| `Grounding.SupportedAnswer` | src/generation/grounding.py:60-193 | citations are distinct, in first-use order, inside the projection and quoted; the numbers in the text name the cited units in order; paths and temporal claims hold |
| `ValidatedAnswer.ValidatesExactly` | src/generation/grounding.py:30-193 | for every candidate the exact outcome: a refusal is passed on, otherwise the first fault in the order of the checks, or a response with the citations in order of first use, their units and quotes, the selected paths and the text |
| `AnswerService.GenerateAnswer` | src/generation/service.py:75-177 | the sequence of gates, provider call and repair, against its specification |
| `AnswerService.GenerationIsGrounded` | src/generation/service.py:75-177 | at most two provider calls, one iff every gate passed, a second only after a grounding error; an answer is grounded in the projection |
| `AnswerService.AskedAtMostTwice` | src/generation/service.py:128-177 | the repair is made iff the first candidate failed grounding, and carries that error |
| `AnswerService.RepliesDecide` | src/generation/service.py:128-177 | what each pair of replies comes to: answer, error, or after one repair a refusal if the provider fails in one of the three known ways |
| `AnswerService.GatesDecide` | src/generation/service.py:75-127 | what ends a generation before the provider is asked, in order |
| `AnswerService.ReachedExactly` | src/generation/service.py:113-129 | once a projection exists the provider is asked iff the chosen set is acceptable for the request |
| `RunnerSafety.PermitsConserved` | apps/backend/services/retrieval_runner.py:43-134 | free permits, permits of woken waiters and tracked calls always sum to the maximum, so no more threads than that run |
| `RunnerSafety.EachCallSettlesOnce` | apps/backend/services/retrieval_runner.py:97-125 | each accepted call gives its permit back exactly once, when its thread has finished or its queued call was cancelled, whatever its caller did |
| `RunnerSafety.NothingSubmittedAfterClose` | apps/backend/services/retrieval_runner.py:46-51 | once closing has started no call is submitted |
| `RunnerSafety.NothingQueuedAfterClose` | apps/backend/services/retrieval_runner.py:72-78 | while closing no call is left for a thread to pick up |
| `RunnerSafety.FuturesTellHistory` | apps/backend/services/retrieval_runner.py:105-130 | a call was run by a thread iff its future says so; a cancelled one never was |
| `RunnerSafety.OutcomesAreTrue` | apps/backend/services/retrieval_runner.py:43-70 | a caller is given a result only if its thread finished with it, and is refused only if no thread ran its call |
| `RunnerSafety.InterruptionsAreTrue` | apps/backend/services/retrieval_runner.py:60-70 | a caller is timed out only if its deadline passed or its call raised a TimeoutError of its own, and cancelled only if it was or no thread ever ran its call |
| `RunnerSafety.StuckOnlyWhenIdle` | apps/backend/services/retrieval_runner.py:43-134 | no wake-up is lost: some waiter, thread or monitor can move until no call waits, none is tracked and all permits are free |
| `RunnerFairness.FirstComeFirstServed` | apps/backend/services/retrieval_runner.py:43-60 | in every state of every run, while a call waits for a permit no call that came later has been given one |
| `RunnerSteps.ArrivalIs` | apps/backend/services/retrieval_runner.py:43-60 | a new call queues behind others or for want of a permit; otherwise it is submitted, refused as closing, or refused by the executor, in that order |
| `RunnerSteps.GrantedResumes` | apps/backend/services/retrieval_runner.py:43-60 | a woken waiter passes free permits on to the front of the queue, and is submitted or turned away with its own permit handed to the first in the queue |
| `RunnerSteps.CancelledResumes` | apps/backend/services/retrieval_runner.py:43-70 | a waiter that was cancelled returns for its reason, and a permit it had already been given goes on to the front of the queue |
| `RunnerSteps.InterruptionIs` | apps/backend/services/retrieval_runner.py:60-70 | a deadline or cancellation reaches the waiter, with or without a permit, or the caller that awaits its result |
| `RunnerSteps.DeliveryIs` | apps/backend/services/retrieval_runner.py:60-70 | a caller returns with its interruption, cancelling a call that no thread has begun, or with what its call came to |
| `RunnerSteps.MonitorIs` | apps/backend/services/retrieval_runner.py:97-125 | the end of a monitor settles its call, untracks it and gives one permit to the first waiter, or frees it |
| `RunnerSteps.ClosingIs` | apps/backend/services/retrieval_runner.py:72-78 | closing stops acceptance, cancels exactly the tracked calls that no thread has begun, and changes nothing else |
| `RunnerSafety.StepKeepsInv` | apps/backend/services/retrieval_runner.py:43-134 | every event-loop step keeps permits, tracked calls, parked callers and outcomes consistent |
| `RetrievalRunner.BoundedRetrievalRunner.Run` | apps/backend/services/retrieval_runner.py:43-63 | `run` up to its first await: queue for a permit, or submit and track |
| `RetrievalRunner.BoundedRetrievalRunner.RunOn` | apps/backend/services/retrieval_runner.py:43-70 | a resumed waiter goes on, or hands its permit on when it was cancelled |
| `RetrievalRunner.BoundedRetrievalRunner.Submit` | apps/backend/services/retrieval_runner.py:46-60 | with a permit in hand: refuse when closing, release when the executor rejects, otherwise track |
| `RetrievalRunner.BoundedRetrievalRunner.ReturnTo` | apps/backend/services/retrieval_runner.py:60-70 | an awaiting caller gets its result, a TimeoutError of the call itself as a timeout, or its queued call is cancelled on timeout or cancellation |
| `RetrievalRunner.BoundedRetrievalRunner.FinishMonitor` | apps/backend/services/retrieval_runner.py:105-125 | the monitor's end untracks the call and releases its permit |
| `RetrievalRunner.BoundedRetrievalRunner.BeginClose` | apps/backend/services/retrieval_runner.py:72-78 | closing stops acceptance and cancels every queued tracked call; a second close changes nothing |
| `RetrievalRunner.BoundedRetrievalRunner.EndClose` | apps/backend/services/retrieval_runner.py:80-91 | the end of closing drops what is queued and reports the unfinished calls |
| `Hierarchy.SectionHierarchyReconciler.SectionArticleMappings` | src/infrastructure/neo4j/hierarchy_reconciler.py:92-140 | the loops over the payload compute the Section mappings or the first ambiguous parent |
| `Hierarchy.SectionHierarchyReconciler.PartChapterMappings` | src/infrastructure/neo4j/hierarchy_reconciler.py:143-171 | the same for Parts |
| `Hierarchy.SectionHierarchyReconciler.SubsectionArticleMappings` | src/infrastructure/neo4j/hierarchy_reconciler.py:174-206 | the same for Subsections |
| `Hierarchy.SectionHierarchyReconciler.ReconcileMappings` | src/infrastructure/neo4j/hierarchy_reconciler.py:71-89 | one query: if any chain is missing nothing is deleted, otherwise all shortcuts of the mappings are |
| `Hierarchy.SectionHierarchyReconciler.Run` | src/infrastructure/neo4j/hierarchy_reconciler.py:31-69 | the three groups in turn on the stored edges, with their counts and errors |
| `HierarchySafety.ReachabilityKept` | src/infrastructure/neo4j/hierarchy_reconciler.py:31-312 | reconciliation never changes CONTAINS reachability between any two nodes, wherever it fails |
| `HierarchySafety.ExactEffect` | src/infrastructure/neo4j/hierarchy_reconciler.py:46-61 | read off the original graph: a group deletes its shortcuts iff its chains and those of earlier groups were all present; success iff all were |
| `HierarchySafety.SuccessLeavesNoShortcut` | src/infrastructure/neo4j/hierarchy_reconciler.py:213-312 | after success no mapped shortcut edge is left |
| `HierarchySafety.CountBoundsDeleted` | src/infrastructure/neo4j/hierarchy_reconciler.py:229-242 | the reported number is at least the number of deleted edges, and equal when no two mappings share top and bottom |
| `HierarchyReport.ReconciliationIs` | src/infrastructure/neo4j/hierarchy_reconciler.py:31-206 | a payload with a missing or ambiguous parent is refused, naming the first such node; otherwise the mappings are the payload's own rows, each group deletes the edges that skip its middles iff its chains and those before are stored, and the report counts rows per group and pairs of a row and an edge |
| `HierarchySafety.SectionMappingsAre` | src/infrastructure/neo4j/hierarchy_reconciler.py:92-140 | Section mappings are exactly the Chapter, Section, Article triples whose article is in the Section directly or under a Subsection |
| `HierarchySafety.ParentedMappingsAre` | src/infrastructure/neo4j/hierarchy_reconciler.py:143-206 | Part and Subsection mappings are exactly the chains of the payload |
| `HierarchySafety.RunAgain` | src/infrastructure/neo4j/hierarchy_reconciler.py:31-69 | a second run changes nothing, and succeeds iff no Subsection article lies in a Section with a Chapter |
| `HierarchySafety.RunSucceeds` | src/infrastructure/neo4j/hierarchy_reconciler.py:31-69 | on any graph that holds an unambiguous payload a run succeeds iff such articles are stored directly in their Section as well; otherwise it reports the Section group and changes nothing |
| `HierarchySafety.FreshRunSucceeds` | src/infrastructure/neo4j/hierarchy_reconciler.py:31-69 | on a graph that holds just the payload the run succeeds iff such articles are also direct children of their Section |
| `HierarchyPayload.MappingsOkExactly` | src/shared/ontology/payload_consistency_validator.py:249-298 | of a payload with one parent per structural node the mappings can be built iff every Part with a Chapter is in a Document |
| `HierarchyPayload.WrittenRunSucceeds` | src/infrastructure/neo4j/writer.py:104-113 | after a consistent payload has been written the run succeeds iff its Parts with Chapters are in Documents and the flat edges of nested articles are still stored; the errors otherwise |
| `HierarchyPayload.FirstIngestionSucceeds` | src/infrastructure/neo4j/writer.py:104-113 | the first ingestion of a consistent payload reconciles iff its Parts with Chapters are in Documents and no article under a Subsection lies in a Section with a Chapter |
| `HierarchyExample.FreshRunFails` | src/infrastructure/neo4j/hierarchy_reconciler.py:31-69 | a consistent payload with an Article under a Subsection of a Section with a Chapter: its first ingestion fails on the Section group and changes nothing |
| `HierarchyExample.SecondRunFails` | src/infrastructure/neo4j/hierarchy_reconciler.py:31-69 | the same payload where the flat edges of an earlier ingestion are still stored: the first run succeeds, the second fails on the Section group |
| `HierarchyExample.InstrumentFails` | src/infrastructure/neo4j/hierarchy_reconciler.py:31-69 | a consistent payload with a Chapter in a Part of an attached instrument fails on every graph |
| `Embedding.ReachesArticle` | src/infrastructure/embedding/embedding_generator.py:98-112 | the stack search ends on any graph, cycles included, and finds an Article iff one is reachable by one or more CONTAINS edges |
| `Embedding.EmbeddingTargets` | src/infrastructure/embedding/embedding_generator.py:87-121 | exactly the Articles, the Clauses and the Appendices with no Article below them, in order |
| `Embedding.EmbeddingTexts` | src/infrastructure/embedding/embedding_generator.py:125-151 | the map has exactly the ids of targets, each with the text of the last target of that id: an Article its title and raw content, an Appendix its heading, title and raw content, a Clause its own line below the header of the Article that the last relation puts it in |
| `Embedding.ClauseUnderTitle` | src/infrastructure/embedding/embedding_generator.py:172-185 | a Clause in an Article with a title is embedded as "Điều n. title", a line break, and "Khoản m. content", with the numbers left out when there are none and raw content before plain |
| `DocumentTree.ChooseParents` | apps/backend/services/document_browser_service.py:152-160 | the edge loop computes the chosen parent of every unit and the order of first appearance |
| `DocumentTree.ParentIsBest` | apps/backend/services/document_browser_service.py:153-161 | the chosen parent has the highest rank among the edges into a unit and comes first among those of that rank; `DetailContents.ParentIs` says the same by the kinds of the units |
| `DetailContents.ParentIs` | apps/backend/services/document_browser_service.py:360-373 | a unit's parent is the source of the first edge into it from an innermost container, in the order Clause, Article, Subsection, Section, Chapter, Part, Appendix, document, and anything else last |
| `DetailContents.DetailShows` | apps/backend/services/document_browser_service.py:166-441 | a detail shows, list by list and by number within a list, the details of exactly the units whose parent it is and for whose kind it has a list |
| `DetailContents.DocumentShows` | apps/backend/services/document_browser_service.py:238-254 | the document's own lists, and all appendices by number |
| `DetailContents.ArticleOfSection` | apps/backend/services/document_browser_service.py:150-161 | an Article held by a Section, and by nothing further in, is shown in that Section and in no other detail, whatever Chapter, Part, Appendix or document holds it too |
| `DocumentTree.CollectChildren` | apps/backend/services/document_browser_service.py:161-163 | the children lists are those of the chosen parents, in order |
| `DocumentTree.BuildCounts` | apps/backend/services/document_browser_service.py:165-246 | a detail lists exactly the units whose chain of listed links leads to it, each once |
| `DocumentTree.EachUnitOnce` | apps/backend/services/document_browser_service.py:149-254 | a unit appears in the document detail once if every link up its chain has a list, and otherwise not at all |
| `DocumentTree.NothingLost` | apps/backend/services/document_browser_service.py:149-254 | when every chosen link has a list, the detail holds exactly the units of the document, each once |
| `CrawlJobs.JobStore.CreateBundle` | experiments/luatvietnam_crawler/jobs.py:42-147 | writes one record per item in order, stops at the first bad one with its first error in the order of the checks, and replaces the manifest only on success |
| `CrawlJobs.JobStore.SummarizeBundle` | experiments/luatvietnam_crawler/jobs.py:160-209 | the counting loop computes counts, next job, first unfinished job and completeness |
| `CrawlJobs.JobStore.ClaimNext` | experiments/luatvietnam_crawler/jobs.py:220-252 | the search loops claim one job, with its new record |
| `CrawlJobs.JobStore.UpdateStatus` | experiments/luatvietnam_crawler/jobs.py:285-339 | the new record of an update, or the error for an unsafe or unknown id |
| `CrawlJobs.JobStore.RequeueStale` | experiments/luatvietnam_crawler/jobs.py:388-471 | lists stale completed jobs and, when applying, resets exactly those |
| `CrawlJobs.JobStore.MigrateUnavailable` | experiments/luatvietnam_crawler/jobs.py:474-530 | reclassifies legacy failures and normalises their records |
| `CrawlJobs.OpKeepsGood` | experiments/luatvietnam_crawler/jobs.py:220-530 | every operation keeps: completed_at iff terminal success, started_at only with attempts, no attempt forgotten, manifest unchanged |
| `CrawlJobs.SummaryIsExact` | experiments/luatvietnam_crawler/jobs.py:167-207 | counts sum to the job count, and complete means that every job succeeded for good |
| `JobOutcomes.SummaryReports` | experiments/luatvietnam_crawler/jobs.py:160-209 | every status is counted, the next, first unfinished and first running job are the first by rank of the first status that has one, and complete means all succeeded |
| `CrawlJobs.ClaimTakesTheFirst` | experiments/luatvietnam_crawler/jobs.py:220-252 | a claim succeeds iff some job is on offer, takes the first by status and rank, and unrestricted it takes the summary's next job |
| `JobOutcomes.ClaimStarts` | experiments/luatvietnam_crawler/jobs.py:220-252 | a claim takes the first pending, or else retryable, job by rank and starts it on one more attempt, leaving its artifacts and all other records alone |
| `JobOutcomes.UpdateWrites` | experiments/luatvietnam_crawler/jobs.py:285-339 | an update refuses an unsafe id, then an unknown one; otherwise it writes status, error, completion, start, attempts and the artifacts that were given, and nothing else |
| `CrawlJobs.RequeueThenNothing` | experiments/luatvietnam_crawler/jobs.py:388-471 | after requeueing, inspection finds nothing |
| `JobOutcomes.RequeueResets` | experiments/luatvietnam_crawler/jobs.py:388-471 | a requeue lists by rank exactly the completed jobs of another serializer version or without their raw page, and resets exactly those, field by field |
| `CrawlJobs.MigrateTwice` | experiments/luatvietnam_crawler/jobs.py:474-530 | migrating a second time changes and reports nothing |
| `JobOutcomes.MigrationWrites` | experiments/luatvietnam_crawler/jobs.py:474-530 | a migration reclassifies the failures that name the old error, brings unavailable jobs into the current form, and lists both in manifest order |
| `CrawlJobs.CreateAgain` | experiments/luatvietnam_crawler/jobs.py:342-385 | creating again from the same discovery after any history of operations changes nothing |
| `JobOutcomes.CreationWrites` | experiments/luatvietnam_crawler/jobs.py:42-147 | creation writes the items up to the first at fault, reports its first fault in the order of the checks, and writes the manifest by rank only when none is |
| `CrawlJobs.CreatedIsGood` | experiments/luatvietnam_crawler/jobs.py:42-147 | a created bundle is well formed and its records are consistent |
| `CrawlWorker.CrawlBundle` | experiments/luatvietnam_crawler/crawler.py:47-273 | the worker loop with its limits and raises, against its specification |
| `CrawlWorker.RecordAttempt` | experiments/luatvietnam_crawler/crawler.py:104-244 | the status, artifacts and list each outcome of an attempt leads to; for an id the store refuses to update, the error that escapes the handler |
| `WorkerOutcomes.PassIs` | experiments/luatvietnam_crawler/crawler.py:79-244 | a pass takes the first claimable job not tried in this run; for each outcome the record and the list it ends up in, field by field |
| `WorkerOutcomes.CrawlRuns` | experiments/luatvietnam_crawler/crawler.py:59-255 | a run makes passes until max_jobs is reached, an exception escapes, the failures reach their limit or nothing is left to claim, and no later |
| `CrawlWorkerSafety.ReportIsExact` | experiments/luatvietnam_crawler/crawler.py:62-255 | the five lists are disjoint, together the claimed jobs but for one whose attempt raised, at most max_jobs, and match the persisted statuses |
| `CrawlWorkerSafety.SeriesDrains` | experiments/luatvietnam_crawler/crawler.py:79-244 | from a fresh bundle, runs without a page block claim at most job_count * max_attempts times, and after that many runs nothing is claimable |
| `CrawlWorkerSafety.SeriesDrainsExactly` | experiments/luatvietnam_crawler/crawler.py:79-244 | from a fresh bundle, job_count * max_attempts or more runs that meet the same pages leave nothing claimable iff no referenced job meets a page block |
| `CrawlWorkerSafety.BlockLeavesClaimable` | experiments/luatvietnam_crawler/crawler.py:204-218 | a claimable job whose page blocks is still claimable after the run, whatever its attempts and whatever becomes of the other jobs, and if it was claimed the run ended with it |
| `SearchDiscovery.CollectSearchResults` | experiments/luatvietnam_crawler/crawler.py:505-577 | the page and entry loops with their limits and early ends, against their specification |
| `SearchDiscovery.CollectedIsExact` | experiments/luatvietnam_crawler/crawler.py:532-570 | the collection is exactly the distinct URLs of the visited pages in order of first occurrence, cut off at the document limit |
| `SearchDiscovery.OccurrencesCounted` | experiments/luatvietnam_crawler/crawler.py:543-563 | every URL is on the page recorded for it, every duplicate was found no later, and without a limit found and duplicates together count every occurrence |
| `SearchReading.CollectionIs` | experiments/luatvietnam_crawler/crawler.py:499-577 | which pages are read: the planned number, the least of the bounds, unless a page brings nothing new or enough, or says that it is another one; first results are found with their pages, the others are duplicates that name the page of the first, in reading order |
| `CrawlWorkerSafety.CreatedIsFresh` | experiments/luatvietnam_crawler/jobs.py:364-385 | the first creation gives the worker a fresh bundle with safe ids |
| `RequestSafety.RequestSafetyPolicy.BeforeNext` | experiments/luatvietnam_crawler/safety.py:87-114 | the checks in order, and the new state when a request is let through; a refusal changes nothing |
| `RequestSafety.RequestSafetyPolicy.BlockUntil` | experiments/luatvietnam_crawler/safety.py:116-126 | the new state after a block |
| `RequestSafety.AskingIs` | experiments/luatvietnam_crawler/safety.py:87-114 | a request is refused while a cooldown lasts, then for the budget of the run, then for that of the day, and otherwise charged to today and stamped with now or with the end of its pause |
| `RequestSafety.BlockingIs` | experiments/luatvietnam_crawler/safety.py:116-126 | a block lasts to the latest of the configured end, the end the site asks for and the end already stored |
| `RequestSafety.RequestsArePaced` | experiments/luatvietnam_crawler/safety.py:87-114 | over every run requests are at least min_delay apart, the counter stays within the budget, and at most budget + 1 are stamped on a UTC day |
| `RequestSafety.NoRequestDuringCooldown` | experiments/luatvietnam_crawler/safety.py:116-126 | once a block has set a cooldown, its end never moves back and no later request falls before it |
| `RequestSafety.CooldownHolds` | experiments/luatvietnam_crawler/safety.py:175-183 | the same of one step, and a block lasts at least the configured cooldown |
| `RequestSafety.BudgetPlusOne` | experiments/luatvietnam_crawler/safety.py:87-114 | a run, under a configuration the constructor accepts, in which one request more than the budget is stamped on one day |
| `RequestSafety.BudgetHoldsExactly` | experiments/luatvietnam_crawler/safety.py:87-114 | at most the budget is stamped on a UTC day iff not: its counter is used up, a pause begun on an earlier day ended on it, and none of its own requests was carried over |
| `RequestSafety.BudgetHoldsWithinDays` | experiments/luatvietnam_crawler/safety.py:87-114 | the budget holds on every UTC day of a run in which no pause before an accepted request crosses midnight |
| `ReferenceTokens.Substitute` | experiments/luatvietnam_crawler/parser.py:670-699 | the find-and-replace loop with its recorded offsets, or the token that was lost |
| `ReferenceTokens.SubstitutionIsExact` | experiments/luatvietnam_crawler/parser.py:670-699 | the final text is the simultaneous substitution of all tokens, and each recorded span covers its marker there, in order and disjoint |
| `ReferenceTokens.SubstitutionIsDecided` | experiments/luatvietnam_crawler/parser.py:670-699 | with some tokens missing from the text the loop fails and names the first of them; with none missing it substitutes them all |
| `ReferenceTokens.TokenIsToken` | experiments/luatvietnam_crawler/parser.py:614 | a generated token starts with its only L and has no white space |
| `ReferenceTokens.TokensAreApart` | experiments/luatvietnam_crawler/parser.py:614 | generated tokens of different indices below 10^8 do not begin with one another, whatever their random parts are |
| `ContentRendering.RenderCarries` | experiments/luatvietnam_crawler/parser.py:702-723 | rendering the tree keeps every token intact and in document order, and changes the text between tokens at white space only |
| `ContentCleaning.CleaningCarries` | experiments/luatvietnam_crawler/parser.py:853-859 | splitting, collapsing, stripping, dropping noise lines and joining keep every token intact and in order, and trace the rest to a part of the source |
| `ContentRendering.RefsOfAllLeft` | experiments/luatvietnam_crawler/parser.py:608-668 | the references left in the tree are numbered in document order, and all of them are left iff none stands inside another or where nothing is rendered |
| `ContentTracing.PartIsFree` | experiments/luatvietnam_crawler/parser.py:670-699 | text that traces to a part of a source holds, with the markers in place, no token that the source does not hold |
| `ContentRendering.SerializationIsExact` | experiments/luatvietnam_crawler/parser.py:601-699 | for tokens not in the page's own text: a reference is lost iff a reference with text is hidden, and the first such is named; otherwise the text is the cleaned text with every token replaced, all offsets cover their markers, and it is the page's text but for white space and dropped lines |
| `ContentMarked.SerializedAsMarked` | experiments/luatvietnam_crawler/parser.py:601-699 | when no reference is hidden the serialized text is that of the page with every marker written in its place from the start, rendered and cleaned |
| `ContentMarked.RenderIs` | experiments/luatvietnam_crawler/parser.py:702-723 | rendering writes a line break for br and around block elements, a tab after a table cell, inline text as its words with single spaces between and at ends that had any, and other text as it is |
| `ContentMarked.MarkerIs` | experiments/luatvietnam_crawler/parser.py:608-613 | a marker is the words of the reference in document order with single spaces between, in brackets unless it has them; a reference without words leaves nothing |
| `ContentWords.CleanMultilineIs` | experiments/luatvietnam_crawler/parser.py:857-859 | cleaned content is the lines of the text, each cleaned, without blank lines and the two noise lines, one below the other |
| `ContentWords.CleanTextKeepsWords` | experiments/luatvietnam_crawler/parser.py:853-854 | cleaning keeps all words, in order, and no other white space than single spaces between them |
| `ContentSymbols.CleanedExpands` | experiments/luatvietnam_crawler/parser.py:670-699 | cleaning treats a token as it treats the marker that replaces it, and keeps every reference |
| `ContentRendering.NestedReferenceIsLost` | experiments/luatvietnam_crawler/parser.py:608-674 | a reference inside a reference: the inner one is lost |
| `ContentRendering.Serialize` | experiments/luatvietnam_crawler/parser.py:601-699 | render, clean and substitute, against the specification of the substitution |

## Left out

- TurnProtocol.StepKeepsInv: takes fresh turn ids as given (UUID version 4) and canonical lookups and citations (trimmed, non-empty ids and labels) as what the graph returns; `message_citations`, titles, and the resolution columns of a turn have no rows here.
- TurnProtocol.FinishStep: small talk, retrieval and generation inside a turn are one oracle for how they ended; the standalone query processor path is part of that oracle.
- ConversationInvariant.FailureKeepsSound: `clear_pending` exists in the repository but no branch calls it, so it is no event.
- Clarification.MatchSelect: case folding and the digits of the Unicode database are parameters.
- ProjectionAgreement.AcceptedExactly: bundle digests are taken as injective, path ids as fixing their edges, and each unit id as occurring once among validated candidates; case folding and serialized sizes are parameters.
- ProjectedChoice.ProjectedExactly: takes each unit id as occurring once among the candidates of the plan.
- Grounding.SupportedAnswer: Unicode normalisation and date formatting are parameters; confidence, provider names and query text of the response are not modelled.
- AnswerService.GenerateAnswer: the sufficiency policy and the evidence validator appear as their results, the provider as a function of the repair feedback; metrics and prompt text are not modelled.
- RunnerSafety.StepKeepsInv: asyncio's semaphore is modelled as in CPython 3.12; a caller is interrupted at most once, and a monitor task that is itself cancelled at loop teardown is not modelled; the wait for the shutdown grace is the time between the two closing steps; calls that raise CancelledError or StopIteration of their own are left out.
- Hierarchy.SectionHierarchyReconciler.Run: node labels and ids identify nodes; the token check on the payload and the empty query result, which the queries cannot return, are not modelled.
- HierarchyPayload.FirstIngestionSucceeds: of the consistency check, the order of article numbers in a Chapter with Sections, relation ids and reference bundles are left out, so the theorem covers more payloads than pass; the pairs it allows admit no cycle.
- DocumentTree.EachUnitOnce: a descendant with the document's own id is the document and counted as no unit; titles and contents of details are left out.
- DetailContents.DetailShows: how numbers are compared is a parameter, taken as total and transitive; the lists of a detail are one list in their order.
- CrawlWorker.CrawlBundle: one worker at a time; progress callbacks, which could raise inside the guarded block, are left out.
- CrawlJobs.JobStore.CreateBundle: malformed manifests and unreadable files are errors before any of these operations; page files, timestamps of creation and schema names are left out.
- RequestSafety.RequestsArePaced: times are whole microseconds; the clock is monotone and the sleeper sleeps at least as long as asked.
- ContentRendering.SerializationIsExact: takes as given that no token, which holds a random UUID, occurs in the page's own text with its markers; the loop that replaces references in the tree is a function of the page; link parsing, noise elements, the choice of the content element and conflicting source items are left out.
- SearchDiscovery.CollectSearchResults: pages are given as their parsed entries and page numbers; sleeping between pages has no effect here.
- Article and metadata parsing and the storage of documents in the crawler: parsing of foreign pages.
- Settings, routes, authentication, observability, prompt texts and the retrieval runtime: plumbing, or work done by a language model.
