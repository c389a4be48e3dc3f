# Verified model of the AutoApply back end

Dafny models of the six pieces of the back end whose correctness is not local, with proofs of
what they promise:

1. **Schema dialects.** JSON-Schema `$ref`s are inlined, then every object node is rewritten for
   Gemini or for strict OpenAI. The compiler is a pure function; its meaning is given by a
   denotation (`Accepts`) of the fragment type, enum, anyOf, items, properties, required,
   additionalProperties and `$ref` (JSON Schema draft-07, where a `$ref` overrides its siblings:
   core specification, section 8.3). `ReferenceGraphs`, `SchemaDialects`, `SchemaInlining`,
   `SchemaTermination`, `DialectSandwich`, `DialectForms`; `SchemaMeaning` spells the
   denotation out keyword by keyword.
2. **LLM router and circuit breaker.** The breaker row and its guarded updates
   (`CircuitBreaker`), requests one after another (`BreakerSequence`), any interleaving of
   requests at each repository call, each a transaction of one or more router calls that commits,
   rolls back, or goes back to a savepoint (`BreakerHistory`, `BreakerProtocol`), what the failure
   counter counts in them (`BreakerCounting`, `BreakerStaleCounts`), telling interleavings
   (`BreakerRuns`), the proof that requests one after another are a special case
   (`BreakerRefinement`), the provider chain (`ChainResolution`), the failover loop with its nested
   repair loop and its accounting (`RouterModel`, `LlmRouter`, `RouterFacts`), what each kind of
   response comes to (`RouterAnswers`), and the proof that routed requests move the breakers as
   those results suppose (`RoutedBreakers`).
3. **Truncated-JSON repair.** The scanner and its closing phase (`JsonRepair`) against printed
   documents cut at a point (`JsonDocuments`; RFC 8259, sections 4, 5 and 7), and where the JSON
   is looked for in an answer (`JsonExtraction`).
4. **Job extraction.** The token and call budget of a whole extraction (`ExtractionBudget`), the
   overlapping scan and the trim (`TextGuards`), the merge of sections (`SectionMerge`), the
   snapshot store one request at a time (`SnapshotStore`) and under overlapping transactions with
   rollback (`SnapshotProtocol`), where two may race to create one job (`SnapshotInserts`).
5. **Refresh-token rotation.** Sessions as a state machine of overlapping transactions
   (`SessionProtocol`) and the service operations as short runs of it (`AuthSessions`; rotation as
   in RFC 6749, section 10.4, token ids as in RFC 7519, section 4.1.7).
6. **Geometry and list algorithms of the PDF reader.** Rectangle joining and image pruning on
   lists that shrink while they are scanned (`RectAlgorithms`), reading order (`WordOrder`), and
   link assignment (`LinkMatching`).

`Wrappers` holds the option type and the drawing of unused ids.

## Reading the model

- The outside world is an argument: provider answers, HTTP results, clock readings, fresh ids,
  lower-casing, splitting, password checks. Properties hold for every choice.
- Time is a real number of seconds. A Python dict is a map, so key order is not represented.
- Methods of stateful components are classes whose contracts give the whole new state through a
  function, and the properties are proved of that function.
- Protocols are state machines: a run is a sequence of steps, and main results quantify over
  all runs. In `SessionProtocol` and `SnapshotProtocol` a step that is not enabled leaves the
  state as it is (a refused request, or one that waits for a row lock).

## Where the code and its documentation differ

The model follows the code. Each difference is stated as a proved fact.

- A trial claim keeps others away for 60 s only if it is committed. Inside an extraction the
  router's writes belong to the extraction's transaction: when that is rolled back the row is due
  again, and a waiting request calls the provider at once
  (`BreakerProtocol.RolledBackClaimReopens`; `BreakerRuns.RolledBackClaimRepeats` is such a run, and
  `BreakerProtocol.CommittedClaimDecides` says what happens if the claim is committed instead).
- `increment_failure` and `_handle_count_failure` speak of *consecutive* failures. A success in
  CLOSED does not reset the counter; it counts failures since the last reset by a trial
  (`BreakerSequence.CounterExact`).
- `increment_failure` compares counts only. A failure heard before a reset can therefore be
  counted after it (`BreakerRuns.StaleCountAfterReset`): the counter holds a failure that nobody
  has heard since. `BreakerCounting.CountedSinceLastReset` bounds the excess, and
  `BreakerStaleCounts.CountsOnlySinceIffNoneOwed` gives the exact condition: the excess can
  arise if and only if somebody owed a failure when the reset hit. Against all failures ever answered the counter never over-counts
  (`BreakerCounting.NeverOvercounts`).
- A failed trial re-opens the circuit only from the third counted failure on. Below that the row
  stays HALF_OPEN until its window lapses (`BreakerSequence.FailedTrialReopensFromThird`).
- Between looking at a row and claiming its trial, the row may have been closed by somebody
  else's success. The claim then misses and a healthy provider is skipped
  (`BreakerRuns.LateClaimSkipsClosedRow`); `BreakerProtocol.ClaimAdmittedIffDue` says exactly
  when a claim hits.
- The strict OpenAI form drops the dict keys `default` and `$defs` everywhere, also inside a
  property table, where they are property names. The containment strict ⊆ original therefore
  needs the required names to survive; `DialectSandwich.StrictNodeExact` gives the exact
  condition for one node and `DialectSandwich.PropertyNamedDefaultEscapes` a witness.
- Repair closes everything and is idempotent except for a text cut right after an escaping
  backslash, and only then (`JsonRepair.RepairClosesEverything`, `JsonRepair.RepairIdempotent`).
- `merge_over` is associative exactly when no key puts a plain value between two objects that
  differ (`SectionMerge.MergeAssociative`).
- A token estimate stays within the limit except for a limit of zero and a non-empty text
  without a tokenizer (`TextGuards.TrimWithinLimit`).
- `refresh_job` reports a change and a fresh snapshot, yet with the cache on it can be served the
  snapshot the job already had (`SnapshotStore.SnapshotStore.RefreshServedFromCache`). The
  same-hash path leaves a stale mark in place (`SnapshotStore.SnapshotStore.RefreshJob`).
- `_get_or_create_for_user` calls its INSERT conflict-safe; it is a plain INSERT. Of two
  transactions that both find no job, the second to insert waits, and when the first commits it
  raises and is rolled back (`SnapshotInserts.LoserDependsOnWinner`);
  `SnapshotInserts.InsertOutcome` says exactly when an insert succeeds, waits or raises.
- A Door-4 answer that is JSON but no object raises outside every handler and aborts the
  extraction; any other unusable answer leaves a gap (`ExtractionBudget.RunDoor4Section`).
- Door 5 swallows its own budget overrun, so the final usage may exceed the budget
  (`ExtractionBudget.RunDoor5`).
- Words matched to links by content are joined with ` | `, although they were separated by
  spaces (`LinkMatching.ResolveMultipleLinks`).

## Model

| member | source | states |
|---|---|---|
| SchemaInlining.InlineRemovesRefs | backend/app/llm/schema_dialects.py:24-35 | Inlining a covered schema leaves no local reference at any depth. |
| SchemaInlining.InlineIgnoresRank | backend/app/llm/schema_dialects.py:24-35 | The ranking is only a termination measure: any two rankings of one table give the same result. |
| SchemaInlining.ReferenceMeansDefinition | backend/app/llm/schema_dialects.py:27-31 | A node with `$ref` `#/$defs/…/name`, whatever stands beside it, mentions the definition `name` and no other, is inlined as it, and accepts what it accepts. |
| SchemaInlining.OthersStay | backend/app/llm/schema_dialects.py:27-35 | Anything else under `$ref` is no reference: the node is kept key by key. |
| SchemaInlining.RootReference | backend/app/llm/schema_dialects.py:48-69 | A schema that is a reference to one of its own definitions compiles to that definition, inlined and rewritten. |
| SchemaTermination.CompilesIffResolves | backend/app/llm/schema_dialects.py:24-35 | The recursion returns if and only if every chain of references from the schema leads to object definitions and never to one twice, which is exactly when a ranking exists; definitions the schema does not need may be anything. |
| SchemaTermination.DefinedReferenceResolves | backend/app/llm/schema_dialects.py:27-31 | A reference to a definition without references compiles, whatever else is defined. |
| SchemaTermination.InlinedIsInlining | backend/app/llm/schema_dialects.py:24-35 | What the recursion returns is the inlining that the other results are about. |
| SchemaTermination.RankedIffAcyclic | backend/app/llm/schema_dialects.py:24-35 | A closed definition table can be ranked as a whole if and only if no chain of references returns to its start. |
| ReferenceGraphs.RankingExcludesCycles | backend/app/llm/schema_dialects.py:30-31 | A rank that falls along every reference excludes cycles. |
| ReferenceGraphs.RankAcyclic | backend/app/llm/schema_dialects.py:30-31 | Every closed acyclic reference graph has such a rank, built from a node without unranked successors (pigeonhole on paths). |
| SchemaInlining.InliningPreservesMeaning | backend/app/llm/schema_dialects.py:24-35 | The inlined schema accepts exactly the values of the original read with references looked up in the table. |
| SchemaInlining.InlineKeepsShape | backend/app/llm/schema_dialects.py:24-35 | Inlining keeps every keyword holding a value of its kind. |
| SchemaInlining.InlineKeepsDeclared | backend/app/llm/schema_dialects.py:24-35 | Inlining keeps required names declared and surviving. |
| DialectSandwich.WalkBounds | backend/app/llm/schema_dialects.py:38-76 | On reference-free schemas the strict walk accepts no more, and the Gemini walk no fewer values than the original. |
| DialectSandwich.OriginalWithinGemini | backend/app/llm/schema_dialects.py:48-55 | Every value a shaped schema accepts is accepted by its Gemini form. |
| DialectSandwich.StrictWithinOriginal | backend/app/llm/schema_dialects.py:58-69 | Every value the strict OpenAI form accepts is accepted by the schema, when required names are declared and survive. |
| DialectSandwich.Sandwich | backend/app/llm/schema_dialects.py:48-69 | For every schema of this shape whose chains of references resolve, a ranking exists, and under any ranking strict lies within the original and the original within Gemini. |
| DialectSandwich.StrictNodeExact | backend/app/llm/schema_dialects.py:61-76 | At an object node with properties whose sub-schemas meet the condition, the containment holds if and only if its required names survive, or the strict form accepts no object. |
| DialectSandwich.StrictMissesRequired | backend/app/llm/schema_dialects.py:61-76 | Whenever a required name does not survive, every object the strict form accepts is refused by the original. |
| DialectSandwich.StrictObjectKeys | backend/app/llm/schema_dialects.py:62-67 | An object accepted by the strict form carries exactly the names of the rewritten property table. |
| DialectSandwich.PropertyNamedDefaultEscapes | backend/app/llm/schema_dialects.py:62-66 | A required property named `default` is a witness: strict accepts the empty object, the original does not. |
| DialectForms.WalkReachesForm | backend/app/llm/schema_dialects.py:38-76 | After the walk every object node at any depth has the dialect's promised form. |
| DialectForms.GeminiNode | backend/app/llm/schema_dialects.py:48-55 | At a node the Gemini walk drops `$defs` and `additionalProperties` and keeps every other key with its value walked. |
| DialectForms.StrictNode | backend/app/llm/schema_dialects.py:58-76 | At a node the strict walk drops `$defs` and `default`, writes `additionalProperties` and `required` where there are properties, and keeps every other key with its value walked. |
| DialectForms.WalkedLeaf | backend/app/llm/schema_dialects.py:38-45 | Lists are walked element by element, anything else is left alone. |
| DialectForms.CompileReachesForm | backend/app/llm/schema_dialects.py:48-76 | For every closed schema of any shape the result is reference-free and in form throughout. |
| DialectForms.CompileIdempotent | backend/app/llm/schema_dialects.py:48-76 | Compiling a compiled schema changes nothing. |
| JsonRepair.RepairTruncated | backend/app/llm/json_utils.py:37-66 | The three loops compute the scanner specification: strip, scan, quote, close innermost first. |
| JsonRepair.DropTail | backend/app/llm/json_utils.py:40-43 | The stripping loop drops exactly the maximal tail of stripped characters. |
| JsonRepair.CloseAll | backend/app/llm/json_utils.py:64-65 | The closing loop appends one closer per open container, innermost first. |
| JsonRepair.ScanOpen | backend/app/llm/json_utils.py:44-61 | The scanning loop computes the containers and the string left open. |
| JsonRepair.StripsExactly | backend/app/llm/json_utils.py:40-43 | For every text: exactly the longest tail of the nine characters named there is cut off. |
| JsonRepair.RepairKeepsText | backend/app/llm/json_utils.py:40-43 | A text that ends in any other character loses nothing. |
| JsonRepair.ClosersMatch | backend/app/llm/json_utils.py:64-65 | One closer per open container, innermost first, a brace for a brace and a bracket for a bracket. |
| JsonRepair.RepairClosesDepth | backend/app/llm/json_utils.py:44-65 | Without strings as many closers are added as openers are left when every closer, whichever it is, takes one off. |
| JsonRepair.NothingToClose | backend/app/llm/json_utils.py:44-65 | Where nothing opens, nothing is added. |
| JsonRepair.RepairClosesEverything | backend/app/llm/json_utils.py:37-66 | For every text: rescanning the repaired text finds nothing open if and only if the text was not cut after an escaping backslash. |
| JsonRepair.RepairIdempotent | backend/app/llm/json_utils.py:37-66 | Repairing twice is repairing once, under the same condition and no other. |
| JsonDocuments.ScanNode | backend/app/llm/json_utils.py:47-61 | A complete printed value leaves the scanner where it was. |
| JsonDocuments.ScanOpenText | backend/app/llm/json_utils.py:47-61 | After the text of open containers exactly those containers are on the stack. |
| JsonDocuments.ClosersPrintPlugged | backend/app/llm/json_utils.py:64-65 | Appending the closers prints the document truncated there. |
| JsonDocuments.ContainerBrackets | backend/app/llm/json_utils.py:64-65 | A printed container stands between `[` and `]`, or between `{` and `}`. |
| JsonDocuments.RepairOfCutAfterValue | backend/app/llm/json_utils.py:37-66 | Cut after any complete value, with any tail of blanks, tabs, line ends, colons, commas, opening brackets and backticks: the result is the printed truncated document, itself well-formed. |
| JsonDocuments.RepairKeepsComplete | backend/app/llm/json_utils.py:37-66 | A complete document is left alone. |
| JsonDocuments.RepairOfCutString | backend/app/llm/json_utils.py:37-66 | Cut inside a string between two characters: the string is closed, minus trailing characters of the stripped kind, and the document is well-formed. |
| JsonDocuments.PlugIsDocument | backend/app/llm/json_utils.py:64-65 | Ending every open container at a complete value leaves a well-formed document. |
| JsonDocuments.RepairOfCutEscape | backend/app/llm/json_utils.py:48-63 | Cut after an escaping backslash the string stays open whatever is appended. |
| JsonExtraction.FencedAnswer | backend/app/llm/json_utils.py:22-28 | The contents of the first closed fence, without tag and outer blanks, are parsed, or else repaired and parsed; nothing else is tried. |
| JsonExtraction.PlainAnswer | backend/app/llm/json_utils.py:104-106 | Without two fences, an answer that parses as it stands is delivered: the inside of a single-key `result` or `output` wrapper around an object or a list, else the value itself. |
| JsonExtraction.UnwrappedDelivers | backend/app/llm/json_utils.py:77-86 | What is made of a parsed value, by cases on the value. |
| JsonExtraction.FencedIffTwoFences | backend/app/llm/json_utils.py:22-28 | There are fenced contents exactly if there are two fences, one after the other. |
| JsonExtraction.BlankNothing | backend/app/llm/json_utils.py:93-95 | Blanks, or nothing at all, give nothing. |
| JsonExtraction.FencedDocument | backend/app/llm/json_utils.py:85-102 | A complete fenced document is what is parsed, whatever surrounds the fence. |
| JsonExtraction.FencedCutDocument | backend/app/llm/json_utils.py:85-102 | A fenced document cut after a container is parsed as the document truncated there, if the parser refuses it as it stands. |
| JsonExtraction.UnclosedFence | backend/app/llm/json_utils.py:22-28 | A fence that is never closed is no fence. |
| JsonExtraction.ProseUnclosed | backend/app/llm/json_utils.py:108-118 | From a first brace that nothing closes, the whole rest is repaired and parsed. |
| JsonExtraction.NoBraceNothing | backend/app/llm/json_utils.py:108-110 | Without fence, parse or brace the answer is nothing. |
| JsonExtraction.ProseAroundObject | backend/app/llm/json_utils.py:104-118 | A complete object inside prose is what is parsed. |
| JsonExtraction.ProseAroundCutObject | backend/app/llm/json_utils.py:104-118 | A cut object inside prose is parsed as the document up to its last closed container. |
| CircuitBreaker.BreakerTable.EnsureBreaker | backend/app/db/repositories/llm_router_repository.py:151-157 | Creates a CLOSED row if there is none, else changes nothing. |
| CircuitBreaker.BreakerTable.ClaimTrial | backend/app/db/repositories/llm_router_repository.py:159-180 | Hits exactly an OPEN or HALF_OPEN row that is due, and takes it to HALF_OPEN for 60 s. |
| CircuitBreaker.BreakerTable.IncrementFailure | backend/app/db/repositories/llm_router_repository.py:182-198 | Hits exactly a row that is not OPEN and still has the count that was read. |
| CircuitBreaker.BreakerTable.TripCircuit | backend/app/db/repositories/llm_router_repository.py:200-225 | Hits exactly a row still in the observed state, adds the given number of failures and opens it until the given cooldown. |
| CircuitBreaker.BreakerTable.ResetCircuit | backend/app/db/repositories/llm_router_repository.py:227-236 | Hits exactly a row still in the observed state and makes it new. |
| CircuitBreaker.ThrottleBounds | backend/app/llm/router.py:64-70 | A Retry-After of r gives a cooldown between now + max(30, 0.8 r) and now + max(30, 1.2 r). |
| BreakerSequence.CounterExact | backend/app/llm/router.py:142-188 | Requests one at a time: the counter equals the counted failures since the last reset, CLOSED exactly without cooldown, and then at most 2. |
| BreakerSequence.ClosedRowTripsOnThird | backend/app/llm/router.py:153-168 | The third counted failure takes a CLOSED row to OPEN with cooldown now + 30 s; an earlier one leaves it CLOSED. |
| BreakerSequence.FailedTrialReopensFromThird | backend/app/llm/router.py:153-168 | A failed trial re-opens exactly from the third counted failure on, else the row keeps its trial window. |
| BreakerSequence.OthersLeaveCounter | backend/app/llm/router.py:342-368 | 429, unavailable, bad keys and wrong shapes never change the counter. |
| BreakerSequence.AdmittedIffDue | backend/app/llm/router.py:171-188 | A request is skipped exactly while a stored cooldown lies in its future. |
| BreakerSequence.RateLimitOpens | backend/app/llm/router.py:359-368 | A 429 opens the row within the jitter bounds and keeps the counter. |
| BreakerHistory.HitKeepsCell | backend/app/db/repositories/llm_router_repository.py:151-236 | Whichever repository call hits, row and history stay in step: state, cooldown, exact counter, spaced claims, bounded throttles. |
| BreakerProtocol.StepKeepsInv | backend/app/llm/router.py:142-188 | Every repository call, answer, new request, further router call, commit, rollback or return to a savepoint keeps the breaker invariant. |
| BreakerProtocol.ReachableInv | backend/app/llm/router.py:142-188 | The invariant holds after every interleaving, rollbacks of whole transactions or single router calls included. |
| BreakerProtocol.ReachableRows | backend/app/db/repositories/llm_router_repository.py:151-236 | In every interleaving, whoever looks: a row is CLOSED exactly without cooldown, and its counter equals the increments that hit it since its last reset. |
| BreakerProtocol.TrialsSpaced | backend/app/db/repositories/llm_router_repository.py:159-180 | Claims with no trip or reset between them, those committed and the observer's own, are at least 60 s apart in request time. |
| BreakerProtocol.RolledBackClaimReopens | backend/app/db/context.py:41-45 | While a claim is uncommitted a competing claim waits; if it is rolled back, the other gets the trial at once. |
| BreakerProtocol.CommittedClaimDecides | backend/app/db/context.py:41-45 | If it commits, the waiting claim hits exactly when the committed row is due for it. |
| BreakerRuns.RolledBackClaimRepeats | backend/app/llm/router.py:181-188 | A run in which a rolled-back claim lets a second request call the provider at the same request time. |
| BreakerProtocol.CooldownOrigin | backend/app/llm/router.py:64-70 | Every cooldown anyone sees is one request's trial window, floor, or bounded Retry-After. |
| BreakerProtocol.ClosedObserverNeverMoves | backend/app/db/repositories/llm_router_repository.py:200-236 | A request that saw CLOSED never changes state or cooldown of a row that has left CLOSED. |
| BreakerCounting.AnswersFit | backend/app/llm/router.py:321-378 | In every run only a request whose last answer was a counted failure of that very provider counts or trips, only its success resets, only its 429 throttles. |
| BreakerCounting.CountHitsOffOpen | backend/app/db/repositories/llm_router_repository.py:182-198 | In every run an increment hits if and only if the row is CLOSED or HALF_OPEN and has the count that was read. |
| BreakerCounting.CounterMovesOnlyByCounting | backend/app/llm/router.py:341-379 | In every run a step that changes a provider's counter is the counting step of a request whose last answer was a server error or timeout of that provider, the reset after its successful trial, or the undoing of what the request holding the row wrote. |
| BreakerCounting.EachFailureCountsOnce | backend/app/llm/router.py:153-159 | Before every counting step for a provider, and since the request's previous counting step, that request has heard a failure from that very provider. |
| BreakerCounting.NeverOvercounts | backend/app/db/repositories/llm_router_repository.py:182-198 | In every interleaving, whoever looks: counter plus failures heard and not yet counted is at most the failures the provider has answered. |
| BreakerCounting.CountedSinceLastReset | backend/app/db/repositories/llm_router_repository.py:182-236 | After a reset that is not undone, counter plus uncounted failures is at most the failures answered since plus those heard before and not counted at the reset. |
| BreakerRuns.StaleCountAfterReset | backend/app/db/repositories/llm_router_repository.py:191-196 | A run in which the counter is 1 although no failure has been answered since the reset. |
| BreakerStaleCounts.CountsOnlySinceIffNoneOwed | backend/app/db/repositories/llm_router_repository.py:182-236 | In every run after a reset that hits and is not undone the counter is at most the failures answered since, if and only if no request owed one when it hit. |
| BreakerProtocol.ClaimAdmittedIffDue | backend/app/db/repositories/llm_router_repository.py:159-180 | An attempted claim is admitted exactly when the row it sees is off CLOSED and its cooldown has passed, whatever happened since the look. |
| BreakerProtocol.LookDecides | backend/app/llm/router.py:171-188 | What a request does after looking at a row: call, skip, or try to claim. |
| BreakerProtocol.CallsAreGuarded | backend/app/db/repositories/llm_router_repository.py:151-236 | Whatever has happened since the look, each pending call has exactly the guard and the effect of its statement on the row the request sees. |
| BreakerProtocol.CallIsUndone | backend/app/core_engine/jd_extractor.py:429-481 | Undoing a router call, whatever ran during it: rows written before are as they were when it began, rows locked during it are free and as they were before that. |
| BreakerProtocol.WritesInvisible | backend/app/db/context.py:41-45 | What a request has written nobody else sees before it commits. |
| BreakerProtocol.AbortInvisible | backend/app/db/context.py:41-45 | A rollback, of a transaction or of one router call, changes nothing that anyone else sees. |
| BreakerRuns.LateClaimSkipsClosedRow | backend/app/llm/router.py:181-188 | A concrete interleaving in which a request skips a provider whose row is CLOSED. |
| BreakerRefinement.SoloVisitIsVisit | backend/app/llm/router.py:142-188 | A request that runs its repository calls without interruption has exactly the sequential effect on the provider's row. |
| BreakerRefinement.VisitRun | backend/app/llm/router.py:142-188 | From any state that meets the invariant and in which nobody holds the row, one whole request can run and commit: it leaves the sequential row, answers exactly its own failure, and disturbs nobody. |
| BreakerRefinement.SequentialIsInterleaving | backend/app/llm/router.py:142-188 | Every sequential history is an interleaving of committed requests that leaves the same row, so what holds in every interleaving holds of it. |
| ChainResolution.ResolveChain | backend/app/llm/router.py:80-104 | The chain is a sorted permutation of the configured names' first active rows. |
| ChainResolution.SortChain | backend/app/llm/router.py:103 | Sorts by priority, then by place in the configured list, losing nothing. |
| ChainResolution.ResolutionUnique | backend/app/llm/router.py:98-104 | The specification of the chain leaves exactly one chain. |
| ChainResolution.ChainIsConfigured | backend/app/llm/router.py:98-104 | Duplicate-free names give a duplicate-free chain of exactly the first active row of each configured name. |
| ChainResolution.ChainOrder | backend/app/llm/router.py:103 | Earlier in the chain means smaller priority, or equal priority and an earlier configured place. |
| ChainResolution.RepeatedNameRepeats | backend/app/llm/router.py:102 | A name configured twice puts its provider on the chain twice. |
| ChainResolution.BestByNameIsFirst | backend/app/llm/router.py:98-100 | The row kept for a name is the first active one of that name. |
| LlmRouter.Router.HandleBreakers | backend/app/llm/router.py:171-188 | Admission and claim agree with the admission function and touch one row. |
| LlmRouter.Router.HandleCountFailure | backend/app/llm/router.py:142-168 | Read, ensure, increment and trip together have the specified effect on one row. |
| LlmRouter.Router.HandleRateLimit | backend/app/llm/router.py:359-368 | Ensure and trip together have the specified effect on one row. |
| LlmRouter.Router.HandleFailure | backend/app/llm/router.py:341-379 | A failing answer moves one breaker row by its kind and books one usage row and one audit. |
| LlmRouter.Router.RecordFailure | backend/app/llm/router.py:107-132 | One failed usage row and one audit, in step. |
| LlmRouter.Router.Succeed | backend/app/llm/router.py:321-332 | A success resets only a held trial and books one success row. |
| LlmRouter.Router.Exhaust | backend/app/llm/router.py:191-243 | One audit, one error row, and a checkpoint exactly with a job id and a valid step. |
| LlmRouter.Router.PassGate | backend/app/llm/router.py:267-307 | Unregistered, refused and undecryptable providers are set aside with the right record; only a callable one gets through. |
| LlmRouter.Router.TryProvider | backend/app/llm/router.py:267-391 | One provider of the plain lane: books, outcome and attempt record. |
| LlmRouter.Router.TryChain | backend/app/llm/router.py:264-391 | The failover loop ends with the specified result and books, for any chain. |
| LlmRouter.Router.RouteLlmRequest | backend/app/llm/router.py:246-403 | The whole request: result, breaker rows, usage, audits, error row and checkpoint, for any chain and any adapter behaviour. |
| LlmRouter.Router.Converse | backend/app/llm/router.py:477-613 | The repair loop: its calls, failures and final answer are those of the repair specification. |
| LlmRouter.Router.TryStructured | backend/app/llm/router.py:435-613 | One provider of the structured lane: books, outcome and attempt record. |
| LlmRouter.Router.TryStructuredChain | backend/app/llm/router.py:432-613 | The structured loop ends with the specified result and books. |
| LlmRouter.Router.GenerateStructured | backend/app/llm/router.py:406-625 | The whole structured request, with its exhaustion report. |
| RouterModel.HandleOneMore | backend/app/llm/router.py:267-391 | Handling one more entry starts from the row it finds and touches no other. |
| RouterModel.RowFoundInitially | backend/app/llm/router.py:267-391 | Frame: without repeated names every entry finds the row the request started with. |
| RouterModel.ProgressOneMore | backend/app/llm/router.py:267-391 | One turn of the loop either finishes with the winner or keeps the progress invariant. |
| RouterModel.FirstWinner | backend/app/llm/router.py:267-340 | The least chain position that wins by the row it finds, or the length. |
| RouterAnswers.FailureCounts | backend/app/llm/router.py:369-378 | In both lanes: a response with status error or timeout, code not 429 and type not `rate_limited` adds exactly one to the counter of an admitted provider; the third opens the circuit for 30 s. |
| RouterAnswers.RateLimitOpensRow | backend/app/llm/router.py:359-368 | In both lanes: code 429 or type `rate_limited` opens the row for the jittered Retry-After, at least 30 s, and keeps the counter. |
| RouterAnswers.UnavailableLeavesRow | backend/app/llm/router.py:342-358 | In both lanes: an unavailable provider leaves its row as admission left it. |
| RouterAnswers.SuccessClosesTrial | backend/app/llm/router.py:321-340 | In both lanes: a success makes the row new after a trial and changes nothing otherwise. |
| RouterAnswers.NotCalledKeepsRow | backend/app/llm/router.py:267-307 | A provider that is not called keeps its row, but for a trial claimed before its key proved broken. |
| RouterAnswers.FailureIsBooked | backend/app/llm/router.py:341-391 | A failed plain call: one usage row, one audit and one attempt, all under the same error, which is given by the fields of the response. |
| RouterAnswers.SuccessIsBooked | backend/app/llm/router.py:321-340 | A plain success: one usage row and no audit. |
| RouterAnswers.SkipIsBooked | backend/app/llm/router.py:267-307 | Why a provider was not called, and what is booked for it. |
| RouterAnswers.MisshapenIsBooked | backend/app/llm/router.py:516-525 | Every misshapen reply is booked in its place as `schema_mismatch` or `invalid_json`. |
| RouterAnswers.DecisiveIsBooked | backend/app/llm/router.py:526-611 | The first reply that is not misshapen ends the list of failures, with its error or with none. |
| RouterFacts.FailoverPicksFirst | backend/app/llm/router.py:264-392 | For any chain, the answer comes from the first entry that is registered, admitted by the row it finds, decryptable and answers ok; failure means there is none. |
| RouterFacts.InitialTableDecides | backend/app/llm/router.py:264-392 | Without repeated names the breaker table at the start of the request decides. |
| RouterFacts.RepeatedNameIsSkipped | backend/app/llm/router.py:359-368 | With a repeated name it does not: a 429 opens the row and the second entry is skipped. |
| RouterFacts.RowsMoveAlone | backend/app/llm/router.py:264-392 | Without repeated names only rows of providers dealt with change, each as if it were alone. |
| RouterFacts.SuccessAccounting | backend/app/llm/router.py:264-340 | On success every usage row but the last is a failure whose audit stands in the same place with its provider and error, and the last is the winner's success. |
| RouterFacts.ExhaustionAccounting | backend/app/llm/router.py:191-403 | On exhaustion every usage row is a failure with its own audit, and there is one attempt record per chain entry, in order. |
| RouterFacts.PrefixPaired | backend/app/llm/router.py:267-391 | Over a prefix without a winner every usage row is a failure with its own audit. |
| RouterFacts.PlainAccounting | backend/app/llm/router.py:246-403 | On exhaustion of the plain lane: failed usage rows = failure audits = attempts marked called. |
| RouterFacts.RepairsBounded | backend/app/llm/router.py:479-549 | At most max_repairs + 1 calls, all but the last misshapen, and the last one too only if the repairs ran out. |
| RouterFacts.UsageRowPerCall | backend/app/llm/router.py:435-613 | One usage row per adapter call, one for an undecryptable key, none otherwise. |
| RouterFacts.ShapeFailuresLeaveBreaker | backend/app/llm/router.py:494-549 | A provider failing only on output shape leaves its breaker row as admission left it. |
| RouterFacts.StructuredWinnerValidates | backend/app/llm/router.py:494-515 | An entry wins the structured lane exactly if it is callable and some reply within the repairs validates after misshapen ones only. |
| RoutedBreakers.RowAtReplays | backend/app/llm/router.py:264-391 | Within a request, a row is what its registered chain entries, as visits one after another, make of it. |
| RoutedBreakers.FinishedRoutes | backend/app/llm/router.py:264-391 | What the failover loops of both lanes promise is one step of such a sequence. |
| RoutedBreakers.RowsFollowVisits | backend/app/llm/router.py:246-403 | Over any sequence of routed requests, in either lane and for any chains, every row is the one its provider's visits lead to. |
| RoutedBreakers.RoutedCounterExact | backend/app/llm/router.py:142-188 | So in every such sequence counters are exact, and a row is CLOSED just when it has no cooldown, with at most 2 failures. |
| RoutedBreakers.RefusedIffCoolingDown | backend/app/llm/router.py:171-188 | After any such sequence a request refuses a registered provider exactly while its cooldown lies ahead. |
| ExtractionBudget.BudgetTracker.ConsumeCall | backend/app/core_engine/jd_extractor.py:281-287 | Counts a call unless the cap is reached. |
| ExtractionBudget.BudgetTracker.Accrue | backend/app/core_engine/jd_extractor.py:289-295 | Charges first, then raises if the headroom is gone. |
| ExtractionBudget.RunDoor4Section | backend/app/core_engine/jd_extractor.py:425-577 | Which budget check or answer raises, with what already charged; a failed call is charged its plan; which answers leave a gap. |
| ExtractionBudget.RunDoor4 | backend/app/core_engine/jd_extractor.py:781-806 | Passes exactly when every section completes, with four calls, the summed charge and the gaps in order; else stops at the first that does not, with the calls and the charge made by then. |
| ExtractionBudget.RunDoor5 | backend/app/core_engine/jd_extractor.py:820-850 | Skips without room, never raises, books even an overrun, and records a gap exactly for a failed call, an overrun or an answer that is no object. |
| ExtractionBudget.Extract | backend/app/core_engine/jd_extractor.py:775-850 | For any replies: at most five calls however it ends, the cap is never the reason, an abort exactly at the first section over budget or answered with JSON that is no object, the tokens the sum accrued, the gaps in order, and Door 4 leaves the headroom. |
| ExtractionBudget.FailedChargeNeverRaises | backend/app/core_engine/jd_extractor.py:438-481 | Charging a failed call its planned tokens cannot overrun a budget whose guard just passed. |
| ExtractionBudget.EnoughBudgetCompletes | backend/app/core_engine/jd_extractor.py:425-531 | With room for the larger of plan and charge of each call, Door 4 completes if and only if no answer is JSON that is no object. |
| ExtractionBudget.SectionGapsAre | backend/app/core_engine/jd_extractor.py:796-797 | A section has a gap on record exactly when its call left nothing to merge. |
| ExtractionBudget.LargerBudgetCompletes | backend/app/core_engine/jd_extractor.py:258-295 | A larger budget never turns completion into failure. |
| TextGuards.CheckForPromptInjection | backend/app/core_engine/jd_extractor.py:201-210 | For any chunk size, overlap below it and patterns of length 1 to overlap + 1: flagged if and only if the lower-cased whole text contains a pattern. |
| TextGuards.ShippedPatternsFit | backend/app/core_engine/jd_extractor.py:201-210 | The shipped sizes and patterns meet that condition. |
| TextGuards.LongerPatternCanHide | backend/app/core_engine/jd_extractor.py:206-207 | The length bound is tight: one character more and every chunk can miss it. |
| TextGuards.TrimWithinLimit | backend/app/core_engine/jd_extractor.py:142-183 | When the estimate is within the limit (if and only if), that the text is a prefix, and how long. |
| TextGuards.EstimateIsLeast | backend/app/core_engine/jd_extractor.py:142-143 | The estimate is the least number of tokens, at least one, that holds the text. |
| TextGuards.TokenizerDecides | backend/app/core_engine/jd_extractor.py:146-183 | With a tokenizer: the pre-trimmed text if its tokens fit, else its first tokens, with the exact count. |
| TextGuards.ShortTextStays | backend/app/core_engine/jd_extractor.py:146-183 | Nothing is cut from a text within the limit in characters. |
| TextGuards.ShippedPhrases | backend/app/core_engine/jd_extractor.py:201-210 | The shipped scan looks for exactly the seven phrases. |
| SectionMerge.Accumulator.MergeOver | backend/app/core_engine/jd_schema.py:234-259 | The in-place loop computes the key-by-key merge, in any key order. |
| SectionMerge.MergeIdempotent | backend/app/core_engine/jd_schema.py:234-259 | Merging a section twice is merging it once. |
| SectionMerge.MergeKeepsAndWins | backend/app/core_engine/jd_schema.py:234-259 | No key is dropped, no filled field emptied, empty section fields change nothing, filled plain ones win. |
| SectionMerge.KeptIfEmpty | backend/app/core_engine/jd_schema.py:229-231 | Nothing, and the empty text, list and object, change nothing. |
| SectionMerge.PlainWins | backend/app/core_engine/jd_schema.py:229-258 | Every number wins, zero included, and every text and list that is not empty. |
| SectionMerge.ObjectMergesEntries | backend/app/core_engine/jd_schema.py:245-257 | Objects merge entry by entry: filled entries win, the others keep what was there. |
| SectionMerge.KeyAssociative | backend/app/core_engine/jd_schema.py:234-259 | Associativity of one key, exactly outside the clash. |
| SectionMerge.MergeAssociative | backend/app/core_engine/jd_schema.py:234-259 | Grouping is irrelevant if and only if no key clashes. |
| SectionMerge.OrderIrrelevant | backend/app/core_engine/jd_schema.py:234-259 | Sections with disjoint keys may be merged in any order. |
| SectionMerge.Door4OrderIrrelevant | backend/app/core_engine/jd_schema.py:138-226 | The Door-4 result does not depend on the order of its four sections. |
| SectionMerge.SectionKeysDisjoint | backend/app/core_engine/jd_schema.py:138-226 | The key sets of the four section models are disjoint. |
| SnapshotStore.SnapshotStore.UpsertSnapshot | backend/app/db/repositories/core_engine_repository.py:61-87 | Insert if absent: a known hash returns its row and changes nothing. |
| SnapshotStore.SnapshotStore.FindSnapshotBySourceUrl | backend/app/db/repositories/core_engine_repository.py:89-110 | A latest snapshot captured from the URL, if there is one. |
| SnapshotStore.SnapshotStore.FindJobByUrl | backend/app/db/repositories/core_engine_repository.py:113-120 | The user's job for the URL, if there is one. |
| SnapshotStore.SnapshotStore.GetOrCreateForUser | backend/app/core_engine/jd_extractor.py:585-613 | One job per user and URL, created unbound if absent. |
| SnapshotStore.SnapshotStore.ApplySnapshot | backend/app/db/repositories/core_engine_repository.py:122-130 | Rebinds one job with snapshot, hash and freshness. |
| SnapshotStore.SnapshotStore.MarkFreshness | backend/app/db/repositories/core_engine_repository.py:132-134 | Changes the freshness of one job and nothing else. |
| SnapshotStore.SnapshotStore.TouchLastFetched | backend/app/db/repositories/core_engine_repository.py:136-138 | Changes the fetch time of one job and nothing else. |
| SnapshotStore.SnapshotStore.BindJob | backend/app/core_engine/jd_extractor.py:666-679 | The user's job ends up with the snapshot and its hash, and no other job changes; on the cache path a job that held the snapshot is untouched, any other job comes out fresh and fetched now. |
| SnapshotStore.SnapshotStore.ExtractJob | backend/app/core_engine/jd_extractor.py:657-696 | Cache path and cascade path: which one runs, the exact snapshot table and job that result, freshness and fetch time included, and agreement kept. |
| SnapshotStore.SnapshotStore.RefreshJob | backend/app/core_engine/jd_extractor.py:957-1025 | The outcomes of a refresh, exactly when each occurs, and exactly what each leaves behind. |
| SnapshotStore.SnapshotStore.RefreshServedFromCache | backend/app/core_engine/jd_extractor.py:1009-1025 | With the cache on and one snapshot of the URL, a refresh of changed content keeps the old binding. |
| SnapshotProtocol.StepKeepsInv | backend/app/db/repositories/core_engine_repository.py:61-138 | Every repository call, commit, abort, delete or raising insert keeps the agreement invariant. |
| SnapshotProtocol.WritesTakeEffect | backend/app/db/repositories/core_engine_repository.py:122-138 | A write leaves its transaction the row of its statement: creation, binding with freshness and fetch time, mark, fetch time. |
| SnapshotProtocol.UpsertTakesEffect | backend/app/db/repositories/core_engine_repository.py:61-87 | An upsert stores new content as it came, and otherwise changes nothing. |
| SnapshotProtocol.ReadsAndDeletes | backend/app/db/repositories/core_engine_repository.py:89-120 | A read finds a latest visible snapshot of the URL, or the user's own job; a deletion takes the job from everybody. |
| SnapshotProtocol.RolledBackKeepsInv | backend/app/db/context.py:41-45 | Rolling a transaction back leaves no job bound to a snapshot that went with it. |
| SnapshotProtocol.SnapshotAgreement | backend/app/core_engine/jd_extractor.py:661-696 | In every reachable state hashes are unique, and whoever looks at a job sees neither snapshot nor hash, or the hash of a snapshot visible to them. |
| SnapshotProtocol.CommittedForever | backend/app/db/repositories/core_engine_repository.py:61-87 | A committed snapshot is never removed and its payload never changes, over every run. |
| SnapshotProtocol.UpsertsAgree | backend/app/db/repositories/core_engine_repository.py:61-87 | Any later upsert of a hash returns the same snapshot and keeps the first payload. |
| SnapshotProtocol.OneInserter | backend/app/db/repositories/core_engine_repository.py:66-69 | While an insert of a hash is uncommitted, any other upsert of it waits. |
| SnapshotProtocol.AbortInvisible | backend/app/db/context.py:41-45 | An abort changes nothing that another transaction can see. |
| SnapshotProtocol.WritesInvisible | backend/app/db/context.py:41-45 | A transaction's writes reach nobody else before it commits. |
| SnapshotInserts.InsertOutcome | backend/app/core_engine/jd_extractor.py:585-613 | An insert succeeds if and only if the user has no row for the URL, committed or not; it waits if and only if another open transaction is creating one; it raises if and only if its transaction sees one. |
| SnapshotInserts.OneCreator | backend/app/core_engine/jd_extractor.py:597-609 | Once a transaction has inserted, every other insert of that user and URL waits until it ends, over every run. |
| SnapshotInserts.CommitMakesOthersRaise | backend/app/core_engine/jd_extractor.py:597-609 | After its commit every later insert of that user and URL raises and rolls its transaction back, until the row is deleted. |
| SnapshotInserts.AbortLetsInsert | backend/app/db/context.py:41-45 | After its rollback the waiting insert can go ahead. |
| SnapshotInserts.LoserDependsOnWinner | backend/app/core_engine/jd_extractor.py:585-613 | Two transactions that both find no row: whichever inserts first, the other waits, then raises and is rolled back, or inserts, as the first commits or rolls back. |
| SessionProtocol.StepKeepsInv | backend/app/auth/service.py:85-197 | Every step of register, login, refresh, logout, or rollback keeps the session invariant. |
| SessionProtocol.ReachableInv | backend/app/auth/service.py:85-197 | The invariant holds after every interleaving: unique digests, parents revoked and of the same user, one successor per row, one open refresh per row. |
| SessionProtocol.EarlierIsRotated | backend/app/auth/service.py:165-184 | Of two rows of a lineage the earlier one has been rotated, towards the later. |
| SessionProtocol.OneActivePerLineage | backend/app/auth/service.py:165-184 | Each lineage has at most one unrevoked row, and it is the last. |
| SessionProtocol.LineageIsOneUser | backend/app/auth/service.py:165-184 | A lineage never changes hands. |
| SessionProtocol.SpentForever | backend/app/db/repositories/auth_repository.py:146-153 | A row revoked for good stays exactly as it is, over every run. |
| SessionProtocol.SpentTokenRefused | backend/app/db/repositories/auth_repository.py:146-153 | A revoked token is never accepted again by refresh or logout. |
| SessionProtocol.OneRefreshSucceeds | backend/app/auth/service.py:165-184 | Of any competing refreshes of one token at most one succeeds. |
| SessionProtocol.NoTwoOpen | backend/app/db/repositories/auth_repository.py:146-153 | Two refreshes of one token are never open at the same time. |
| SessionProtocol.AbortRestores | backend/app/auth/service.py:172-180 | A refresh that fails after revoking restores the row, whatever ran in between. |
| AuthSessions.AuthService.RevokeActiveSession | backend/app/db/repositories/auth_repository.py:146-153 | Revokes exactly the one active row of the token, or nothing. |
| AuthSessions.AuthService.InsertSession | backend/app/db/repositories/auth_repository.py:139-144 | Appends an active row that expires in seven days. |
| AuthSessions.AuthService.FindByEmail | backend/app/db/repositories/auth_repository.py:58-61 | The account of an address, if there is one. |
| AuthSessions.AuthService.Register | backend/app/auth/service.py:85-123 | Which error in which order, no effect on error, and on success account, audit and one protocol step. |
| AuthSessions.AuthService.Login | backend/app/auth/service.py:126-162 | Refused exactly for an unknown address or a wrong password; else one protocol step and one audit. |
| AuthSessions.AuthService.Refresh | backend/app/auth/service.py:165-184 | Which error when, every error leaves the table as it was, and a success is one uninterrupted rotation. |
| AuthSessions.AuthService.Logout | backend/app/auth/service.py:187-197 | Revokes the active row of the token, else a silent no-op. |
| SessionProtocol.UnusedForever | backend/app/db/repositories/auth_repository.py:146-153 | A row whose token nobody presents stays exactly as it is, over every run. |
| SessionProtocol.RemovedUserGetsNothing | backend/app/auth/service.py:165-184 | A removed user gets no session, neither by signing in nor by a refresh already begun. |
| SessionProtocol.RunKeepsTimes | backend/app/db/repositories/auth_repository.py:139-153 | In every run nothing is revoked ahead of time, and no session outlives seven days from now. |
| AuthSessions.ValidEmails | backend/app/auth/service.py:68-69 | An address is valid exactly if it has an `@` that is not its first character and a dot after the last one. |
| AuthSessions.RotationReplaces | backend/app/auth/service.py:165-184 | After a refresh the presented token is refused forever; whatever happens in between, the new one, until presented, is accepted exactly until it expires. |
| RectAlgorithms.SweepOnce | backend/app/core_engine/pymupdf_rag_impl.py:235-240 | One backward scan with deletion: what it takes in extends the cluster; taking in nothing means nothing left passes the test. |
| RectAlgorithms.TakeCluster | backend/app/core_engine/pymupdf_rag_impl.py:231-244 | The repeated scan terminates with a grown cluster closed against all boxes left. |
| RectAlgorithms.JoinAll | backend/app/core_engine/pymupdf_rag_impl.py:226-244 | The boxes are partitioned into grown clusters, outputs are their hulls, each closed against all later clusters. |
| RectAlgorithms.SortedSet | backend/app/core_engine/pymupdf_rag_impl.py:246 | The same rectangles without repetition, by top-left corner. |
| RectAlgorithms.RefineBoxes | backend/app/core_engine/pymupdf_rag_impl.py:215-247 | Joining and listing together. |
| RectAlgorithms.HullCovers | backend/app/core_engine/pymupdf_rag_impl.py:226-238 | Without shrinking, a cluster's hull covers all its boxes. |
| RectAlgorithms.HullIsLeast | backend/app/core_engine/pymupdf_rag_impl.py:226-238 | With enlarge 0 it is the exact hull: whatever covers the boxes covers it. |
| RectAlgorithms.HullExact | backend/app/core_engine/pymupdf_rag_impl.py:226-238 | A rectangle lies around the hull if and only if it lies around the first box, grown on every side, and around the others. |
| RectAlgorithms.EveryBoxCovered | backend/app/core_engine/pymupdf_rag_impl.py:215-247 | Every input box lies in some output. |
| RectAlgorithms.OverlapsShareCluster | backend/app/core_engine/pymupdf_rag_impl.py:215-247 | With a monotone test, two boxes that pass it against each other end up in one cluster. |
| RectAlgorithms.PruneImages | backend/app/core_engine/pymupdf_rag_impl.py:1108-1116 | The backward sweep keeps exactly the first image and the non-empty ones inside no earlier one of the original list. |
| RectAlgorithms.NonEmptyCovered | backend/app/core_engine/pymupdf_rag_impl.py:1108-1116 | Every non-empty image lies in a survivor, if need be through containers deleted later. |
| RectAlgorithms.NoSurvivorInEarlier | backend/app/core_engine/pymupdf_rag_impl.py:1108-1116 | No survivor but the first is empty or lies in an earlier one. |
| RectAlgorithms.PruningLosesNothing | backend/app/core_engine/pymupdf_rag_impl.py:1108-1119 | Coverage, minimality and provenance of what a page keeps. |
| WordOrder.SortWords | backend/app/core_engine/pymupdf_rag_impl.py:1007-1031 | The output is the input cut into lines, each stably sorted from left to right, in order. |
| WordOrder.LineExtent | backend/app/core_engine/pymupdf_rag_impl.py:1020-1024 | The line so far reaches from its highest top to its lowest bottom. |
| WordOrder.WithinThreePoints | backend/app/core_engine/pymupdf_rag_impl.py:1021 | A word stays on the line if its top or its bottom is within 3 points of the line's. |
| WordOrder.SortLine | backend/app/core_engine/pymupdf_rag_impl.py:1025 | A stable sort by left edge. |
| WordOrder.ReadingOrderIsPermutation | backend/app/core_engine/pymupdf_rag_impl.py:1007-1031 | No word is lost or doubled. |
| LinkMatching.MatchByPlatform | backend/app/core_engine/pymupdf_rag_impl.py:503-514 | The first unused link of the first platform mentioned that has one. |
| LinkMatching.MatchLeftOver | backend/app/core_engine/pymupdf_rag_impl.py:517-522 | The first unused link, if any. |
| LinkMatching.MatchPartsToLinks | backend/app/core_engine/pymupdf_rag_impl.py:480-529 | Every piece gets the link the rule gives it, and the text is rendered from that. |
| LinkMatching.ChosenUnique | backend/app/core_engine/pymupdf_rag_impl.py:498-522 | The rule leaves no choice. |
| LinkMatching.PieceText | backend/app/core_engine/pymupdf_rag_impl.py:524-527 | A piece with a link is written `[text](target)`, one without as it is. |
| LinkMatching.JoinedMore | backend/app/core_engine/pymupdf_rag_impl.py:529 | The separator stands between the pieces and nowhere else. |
| LinkMatching.GitTakesGithub | backend/app/core_engine/pymupdf_rag_impl.py:503-514 | A piece that mentions `git` takes the first unused link to GitHub, if there is one. |
| LinkMatching.LinkedIffEarly | backend/app/core_engine/pymupdf_rag_impl.py:498-527 | Exactly the first min(parts, links) pieces get a link. |
| LinkMatching.NoLinkTwice | backend/app/core_engine/pymupdf_rag_impl.py:498-522 | No link is given out twice. |
| LinkMatching.EveryLinkUsed | backend/app/core_engine/pymupdf_rag_impl.py:480-529 | With at least as many pieces as links every link is used exactly once. |
| LinkMatching.ResolveMultipleLinks | backend/app/core_engine/pymupdf_rag_impl.py:447-478 | Which way is taken and which piece gets which link: one to one in order for equal numbers, else by the rule; the text; every link used exactly once unless the whole span goes to the first. |

## Left out

- Provider adapters, HTTP fetching, browser rendering, PDF reading and storage, prompt templates, bcrypt, JWT signing and AES: arbitrary inputs or functions here.
- SQL text, row-level security and migrations: a guarded UPDATE is one atomic step on the rows of the acting user, a transaction is all or nothing.
- CircuitBreaker.BreakerTable.EnsureBreaker: deletion of a breaker row together with its provider (`delete_provider`) is not modelled.
- BreakerProtocol.StepKeepsInv: a superset of the code's runs; a router call's savepoint is taken when the call begins, and calls within a transaction follow one another.
- BreakerProtocol.ReachableRows: its counter clause is about increments that hit; the bound by failures answered is `BreakerCounting.NeverOvercounts`.
- CircuitBreaker.ThrottleBounds: the seeded jitter is any number in [0.8, 1.2] per provider, not Python's generator.
- SchemaInlining.InliningPreservesMeaning: covers schemas whose keywords hold values of their kind, and the keyword fragment named above; formats, bounds, `allOf`, `not` and `prefixItems` count as annotations. The rank argument only bounds the recursion.
- DialectSandwich.StrictNodeExact: exact for every value at one node whose sub-schemas meet the condition; for whole schemas the condition at every node is proved sufficient.
- SchemaTermination.CompilesIffResolves: a definition that is a list or a string counts as an error, although `dict()` accepts an empty one and a list of pairs; the depth of the Python stack is not bounded.
- SchemaDialects.KeyList: the order of `required` is not represented.
- JsonExtraction.FencedDocument: `json.loads`, the blank characters and the tag test are arbitrary functions; that the parser accepts printed documents is not stated. Texts cut inside a key, a number or a literal are repaired without a claim about the result.
- JsonExtraction.ProseAroundObject: assumes that no fence is found and that the answer as a whole is refused by the parser, as the code tries both first.
- JsonExtraction.ProseAroundCutObject: the same assumptions.
- LlmRouter.Router.RouteLlmRequest: latency, token counts and messages of rows are not represented, and the list of names is an argument (stored settings and defaults are read elsewhere).
- ExtractionBudget.Extract: ends with Door 5. Doors 1 to 3 come before; building the payload, the plausibility gate and validation come after and may still raise. The kinds of section gap, and those of a failed Door-5 call, are not told apart.
- TextGuards.CheckForPromptInjection: lower-casing is any function that keeps the empty text.
- SectionMerge.Accumulator.MergeOver: values are compared as values; sharing of nested dicts between accumulator and section is not represented.
- SnapshotStore.SnapshotStore.ExtractJob: titles, companies and audits are not represented, ids are fresh arguments, and a cascade that raises is an absent result.
- SnapshotInserts.InsertOutcome: two transactions that wait for each other, which the database would break up by raising in one of them, simply both wait here.
- SnapshotProtocol.StepKeepsInv: a superset of the code's runs, since the repository calls of a transaction may come in any order; deletion of a user with all jobs is not modelled.
- SessionProtocol.StepKeepsInv: removing a user keeps the session rows, where the database would cascade; token ids are fresh and SHA-256 is injective. Application and database clocks are one, but a transaction may have started at any earlier time.
- AuthSessions.AuthService.Register: default settings and IP addresses are not represented; email normalisation, password policy and hashing are arbitrary functions.
- RectAlgorithms.RefineBoxes: the intersection test on integer hulls is any predicate; PyMuPDF's special union rules for empty and infinite rectangles are not modelled. Outputs may overlap: a later hull can cover an earlier closed box.
- RectAlgorithms.PruneImages: the area sort, the clip filter and the cap of 30 images come before and are not modelled.
- WordOrder.SortWords: the presorting by bottom and left edge is the caller's and not needed for what is stated.
- Résumé section transforms, date parsing, URL classification, settings validation, error envelopes and job listing: branches without interplay; the cursor pagination of `list_jobs` builds an ill-formed statement, so the code decides nothing there.
