# Verified model of the agent platform's core logic

The repository is a platform that runs agents driven by language models: a model's reply is
searched for tool calls, a request passes a preflight that decides which operations it may use,
operations are executed locally or through remote providers, and shared services (locks,
breakers, caches, a rate limiter, event streams) stand around that. These modules model the
parts of it that are algorithms, state machines and protocols, and prove what they are for.

- **Reply parsing.** `JsonGrammar`, `JsonValues` and `JsonCanonical` give RFC 8259 texts, a decoder
  proved to accept exactly those, the encoder in its styles, and the sorted-key form.
  `JsonUtils`, `Protocol`, `ToolCalls`, `ResponseText` and `NativeToolCalls` model the scanner for
  balanced objects, the finder, the tiers of the reply parser, the de-duplication of calls, and
  the text left over; `SpelledCalls` says of the texts alone which calls come back.
- **Shared state and time.** `DistributedLock` (lease lock over Redis scripts), `Resilience`, `Retry` and
  `CircuitBreaker` (the two breakers and the retry loop), `RateLimit` and `RateLimitSteps` (fixed windows), `McpSessions`
  and `OperationExecutor` (session cache, lock, retrying posts), `CollectionCache`. The objects are
  classes whose methods are proved against step functions; the steps of any number of clients
  then interleave in a transition system, and the theorems are about every run of it.
- **Streams and search.** `Sse` proves the event printer against the parser of the WHATWG HTML
  Standard; `Qdrant` proves the two-scope merge against a definition of a top-k answer.
- **Preflight.** `Publication` and `Capability` (the slug tables, resolution, and the matcher),
  `Preflight` (router, execution graph, collection and policy filters).
- **Smaller cores.** `RunContext` (trimming and bounded queues), `Ldap` (filter escaping).

`Basics` and `Text` hold what is shared. Time is a real number, but for the lock, whose
expiry is in whole seconds; every reading of a clock is an argument, and so are random numbers, the answers of servers, and the
outcomes of functions called. Strings are sequences of Unicode characters.

Some results are about cases in which the code does not do what one might expect. The model
follows the code, and the exact condition is proved beside a trace or input:

- `DistributedLock.AcquireAnswersWithoutLease`: a failed release leaves the flag up (`LateReleaseThenAcquire`).
- `CircuitBreaker.BeforeTimeout`: a late success closes an open circuit (`LateSuccessCloses`).
- `CircuitBreaker.StuckUntilOutcome`, `Resilience.StuckUntilOutcome`: a half-open circuit whose probes
  record no outcome stays shut (`LostProbes`).
- `CollectionCache.ReadsOwnWrites`: a refresh that fails after an invalidation answers from the old cache
  (`FailedRefreshHidesChange`); `UnfailedReadsOwnWrites`: one under way can land over it (`LostInvalidation`).
- `McpSessions.RejectDropsOther`: a caller rejected under an old session can drop a new one (`NewSessionIsDropped`).
- `RateLimitSteps.OverfillsIff`: a request that counts after its window is over can be one too many (`SlowRequestIsLetIn`).
- `Preflight.FiltersCommuteIff`: with shared slugs the order of the filters can matter (`SharedSlugDiffers`).
- `Qdrant.MergedIsTopKIff`: a point in both answers can lose its better hit (`SharedIdLosesBest`).
- `Preflight.DeniedSurvivesIff`: operations of a denied collection that survive the filter
  (`SharedInstanceSurvives`, `SystemOperationSurvives`).
- `Capability.PublishesItsBinding`: two raw sql slugs published under another operation (`QueryIsPublishedAsSystem`).
- `ResponseText.OwnTakenIff`: an equal text inside an earlier object is taken out instead of a call's own (`NestedTextGoesFirst`).
- `RunContext.TrimmedSize`: a trimmed observation can be over the limit (`BoundIsTight`).

`max_bytes` of `trim_observation_output` counts characters, not bytes, and so does the model.

## Model

| member | source | states |
|---|---|---|
| JsonGrammar.ParsesExactlyTexts | apps/api/src/app/agents/protocol.py:97-100 | the decoder accepts a text as a given syntax tree iff that tree is well formed under RFC 8259 and prints exactly that text, white space and escapes included |
| JsonGrammar.ParseValueReads | apps/api/src/app/agents/protocol.py:97-100 | a printed value followed by any text a value may be followed by is read back, and the rest is left over |
| JsonGrammar.ParseEntriesSound | apps/api/src/app/agents/protocol.py:97-100 | whatever the decoder accepts as the inside of an array or object is well formed and was printed so |
| JsonGrammar.PrintingIsInjective | apps/api/src/app/agents/protocol.py:97-104 | no text has two readings |
| JsonValues.Store | apps/api/src/app/agents/run_context_compact.py:66-68 | assigning to a dictionary key keeps every other key, keeps keys distinct, and appends exactly when the key is new |
| JsonValues.LoadsPlain | apps/api/src/app/agents/protocol.py:97-100 | every value decoded has distinct keys in every object |
| JsonValues.DecodeEncode | apps/api/src/app/agents/protocol.py:102-104 | decoding undoes encoding for every value with distinct keys, with and without ASCII escapes and spaces |
| JsonValues.LoadsDumps | apps/api/src/app/agents/protocol.py:99-104 | `loads(dumps(v)) == v` on texts, in every style the code uses |
| JsonCanonical.CanonDecides | apps/api/src/app/agents/protocol.py:102-107 | two values have the same sorted form iff they are equal up to the order of object keys at every depth |
| JsonCanonical.SortedUnique | apps/api/src/app/agents/protocol.py:102 | a set of fields with distinct keys has one sorted order |
| JsonCanonical.SortedDumpsDecides | apps/api/src/app/agents/protocol.py:102-107 | the sorted-key text is order-insensitive and injective: texts are equal iff the values are equal up to key order |
| JsonCanonical.SortedDumpsReadsBack | apps/api/src/app/core/schema_hash.py:32-37 | the sorted-key text decodes to a value equal to the original up to key order |
| JsonCanonical.SchemaTextDecides | apps/api/src/app/core/schema_hash.py:32-37 | the text that is hashed for a schema is the same for two pairs of schemas iff input and output agree up to key order |
| JsonUtils.ExtractBalancedJson | apps/api/src/app/agents/json_utils.py:7-33 | the index loop returns the shortest balanced prefix at `start`, or None, as the reference scan defines it |
| JsonUtils.BalancedIsShortest | apps/api/src/app/agents/json_utils.py:7-33 | on any text: the result is a prefix whose scan depth is zero and no shorter non-empty prefix has depth zero; None iff no prefix has |
| JsonUtils.AfterIsFirst | apps/api/src/app/agents/json_utils.py:14-33 | resuming the scan from any depth, string and escape state stops at the first position where the depth is zero |
| JsonUtils.AfterValue | apps/api/src/app/agents/json_utils.py:14-33 | scanning any printed value, at any nesting, from outside a string leaves depth and string state as they were |
| JsonUtils.AfterObject | apps/api/src/app/agents/json_utils.py:14-33 | scanning a printed object from its brace stops exactly at its closing brace, whatever follows |
| JsonUtils.BalancedRecoversPrinted | apps/api/src/app/agents/json_utils.py:7-33 | for every printed JSON object in any surroundings, the scanner started at its brace returns exactly its text |
| JsonUtils.ObjectExtent | apps/api/src/app/agents/json_utils.py:7-33 | a printed object is the front of any text it is printed before, and its own length decides where it ends |
| Protocol.ToolName | apps/api/src/app/agents/protocol.py:45-49 | a name extracted is never blank and carries no surrounding white space |
| Protocol.FindJsonObjects | apps/api/src/app/agents/protocol.py:52-72 | the finder loop returns the objects kept by a test, as the recursive specification defines them, and ends on the length left |
| Protocol.FindToolJsonObjects | apps/api/src/app/agents/protocol.py:52-72 | the same with the test of the code: the text decodes to an object with a tool name |
| Protocol.FindsInOrder | apps/api/src/app/agents/protocol.py:52-72 | on any content the results are slices at increasing, disjoint positions, each balanced and each kept by the test |
| Protocol.FindsPrinted | apps/api/src/app/agents/protocol.py:52-72 | on brace-free prose interleaved with printed objects the finder returns exactly the top-level objects kept, in order |
| Protocol.FindsToolObjects | apps/api/src/app/agents/protocol.py:52-72 | of such a content, exactly the objects with a non-blank string `tool` |
| ToolCalls.KeyDecides | apps/api/src/app/agents/protocol.py:102-107 | two calls get one key iff their trimmed names are equal and their arguments are equal up to key order at every depth |
| ToolCalls.CollectCalls | apps/api/src/app/agents/protocol.py:96-112 | one tier: raises iff some body decodes to something that is no object, else keeps the first occurrence of every call |
| ToolCalls.FirstsCharacterized | apps/api/src/app/agents/protocol.py:96-112 | the calls kept are a subsequence of the candidates, pairwise distinct, and every candidate equals one that is kept |
| ToolCalls.ParseLlmResponse | apps/api/src/app/agents/protocol.py:88-157 | the tiers as specified; what that returns is said of the texts read alone by SpelledCalls.ParsedIsSpelled |
| ToolCalls.ParsedCallsDistinct | apps/api/src/app/agents/protocol.py:88-157 | whatever the tier, no two calls of a response are the same call |
| ToolCalls.BareNeverRaises | apps/api/src/app/agents/protocol.py:134-149 | the last tier cannot raise, since the finder only hands over objects |
| ToolCalls.PiecesRead | apps/api/src/app/agents/protocol.py:134-149 | the printed objects of a text and their decoded members are read alike, one by one |
| ToolCalls.ParsedPrinted | apps/api/src/app/agents/protocol.py:88-157 | a reply of prose and printed objects yields the first occurrences of the calls read off their members, which are the calls their texts spell (SpelledCalls.ReadIffSpelled) |
| SpelledCalls.ReadIffSpelled | apps/api/src/app/agents/protocol.py:96-109 | a text is read as a call iff it decodes to an object that has the call's non-blank name under `tool`, its arguments under `arguments`, or none and they are {}, and its id under `id`, or none; it makes a tier raise iff it decodes to anything but an object |
| SpelledCalls.DictIsNamed | apps/api/src/app/agents/protocol.py:45-49 | the name extracted from an object is the trimmed name of the call it is a dictionary of, and there is one iff there is such a call |
| SpelledCalls.ParsedIsSpelled | apps/api/src/app/agents/protocol.py:88-157 | whatever the reply: the first tier whose texts spell a call decides; of the calls spelled, those that no earlier one equals are returned, in order, with name, arguments and id; a tier read with a text that is JSON but no object raises; strict leaves the bare objects alone; a reply without calls keeps its text |
| SpelledCalls.PrintedReturned | apps/api/src/app/agents/protocol.py:134-157 | of brace-free prose and printed objects, with no fence that spells a call, exactly the distinct calls the objects spell are returned, in order |
| SpelledCalls.CallsComeBack | apps/api/src/app/agents/protocol.py:88-157 | round trip: calls no two of which are the same, each as the members of an object in any order, with any others, printed in any way, come back just so from bare objects amid prose, from tool_call fences and from JSON blocks |
| SpelledCalls.EncodedStandsFor | apps/api/src/app/agents/protocol.py:97-109 | a dictionary of a call, as the encoder prints it in any style, is such an object |
| ResponseText.OwnTakenIff | apps/api/src/app/agents/protocol.py:133-151 | of such a reply, each object that becomes a call is itself what is taken out of the text iff none of their texts occurs before its own place in what is left by then |
| ResponseText.TextIsLeftover | apps/api/src/app/agents/protocol.py:133-157 | and then the text of the response is the reply without those objects, stripped iff there are any |
| ResponseText.EarlierTextGoes | apps/api/src/app/agents/protocol.py:133-151 | when an object that is no call holds the text of the call after it, the text is taken out of that object and the call's own stays |
| ResponseText.NestedTextGoesFirst | apps/api/src/app/agents/protocol.py:133-151 | an input for which it does |
| NativeToolCalls.ParseNativeToolCalls | apps/api/src/app/agents/protocol.py:336-360 | over any series of responses sharing one `seen` set, each returns what it adds to the first occurrences over all of them, with the stripped text, or None iff it adds nothing |
| NativeToolCalls.TextOrValue | apps/api/src/app/agents/protocol.py:341-350 | an object given as JSON text and as a value makes the same call, with the trimmed name and that object for arguments |
| NativeToolCalls.NewCallsAreAsked | apps/api/src/app/agents/protocol.py:336-360 | for any items: of the calls they ask for, by their names and by the object given or decoded from the text given, or {} when there is neither, exactly those that are the same as no past and no earlier one are returned, in order |
| NativeToolCalls.EitherWay | apps/api/src/app/agents/protocol.py:341-350 | an object given as a value and its text in any style ask for the same call |
| NativeToolCalls.DifferentComeBack | apps/api/src/app/agents/protocol.py:336-360 | items that ask for calls no two of which are the same, none of them a past one, return exactly these, in order |
| DistributedLock.DistributedLock.AcquireLock | apps/api/src/app/core/cache.py:173-197 | one step of the lock system and its answer; other keys are untouched |
| DistributedLock.DistributedLock.ReleaseLock | apps/api/src/app/core/cache.py:199-222 | likewise, with the flag set as the code sets it (true when the script answers 0) |
| DistributedLock.DistributedLock.ExtendLock | apps/api/src/app/core/cache.py:224-246 | likewise; only the expiry of the own key changes |
| DistributedLock.AccountsAreExact | apps/api/src/app/core/cache.py:163-246 | over every interleaving: a client that holds a lease by its own replies and the clock is the owner the server holds, with that expiry, and conversely |
| DistributedLock.LeaseIsExclusive | apps/api/src/app/core/cache.py:163-246 | no two clients hold a lease at one time, in any run |
| DistributedLock.HolderIsUndisturbed | apps/api/src/app/core/cache.py:173-246 | while a client holds the lease, no other scripted acquire succeeds and no release or extend of another changes the store |
| DistributedLock.DeadlineLasts | apps/api/src/app/core/cache.py:173-246 | without a release of its own, and with only positive extensions, a client that has a deadline keeps one through any calls of anybody |
| DistributedLock.LeaseLasts | apps/api/src/app/core/cache.py:173-246 | so a lease lasts: as long as its own deadline is ahead, the store holds that client's identifier |
| DistributedLock.FlagMeaning | apps/api/src/app/core/cache.py:173-222 | over every run the `acquired` flag says only that a scripted acquire succeeded and no scripted release has succeeded since |
| DistributedLock.AnswersAreExact | apps/api/src/app/core/cache.py:173-246 | after any calls of anybody: with the flag clear acquire answers whether nobody holds a lease, release True and extend False; with the flag up acquire answers True, and release and extend whether the caller holds the lease |
| DistributedLock.CallsTakeEffect | apps/api/src/app/core/cache.py:173-246 | an acquire or extend for a positive time that answers True by its script makes its caller the holder until that time has passed; such a release leaves no holder and the flag clear |
| DistributedLock.ReleaseHandsOver | apps/api/src/app/core/cache.py:173-222 | so a holder's release answers True and whoever asks next, with the flag clear and for a positive time, is given the lease |
| DistributedLock.AcquireAnswersWithoutLease | apps/api/src/app/core/cache.py:173-222 | exactly when an acquire answers true with no lease behind it |
| DistributedLock.LateReleaseThenAcquire | apps/api/src/app/core/cache.py:173-222 | the trace: a release after expiry leaves the flag up, and the next acquire answers true while another client holds the lease |
| Resilience.CircuitBreaker.CanExecute | apps/api/src/app/core/resilience.py:39-55 | admits as the specification says and makes exactly its transition |
| Resilience.CircuitBreaker.Begin | apps/api/src/app/core/resilience.py:78-86 | the part of `call` before the function: the admission, and the half-open count |
| Resilience.CircuitBreaker.RecordSuccess | apps/api/src/app/core/resilience.py:57-64 | the whole new state after a success |
| Resilience.CircuitBreaker.RecordFailure | apps/api/src/app/core/resilience.py:66-76 | the whole new state after a failure |
| Resilience.ReachableIsSafe | apps/api/src/app/core/resilience.py:39-93 | any calls in flight, any order: closed implies fewer failures than the threshold, half-open implies at most the maximum of calls |
| Resilience.FieldsAreHistory | apps/api/src/app/core/resilience.py:39-93 | the last failure time and the half-open count are what the history of calls says they are |
| Resilience.ProbesAreBounded | apps/api/src/app/core/resilience.py:44-55 | one half-open period lets at most the maximum through |
| Resilience.OpenAdmitsExactlyAfterRecovery | apps/api/src/app/core/resilience.py:44-50 | an open circuit admits iff the recovery time has passed since the last failure of all |
| Resilience.OpenKeepsOut | apps/api/src/app/core/resilience.py:39-93 | over whole runs: from an opening, nothing is admitted and the circuit stays open before that time, whatever late calls report |
| Resilience.CountIsPeak | apps/api/src/app/core/resilience.py:57-76 | while closed the count is the maximum over all suffixes, since the last close, of failures minus successes |
| Resilience.OpensExactlyAtThreshold | apps/api/src/app/core/resilience.py:66-76 | the circuit opens exactly at the first outcome that takes that maximum to the threshold |
| Resilience.StuckUntilOutcome | apps/api/src/app/core/resilience.py:39-93 | a half-open circuit at its maximum keeps its state over calls and time iff no outcome is recorded, admits nothing so long, and is closed or reopened by the first outcome |
| Resilience.LostProbes | apps/api/src/app/core/resilience.py:39-93 | the run that leads there, at every threshold and maximum |
| Retry.ExecuteWithResilience | apps/api/src/app/core/resilience.py:155-195 | the retry loop around the breaker: ending, number of calls, sleeps, clock and breaker, all as specified |
| Retry.LoopIsBounded | apps/api/src/app/core/resilience.py:168-195 | whatever the function does: at most one call more than retries, a scheduled sleep between any two, a value iff the last call gave one |
| Retry.EndingsAreExact | apps/api/src/app/core/resilience.py:168-195 | how the loop ends, by its last call: a value or the breaker's own error at once, another exception iff no retry is left, else a refusal; with negative retries nothing is called |
| Retry.LoopIsRun | apps/api/src/app/core/resilience.py:78-93 | whatever the function does, the loop is a run of the breaker's steps: per call a begin, the time it takes and its outcome, between calls the time slept, at a refusal one more begin; clock and breaker are those reached |
| Retry.CallsAreAdmitted | apps/api/src/app/core/resilience.py:78-86 | each of these calls is made in a state that admits it, and a refusal comes from one that does not |
| Retry.SuccessIffReturned | apps/api/src/app/core/resilience.py:82-93 | that run records a success iff the loop returns a value |
| Retry.ReturnCloses | apps/api/src/app/core/resilience.py:78-93 | a call that returns at once, over an open circuit past its recovery time or a half-open one with room, leaves the circuit closed with no failures |
| Retry.ReturnCountsDown | apps/api/src/app/core/resilience.py:57-93 | over a closed circuit n failures that do not trip it and then a return leave max(0, f + n - 1) |
| Retry.AlwaysFailing | apps/api/src/app/core/resilience.py:155-195 | a function that always fails is called until the first failure whose sleep ends before the circuit would admit again, or to the end; the breaker's error iff one blocks |
| Retry.FailsFast | apps/api/src/app/core/resilience.py:155-195 | with delays below the recovery time: exactly min(retries + 1, threshold - failures) calls, and the breaker's error iff threshold - failures <= retries |
| Retry.SleepIsBounded | apps/api/src/app/core/resilience.py:182-193 | all sleeping of one call is between half and the whole of the schedule of capped delays, jitter included |
| Retry.SleepsAreDue | apps/api/src/app/core/resilience.py:182-193 | every sleep is between half and the whole of min(base * e^k, cap), and without jitter just that |
| Retry.JitterReaches | apps/api/src/app/core/resilience.py:188-190 | with jitter every delay from half to the whole is reached |
| Retry.TimeAddsUp | apps/api/src/app/core/resilience.py:168-195 | the whole takes what its calls take and what is slept between them, and nothing else |
| Retry.GeometricSchedule | apps/api/src/app/core/resilience.py:182-186 | below the cap the schedule is a geometric series |
| Retry.ExactSleep | apps/api/src/app/core/resilience.py:168-195 | without jitter and below the cap an always failing call sleeps exactly base * (2^n - 1) |
| CircuitBreaker.CircuitBreaker.State | apps/api/src/app/core/circuit_breaker.py:26-32 | reading the state property and the transition it makes |
| CircuitBreaker.CircuitBreaker.Trip | apps/api/src/app/core/circuit_breaker.py:34-38 | the whole state after opening |
| CircuitBreaker.CircuitBreaker.BeforeCall | apps/api/src/app/core/circuit_breaker.py:40-47 | admits iff specified; the whole new state |
| CircuitBreaker.CircuitBreaker.OnSuccess | apps/api/src/app/core/circuit_breaker.py:49-53 | a success gives the initial state from any state |
| CircuitBreaker.CircuitBreaker.OnFailure | apps/api/src/app/core/circuit_breaker.py:55-61 | the whole new state after a failure |
| CircuitBreaker.ReachableIsSafe | apps/api/src/app/core/circuit_breaker.py:26-61 | failures below the threshold in every state, opening time set iff not closed and never in the future, half-open calls within the maximum and equal to those admitted |
| CircuitBreaker.ClosedIffShortStreak | apps/api/src/app/core/circuit_breaker.py:40-61 | in every run the circuit is closed iff fewer than threshold failures came in since the last success |
| CircuitBreaker.BeforeTimeout | apps/api/src/app/core/circuit_breaker.py:26-61 | from an opening to its timeout a call is admitted iff the streak since the last success is below the threshold |
| CircuitBreaker.OpenKeepsOut | apps/api/src/app/core/circuit_breaker.py:26-61 | with no success recorded in between nothing is admitted before the timeout |
| CircuitBreaker.LateSuccessCloses | apps/api/src/app/core/circuit_breaker.py:40-61 | and with one it can be, at every threshold: t + 1 calls in flight, t fail and open the circuit, the last succeeds and closes it at the moment of opening |
| CircuitBreaker.StuckUntilOutcome | apps/api/src/app/core/circuit_breaker.py:26-61 | a half-open circuit at its maximum keeps its state over calls, reads and time iff no outcome is recorded, admits nothing so long, and is closed or reopened by the first outcome |
| CircuitBreaker.LostProbes | apps/api/src/app/core/circuit_breaker.py:26-61 | the run that leads there, at every threshold and maximum |
| Sse.ToSseFormat | apps/api/src/app/core/sse.py:24-48 | the line list joined as the code joins it is every line of the message ended by a line feed and one empty line |
| Sse.StreamAll | apps/api/src/app/core/sse.py:50-80 | the whole of a stream: the messages up to its closing, then the done event unless it is closed, or the error event when the source fails first |
| Sse.SplitTerminated | apps/api/src/app/core/sse.py:43-45 | splitting at line feeds loses nothing: the pieces, each ended again, are the text and one line feed |
| Sse.MessageHeard | apps/api/src/app/core/sse.py:24-48 | one message, whatever was heard before, dispatches one event with its type, data and the carried id, and sets a positive retry time |
| Sse.StreamHeard | apps/api/src/app/core/sse.py:24-48 | every stream of clean messages, parsed by sections 9.2.5 and 9.2.6 of the WHATWG HTML Standard, is heard as it was sent: empty data, trailing line feeds and leading spaces included |
| Sse.HeardIffClean | apps/api/src/app/core/sse.py:24-48 | and a stream is heard as it was sent iff no data holds CR, no event or id CR or LF, and no id NUL |
| Sse.DumpsNoBreak | apps/api/src/app/core/sse.py:38-39 | no serialized value holds a line end |
| Sse.DictClean | apps/api/src/app/core/sse.py:38-45 | so a dictionary is always sent as one data line |
| Sse.DictHeard | apps/api/src/app/core/sse.py:38-48 | and its event's data loads as the dictionary sent |
| Sse.StreamIsHeard | apps/api/src/app/core/sse.py:50-80 | of a stream of clean messages exactly these are heard: each message up to the closing with its type and text or dictionary, then, unless it was closed before the last, the failure's text in an error event, or else, unless it was closed, one done event |
| Qdrant.Merge | apps/api/src/app/adapters/qdrant_client.py:216-233 | the merge loop, sort and cut give the specified list |
| Qdrant.MergedIsTopK | apps/api/src/app/adapters/qdrant_client.py:207-233 | if each scope answers with a top-k of its points and ids identify points, the merge is a top-k of the union: scores descending, ids distinct, no point left out scores above one returned, length the smaller of k and the union's size |
| Qdrant.DisjointLength | apps/api/src/app/adapters/qdrant_client.py:207-233 | for disjoint scopes the length is min(k, the sum of both sizes) |
| Qdrant.SortIsStable | apps/api/src/app/adapters/qdrant_client.py:232 | sorting keeps the order of hits of any one score |
| Qdrant.TiesKeepOrder | apps/api/src/app/adapters/qdrant_client.py:216-233 | ties come out in the order they came in, local hits first |
| Qdrant.UniqueHolds | apps/api/src/app/adapters/qdrant_client.py:218-229 | de-duplication keeps one hit per id and loses no id |
| Qdrant.SortHolds | apps/api/src/app/adapters/qdrant_client.py:232 | sorting gives descending scores and a permutation |
| Qdrant.MergedIsTopKIff | apps/api/src/app/adapters/qdrant_client.py:210-233 | and whatever the ids, the merge of two top-k answers is a top-k of the union iff every hit dropped for its id is outdone by k of the hits kept |
| Qdrant.SharedIdLosesBest | apps/api/src/app/adapters/qdrant_client.py:210-233 | the input for which it is none: a point rewritten between the two queries, whose better reading is dropped |
| CollectionCache.QdrantAdapter.BeginRefresh | apps/api/src/app/adapters/qdrant_client.py:53-57 | a refresh begins iff the time to live has passed |
| CollectionCache.QdrantAdapter.EndRefresh | apps/api/src/app/adapters/qdrant_client.py:66-81 | the listing is stored with the time the refresh began |
| CollectionCache.QdrantAdapter.InvalidateCache | apps/api/src/app/adapters/qdrant_client.py:113-114 | the whole new state after an invalidation |
| CollectionCache.AnswerIsDated | apps/api/src/app/adapters/qdrant_client.py:53-95 | over every interleaving, every answer, those after a failed refresh included, is what the server held at its date or later: the start of the refresh that landed, or of the one that filled the cache; but for a failed refresh over a cache that was invalidated or never filled |
| CollectionCache.StaleAtMostTtl | apps/api/src/app/adapters/qdrant_client.py:53-95 | on a hit that is less than 300 seconds ago |
| CollectionCache.ListingServes | apps/api/src/app/adapters/qdrant_client.py:53-95 | a listing that lands is what is answered for 300 seconds from when its refresh began, whatever happens but another landing or an invalidation; then the server is asked again |
| CollectionCache.FailedRefreshIsOld | apps/api/src/app/adapters/qdrant_client.py:83-95 | the run in which a failed refresh is answered with what the server held any time ago |
| CollectionCache.ReadsOwnWrites | apps/api/src/app/adapters/qdrant_client.py:53-134 | after an invalidation, whatever comes next, every answer is something the server held since, iff the cache and every listing read by a refresh under way are what the server holds; the same for the answers to calls begun since |
| CollectionCache.FailedRefreshHidesChange | apps/api/src/app/adapters/qdrant_client.py:83-114 | the run in which it is not: a collection is created, and the next refresh fails |
| CollectionCache.UnfailedReadsOwnWrites | apps/api/src/app/adapters/qdrant_client.py:53-134 | calls begun after the invalidation whose own refresh does not fail are answered so iff no refresh under way has read a listing other than the server's and younger than the time to live |
| CollectionCache.LostInvalidation | apps/api/src/app/adapters/qdrant_client.py:53-134 | the run in which such a refresh lands over the invalidation and a created collection stays unseen |
| Publication.BuildDomainCandidates | apps/api/src/app/agents/operation_publication.py:557-576 | the loops give the specified list of domains |
| Publication.CollectedHolds | apps/api/src/app/agents/operation_publication.py:557-576 | the list holds exactly the non-blank stripped domains given, each once |
| Publication.CandidatesAreExact | apps/api/src/app/agents/operation_publication.py:557-576 | they stand in the order in which they were first given: by the context, as discovered, the fallback |
| Publication.GroupsAreDisjoint | apps/api/src/app/agents/operation_publication.py:48-262 | every registry key is its own slug, stripped and non-empty, and found in one group of the table only |
| Publication.RegistryScope | apps/api/src/app/agents/operation_publication.py:48-262 | an entry has collection scope iff its slug begins with `collection.` |
| Publication.RuleHolds | apps/api/src/app/agents/operation_publication.py:273-434 | a rule's canonical slug is in the registry, under the rule's domain or as the shared `collection.info` |
| Publication.DottedRules | apps/api/src/app/agents/operation_publication.py:273-434 | the only rules on dotted slugs outside collections are those of the two sql operations |
| Publication.PlainSqlKeepsNames | apps/api/src/app/agents/operation_publication.py:273-434 | under `sql` a rule publishes one of two operations under the name it came with, with the domain before it |
| Publication.PublicationIsFixed | apps/api/src/app/agents/operation_publication.py:488-542 | for every raw slug and every domain list, publishing the published slug again gives it again |
| Publication.PublishedSlugs | apps/api/src/app/agents/operation_publication.py:488-542 | a result is a registry entry under its own slug, or a name outside `collection.` published as a system operation of its prefix |
| Publication.TablesDecide | apps/api/src/app/agents/operation_publication.py:502-524 | a registry slug whose domain may be used is published as itself; else the rule of the first candidate domain that has one decides; else a collection's slug is not published |
| Publication.OutsideIsExact | apps/api/src/app/agents/operation_publication.py:525-629 | any other slug: with a domain it may use before its first dot it is published as it is; else, with one before its first underscore, with a dot there; else under the first candidate domain it begins with; else not at all |
| Publication.ScopeIsName | apps/api/src/app/agents/operation_publication.py:488-542 | the scope of every published operation can be read off its name |
| Publication.DottedIsNotCollectionLike | apps/api/src/app/agents/operation_publication.py:595-629 | putting the dot in never makes a slug look like a collection's |
| Capability.IndexBySlug | apps/api/src/app/agents/capability_resolver.py:71-81 | the index holds, under every slug, the tools of that slug in order, and nothing under the empty one |
| Capability.MatchBinding | apps/api/src/app/agents/capability_resolver.py:83-102 | the search over the index answers as the direct search does: first raw slug of the binding, first tool that carries and fits it; None iff no tool serves; no other answer is one |
| Capability.ResolveForCollection | apps/api/src/app/agents/capability_resolver.py:45-69 | one candidate for each eligible and served binding, in table order, no canonical slug twice, none missing |
| Capability.EligibleIff | apps/api/src/app/agents/capability_resolver.py:57-66 | every operation of a collection type's own table is let in, but the two vector searches on a collection without one |
| Capability.ResolutionIsExact | apps/api/src/app/agents/capability_resolver.py:45-102 | a collection gets, of its table's operations, all those and only those that some discovered tool offers by slug and source, in table order, each with the first tool discovered for its most preferred slug |
| Capability.PublishesItsBinding | apps/api/src/app/agents/operation_publication.py:436-469 | in its collection's context every raw slug of every binding is published as that binding's operation, for every list of discovered domains, iff it is not one of the two raw sql slugs under a list that holds `sql` or `system` |
| Capability.QueryIsPublishedAsSystem | apps/api/src/app/agents/operation_publication.py:488-542 | the input for which it is not: a database's query tool discovered under `sql` |
| Capability.CandidatePublishes | apps/api/src/app/agents/tool_resolver.py:116-121 | the same for every candidate the matcher returns |
| Preflight.BuildSingleOperation | apps/api/src/app/agents/operation_builder.py:66-128 | an operation is built iff its slug was not seen, and then it is |
| Preflight.BuildOperations | apps/api/src/app/agents/operation_builder.py:32-64 | the loop over tools keeps the first operation of every slug |
| Preflight.AllBuiltHolds | apps/api/src/app/agents/operation_builder.py:93-128 | the operations built for one instance have distinct slugs, each a function of its name |
| Preflight.AllBuiltIsExact | apps/api/src/app/agents/operation_builder.py:32-128 | the operations are those of the tools that are published and find their slug free, in order, each with its tool's published name, risk, side effects and target |
| Preflight.RouterIsExact | apps/api/src/app/agents/operation_router.py:105-206 | of the runtime records exactly those with a collection that are ready and permitted are let in, in order, each with its instance and with its tools' operations renamed after the collection |
| Preflight.StartIsExact | apps/api/src/app/agents/operation_router.py:105-217 | the list is theirs and then that of the system tools, with a binding for every operation |
| Preflight.RuntimeExecutionGraph.Add | apps/api/src/app/agents/runtime_graph.py:37-38 | the binding is stored under its own slug |
| Preflight.RuntimeExecutionGraph.FilterByOperationSlugs | apps/api/src/app/agents/runtime_graph.py:43-48 | exactly the bindings of the slugs allowed remain |
| Preflight.RuntimeExecutionGraph.Merge | apps/api/src/app/agents/runtime_graph.py:50-53 | the union, the other graph's bindings winning |
| Preflight.Route | apps/api/src/app/agents/operation_router.py:105-217 | list, instances and graph after the router, for any collections and system tools |
| Preflight.RoutedSlugsAreUnique | apps/api/src/app/agents/operation_router.py:176-206 | with dot-free, distinct collection slugs all operation slugs are distinct, those of system operations included |
| Preflight.CollectionSlugIsInjective | apps/api/src/app/agents/operation_router.py:181-183 | for dot-free collection slugs, collection and name can be read off an operation slug |
| Preflight.ApplyCollectionFilter | apps/api/src/app/agents/execution_preflight.py:424-516 | the whole state after the collection filter |
| Preflight.ApplyOperationPolicyFilter | apps/api/src/app/agents/preflight_policy.py:8-52 | the whole state after the policy filter; what is left is what every set flag permits, and the slugs reported are those of the others |
| Preflight.PolicyIsExact | apps/api/src/app/agents/preflight_policy.py:20-52 | the policy filter leaves exactly the operations that offend no set flag, in order, and of the graph their bindings, unchanged |
| Preflight.PolicyForbids | apps/api/src/app/agents/preflight_policy.py:28-43 | forbid_write_in_prod leaves no operation with side effects or of risk above safe, forbid_high_risk none of risk above safe, forbid_destructive none that is destructive; a safe one without side effects survives every policy |
| Preflight.CollectionIsExact | apps/api/src/app/agents/execution_preflight.py:434-511 | the collection filter leaves exactly the instances whose collection the agent is bound to and the user may see, in order, and, when that is not all, exactly the operations and bindings of slugs that have a system or remaining owner |
| Preflight.CollectionKeeps | apps/api/src/app/agents/execution_preflight.py:490-511 | the collection filter keeps list and graph in step and only removes |
| Preflight.PolicyKeeps | apps/api/src/app/agents/preflight_policy.py:27-52 | so does the policy filter |
| Preflight.FiltersCommuteIff | apps/api/src/app/agents/execution_preflight.py:228-242 | on a list in step with the graph the two filters give the same operations, instances and graph in either order iff the collection filter removes nothing or no operation shares its slug only with owned operations that the policy blocks |
| Preflight.FiltersCommute | apps/api/src/app/agents/execution_preflight.py:228-242 | so they do whenever slugs are unique, too |
| Preflight.SharedSlugDiffers | apps/api/src/app/agents/execution_preflight.py:228-242 | the input for which they do not: two routed collections of one slug |
| Preflight.PreparedInStep | apps/api/src/app/agents/execution_preflight.py:228-242 | after router and filters the graph's keys are exactly the listed slugs; with clean slugs each operation has its own binding |
| Preflight.RemainingAreOwned | apps/api/src/app/agents/execution_preflight.py:490-511 | every operation left is a system one or belongs to an instance left |
| Preflight.DeniedSurvivesIff | apps/api/src/app/agents/execution_preflight.py:496-511 | an operation of a denied collection survives iff it was published as a system operation or its instance slug is shared with a collection let through |
| Preflight.SharedInstanceSurvives | apps/api/src/app/agents/execution_preflight.py:490-511 | two routed collections of one instance, the agent bound to the first: the second keeps its operation and is no instance |
| Preflight.SystemOperationSurvives | apps/api/src/app/agents/execution_preflight.py:490-511 | a routed database with a query tool published as a system operation, the agent bound to nothing: no instance is left, the operation is |
| RateLimit.Redis.Incr | apps/api/src/app/api/deps.py:347-358 | INCR on a counter with an expiry |
| RateLimit.Redis.Expire | apps/api/src/app/api/deps.py:347-360 | EXPIRE on a counter |
| RateLimit.Check | apps/api/src/app/api/deps.py:334-368 | one request: the verdict and the counters, as specified |
| RateLimit.VerdictIsDue | apps/api/src/app/api/deps.py:334-368 | after any requests of any clients the verdict is the one the history gives: admitted iff fewer than rpm earlier requests in the minute window and fewer than rph earlier ones within their minute's quota in the hour window |
| RateLimit.LetThroughIff | apps/api/src/app/api/deps.py:342-365 | by counting: a request is let through iff fewer than rpm earlier ones of its client fall in its minute and fewer than rph of those in its hour found room in theirs; Retry-After is 60 or 3600 less the seconds gone |
| RateLimit.CounterOutlivesWindow | apps/api/src/app/api/deps.py:345-358 | the expiry never takes a counter away while its window lasts |
| RateLimit.Bounds | apps/api/src/app/api/deps.py:334-368 | a minute window admits at most rpm, an hour window at most rph, any sixty seconds at most 2 * rpm |
| RateLimit.RetryLandsOnNextWindow | apps/api/src/app/api/deps.py:349-365 | Retry-After is between 1 and the window and lands exactly on the next window's start |
| RateLimit.RetrySucceeds | apps/api/src/app/api/deps.py:334-368 | the verdict on coming back exactly then, nothing else asked meanwhile: admitted after a refusal by the hour, and after one by the minute iff the hour is new or has room |
| RateLimitSteps.AloneIsChecked | apps/api/src/app/api/deps.py:334-368 | the commands of a request with nothing in between are the check as a whole |
| RateLimitSteps.RunsAlone | apps/api/src/app/api/deps.py:345-365 | four steps take any request from its start to its end, in any state |
| RateLimitSteps.PlacesAreTallied | apps/api/src/app/api/deps.py:345-365 | however the commands of any requests interleave and however late they come: the places a window gives out are the sum, over each time its counter has begun, of the counts of that time up to the limit; the counter holds the count of its own time and outlives the window |
| RateLimitSteps.RestartIsLate | apps/api/src/app/api/deps.py:345-360 | only a request that counts after its window is over finds its counter gone |
| RateLimitSteps.PromptIsClean | apps/api/src/app/api/deps.py:345-360 | so none does in a run in which every count comes before its window is over |
| RateLimitSteps.InterleavedBounds | apps/api/src/app/api/deps.py:334-368 | in a run in which none does, of the requests that read the clock in a minute window at most rpm are let in, in an hour window at most rph, in any sixty seconds at most 2 * rpm |
| RateLimitSteps.AdmissionBound | apps/api/src/app/api/deps.py:334-368 | and by the times at which they are let in: sixty seconds let in at most (k + 2) * rpm, when none takes more than k minutes from reading the clock |
| RateLimitSteps.SlowRequestsArriveTogether | apps/api/src/app/api/deps.py:345-365 | the run in which n requests of n minutes, every count in time, are let in at one moment, whatever rpm is |
| RateLimitSteps.OverfillsIff | apps/api/src/app/api/deps.py:345-365 | in any run, the step that gives out the first place too many is exactly one that counts within the limit, its counter being gone or begun again, with the limit reached |
| RateLimitSteps.FirstRestartOverfills | apps/api/src/app/api/deps.py:345-365 | in a run in which no counter was found gone, that step is exactly one that finds it gone with the limit reached |
| RateLimitSteps.SlowRequestIsLetIn | apps/api/src/app/api/deps.py:342-358 | the run that does: two requests of one minute at a limit of one |
| OperationExecutor.PostWithRetry | apps/api/src/app/agents/operation_executor.py:402-435 | posts until the first answer that is not worth a retry or the last attempt, a number the answers determine; n posts sleep 200 * (2^(n-1) - 1) ms and attempt n is reported |
| OperationExecutor.DirectOperationExecutor.InitializeFresh | apps/api/src/app/agents/operation_executor.py:358-387 | one handshake: its posts and the session, if the answer opens one |
| OperationExecutor.DirectOperationExecutor.McpInitialize | apps/api/src/app/agents/operation_executor.py:343-356 | an unexpired session, in the cache at first or once the lock is had, is returned without a post; otherwise one handshake, stored with its time to live over what the others left |
| OperationExecutor.DirectOperationExecutor.InvokeRemoteMcp | apps/api/src/app/agents/operation_executor.py:129-182 | the rounds of posts of one call are the only ones the answers call for, the calls go out under the session found or opened, the result is that of the last, and of the cache only the provider's entry changes: dropped when refused, set with its time to live when opened |
| OperationExecutor.PostsAreBounded | apps/api/src/app/agents/operation_executor.py:129-182 | at most 4 * (R + 1) posts in all and 2 * (R + 1) that carry the call |
| OperationExecutor.AnswerDecides | apps/api/src/app/agents/operation_executor.py:150-173 | under a cached session the first answer that is not one of 408, 409, 425, 429, 500, 502, 503, 504 or a retryable failure decides, or the last attempt: below 400 it is the result, 400, 401, 403 and 410 ask for a handshake, others fail |
| OperationExecutor.HandshakeDecides | apps/api/src/app/agents/operation_executor.py:129-173 | in any call: a handshake opens a session iff its answer is below 400 and carries an identifier, and then the call goes out; after a refusal both are made once more, and the last answer is the result iff it is below 400 |
| McpSessions.OneHandshake | apps/api/src/app/agents/operation_executor.py:343-356 | over all interleavings at most one handshake of `_mcp_initialize` is in flight |
| McpSessions.GivenIsFresh | apps/api/src/app/agents/operation_executor.py:343-356 | a session given out is the last one stored for its provider, not rejected since, and younger than the time to live |
| McpSessions.CacheIsLatest | apps/api/src/app/agents/operation_executor.py:129-173 | the cache is what the history of handshakes and rejections says |
| McpSessions.RejectDropsOther | apps/api/src/app/agents/operation_executor.py:163-168 | over any run, a rejected caller drops a session other than the one it was rejected under iff, since it was given that one, another was stored and neither dropped nor stored over |
| McpSessions.NewSessionIsDropped | apps/api/src/app/agents/operation_executor.py:163-168 | the run of two callers in which a new session that nobody was refused is dropped |
| McpSessions.SessionServesAll | apps/api/src/app/agents/operation_executor.py:343-356 | while a session lasts and nobody is rejected no step starts another handshake or changes it |
| McpSessions.EverybodyGetsIt | apps/api/src/app/agents/operation_executor.py:343-356 | so every caller in that time is given it |
| RunContext.TrimObservationOutput | apps/api/src/app/agents/run_context_compact.py:55-70 | what fits is returned whole; otherwise the result is the prefix up to the one place where a field no longer fits, and the marker |
| RunContext.SizesAddUp | apps/api/src/app/agents/run_context_compact.py:62-69 | a dictionary's serialized length is the sum of its fields' own serialized lengths |
| RunContext.TrimmedSize | apps/api/src/app/agents/run_context_compact.py:55-70 | what is cut has at most 18 characters more than max_bytes, or than two if that is larger; it is within max_bytes iff the kept fields, less one the marker replaces, leave twenty, and at the bound iff they leave two and none is replaced |
| RunContext.BoundIsTight | apps/api/src/app/agents/run_context_compact.py:55-70 | for any kept fields and any field that no longer fits there is a limit at which the bound is reached |
| RunContext.MarkerSize | apps/api/src/app/agents/run_context_compact.py:66 | the marker alone has 20 characters |
| RunContext.RunContextCompact.AddFact | apps/api/src/app/agents/run_context_compact.py:85-87 | a new fact is appended, the oldest dropped beyond twenty |
| RunContext.RunContextCompact.RecordAction | apps/api/src/app/agents/run_context_compact.py:89-92 | the signature is appended, the oldest dropped beyond ten; the count goes up |
| RunContext.RunContextCompact.IsLooping | apps/api/src/app/agents/run_context_compact.py:101-106 | true iff the last three signatures kept are one |
| RunContext.LoopingIsExact | apps/api/src/app/agents/run_context_compact.py:89-106 | over any run: a loop is reported iff the last three actions of the whole run have one signature |
| RunContext.FactsAreBounded | apps/api/src/app/agents/run_context_compact.py:85-87 | over any run: at most twenty facts, all different, none blank, all of them added, the last one among them |
| RunContext.FactsAreLastKept | apps/api/src/app/agents/run_context_compact.py:85-87 | exactly: a fact is kept iff it is not blank and not among the last twenty kept before it, and the facts are the last twenty kept, in order |
| RunContext.DifferentFactsStay | apps/api/src/app/agents/run_context_compact.py:85-87 | of facts that are all different and not blank the last twenty are left |
| RunContext.RecordedAreLast | apps/api/src/app/agents/run_context_compact.py:89-92 | of the signatures recorded the last ten are left, in order |
| Ldap.SafeLoginIsEscape | apps/api/src/app/core/ldap_client.py:130 | the five replacements in sequence equal one simultaneous escape, for every login |
| Ldap.LoginReadBack | apps/api/src/app/core/ldap_client.py:126-131 | decoding the result by section 3 of RFC 4515 gives the login back |
| Ldap.SafeLoginIsSafe | apps/api/src/app/core/ldap_client.py:130 | no bare special character is left, and different logins stay different |

## Left out

- JSON numbers with a fraction or an exponent, NaN and the infinities: values are integers, strings, booleans, null, arrays and objects.
- Lone surrogate escapes: the decoder of the model rejects a text that has one, since characters are Unicode scalar values; digit and recursion limits of the host are not modelled.
- ToolCalls.ParseLlmResponse: the fenced bodies and the text without them are given; the two regular expressions that find them are not modelled.
- ResponseText.TextIsLeftover: one way only, since taking out an earlier occurrence can by chance leave the same text; when it is the object itself that is taken out is settled both ways by OwnTakenIff.
- `extract_json_from_text`, which tries the whole text, a fence and then the scanner: it adds no case of its own to the scanner's.
- NativeToolCalls.ParseNativeToolCalls: names and contents that are not strings, and the shapes of the enclosing response that hold no call, are not modelled.
- The SHA-256 and MD5 digests of canonical texts: the texts themselves are what is proved injective.
- DistributedLock: errors of the Redis client and lost replies; two calls in flight of one lock object.
- Resilience, Retry: a cancelled call, which records no outcome, appears as a call that begins and never finishes; sleeps take exactly their delay.
- Jitter is any factor from one half to one; its distribution is not modelled.
- RateLimit: one request is one step; its commands are separate steps in RateLimitSteps. Not modelled: the path that lets requests pass when Redis fails, clocks of the application and of Redis that differ, and the choice of the key for a client.
- OperationExecutor: credentials, HTTP clients and their lock, the parsing of a tool's result, and the time at which posts and sleeps of different calls interleave; the concurrency of the session cache is in McpSessions.
- McpSessions: steps on values, one for what a caller does between two awaits; the fields they change are those of OperationExecutor.DirectOperationExecutor, whose methods are given what others did while the caller waited for the lock, and are alone at their other awaits. Not modelled: a cancelled caller, and a provider that ends a session by itself, which shows only as a rejected call; the second post of a rejected caller, which changes no session, is part of the step that stores.
- Sse: heartbeats and `sse_error`; None and the empty string are one value for event and id, as the printer treats them.
- Qdrant: filters, vectors and the two queries themselves: each query's answer is given; a failed search answers with the empty list.
- CollectionCache: the details stored for a collection besides its name; a server change and the invalidation that follows it are two steps, but one client's awaits are not ordered further.
- Publication: titles, descriptions and result kinds of operations, and `build_collection_workflow_steps`.
- Capability: lower-casing of the collection type, which is given normalized.
- Preflight: readiness, credentials, missing requirements and audit records; the context of a binding is reduced to its collection; `_determine_execution_mode` is settled by one branch.
- Ldap: `template.format` around the escaped login, and all connections.
- HTTP endpoints, database models, queues, logging, metrics, prompt texts, the web client, and the embedding and rerank services.
