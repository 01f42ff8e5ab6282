# Verified model of the agent framework's core

This project models the parts of the framework where a mistake would be silent: the versioned
thread log with its two caches, the repair and extraction of JSON in model output, the bounded
loops and limiters, the prompt window, and the projections of a log. `dafny verify dfyconfig.toml`
checks all of it.

## How it is laid out

- `Text`, `Widths`, `Executions`, `ThreadTypes`: strings, integer limits, runs of a state machine;
  steps, logs, the control-state envelope, and what every store operation decides on the document
  that it has loaded.
- `SharedLog`, `SharedLogInvariant`, `SharedLogTheorems`, `LogHistory`, `RunHistory`, `KnownDocs`,
  `SoloRuns`, `UntaggedBody`, `Workloads`, `StaleCaches`: the protocol as a state machine. Any
  number of hosts each hold a log memo and a cache entry over one object of the backing store; each
  call is a program counter that moves by atomic steps (memo, entry, or one storage request). The
  backing store keeps its own history, so "no lost update" is a statement about every version.
- `Storage`, `ThreadStore`, `ControlState`: the same operations as objects that change in place, for
  one call at a time, against functions of the state before.
- `JsonRepair`, `JsonExtract`, `JsonSerialized`: the two repairs against the reading of section 7 of
  RFC 8259, and the cut of JSON of any layout out of prose.
- `InflightLimiter`, `BudgetMeter`, `WorkflowRunner`, `AgentLoop`: limits and termination.
- `ErrorLedger`, `Transcript`: the recency list of failures and the token window.
- `PhaseTime`, `PhaseView`, `History`: phase accounting, the materialised view, paging, unread.
- `StrictSchema`: the rewrite of JSON schemas.

## Assumptions

- Every write of the backing store gets a fresh etag.
- An error of a storage call either had no effect or, in the shared log, was a write or a deletion
  that took effect without its caller learning of it (`LoseAck`). `append_step` is then
  at-least-once; without such losses it writes at most once. A read that fails transiently starts
  again from its first step (`Retry`).
- In the objects, `faults` counts the storage calls that failed, so each contract says which of its
  failures are the storage's and which are its own.
- A call can stop at any point (`Abort`): an error, a cancelled future or a crash.
- The in-process write lock of one host only forbids interleavings, so what is proved of all runs
  covers the program with it. Where a run is shown to lose an update, in `Workloads`, the run
  respects the lock of every host.
- Timestamps are integers in milliseconds; argument hashes are injective; JSON parsers are
  parameters where text is not printed by the program itself.

## What was found

- The stacked caches can lose an update. `get_bytes` asks for the etag before the body; if the
  object appears in between, the body is kept with no etag, and such an entry is served unchecked
  from then on (src/core/src/storage.rs:218). The next write of that host starts from the stale
  body under the true etag. An unconditional `save` of control state leaves such an entry without
  any race. The exact condition on callers is `Workloads.SafeExactlyWithoutHazards`: thread logs
  are safe if and only if nobody calls `get` and nobody deletes, control states if and only if
  nobody saves and nobody deletes. `SharedLogTheorems.CarefulCallersLoseNothing` still allows `get`
  once the object exists, and `Workloads.SafeExactlyFromTagged` says from which states careful
  callers may start.
- A stale belief that an object is missing hides a stored log from every `get` of that host
  (`StaleCaches.StoredLogIsDenied`, `StaleCaches.GetIsDenied`). It ends exactly when a call of the
  host meets a conflict, notes a write, or keeps a body that it was already reading
  (`StaleCaches.BeliefChangesOnly`), and costs an append at most one conflict.
- `get` returns a log of another schema exactly when the memo holds one under the etag now present
  (`ThreadStore.Store.Get`). The write path puts it there before it refuses it
  (src/core/src/session/store_io.rs:92-95); `StaleCaches.ForeignLogIsServed` is the run.
- `raise_agent_steps` lowers the call ceilings of a budget that was not built by `agent_steps`, even
  below what has been granted (`BudgetMeter.NeverOverchargedExactlyWhenBalanced`).
- The newest transcript entry is not always rendered: without a prelude the least ceiling that
  guarantees it is 1539 tokens, and model budgets start at 1024
  (`Transcript.ModelBudgetsKeepNewest`).
- A backslash outside string literals can mislead the control-character repair
  (`JsonRepair.StrayBackslashMisleads`); `JsonRepair.EscapeKeepsReadingExactlyWhen` and
  `JsonRepair.RepairsSucceedExactlyWhen` say exactly when it does.
- The schema rewrite treats the map of properties as a schema too, so properties named `$ref` or
  `properties` change the set of declared names (`StrictSchema.NamesKeptExactlyWhen`).

## Model

| member | source | states |
|---|---|---|
| SharedLogTheorems.NoLostUpdate | src/core/src/session/store_io.rs:77-185 | In every interleaving of any number of hosts and calls in which no host holds an untagged body, each version of the object is its writer's operation applied to the version that it replaced, and an acknowledged call wrote a version |
| SharedLogTheorems.GetIsLinearizable | src/core/src/session/store_io.rs:259-280 | `get` returns a document that the store held at some instant of the call, whichever cache served it |
| SharedLogTheorems.WritesAtMostOnce | src/core/src/session/store_io.rs:131-149 | A call writes at most one version unless one of its own acknowledgements is lost; retries after conflicts never write twice |
| SharedLogTheorems.CarefulRunOk | src/core/src/storage.rs:208-236 | Under that condition every reachable state keeps the invariant and has no untagged body |
| SharedLogInvariant.StepOk | src/core/src/session/store_io.rs:77-185 | Every event of any host keeps the invariant: a cached pair holds a body at least as new as its etag, and history is lossless |
| SharedLogInvariant.FitsNow | src/core/src/session/store_io.rs:82-94 | A body filed under the etag now present is the body now present, although it may have been read after the etag |
| SharedLogInvariant.FitsHeld | src/core/src/session/store_io.rs:259-268 | A body filed under an etag seen during a call was itself in the store during the call |
| SharedLogInvariant.WriteLossless | src/core/src/session/store_io.rs:102-125 | A conditional write that the store accepts was computed from exactly the document that it replaces |
| SharedLog.Advance | src/core/src/session/store_io.rs:77-185 | One atomic step of a call changes only its own program point, its own host's caches and, at an accepted write or a deletion, the end of the history |
| SharedLogTheorems.CarefulCallersLoseNothing | src/core/src/storage.rs:181-236 | No update is lost through both caches when nothing is deleted or saved unconditionally and `get` is not called before the object exists, a condition on the calls alone |
| SharedLogTheorems.EntryAfter | src/core/src/storage.rs:144-152 | A step leaves every cached body tagged unless it keeps a body under no etag or notes an unconditional save |
| SharedLogInvariant.LoseAckOk | src/core/src/storage.rs:284-314 | A write or deletion that takes effect although its acknowledgement is lost, and is retried, still keeps the invariant |
| SharedLogInvariant.RetryOk | src/core/src/storage.rs:316-318 | A read that fails in the middle and starts again keeps the invariant |
| Workloads.SafeExactlyWithoutHazards | src/core/src/storage.rs:208-258 | A workload with appends on a thread log loses no update in any interleaving that the hosts' write locks allow if and only if it has neither `get` nor deletion; one with mutations on a control state if and only if it has neither `save` nor deletion |
| Workloads.SafeExactlyFromTagged | src/core/src/storage.rs:208-236 | From any known state with no call under way, careful callers under the hosts' write locks lose nothing if and only if no host holds an untagged body |
| Workloads.GetRace | src/core/src/storage.rs:223-229 | One `get` and one append from the empty store reach an untagged body |
| Workloads.DeleteRace | src/core/src/storage.rs:223-229 | Two writes and a deletion reach one as well |
| Workloads.SaveLeavesUntagged | src/core/src/storage.rs:169-179 | One unconditional save leaves one on its host without any race |
| UntaggedBody.UntaggedOnlyByLateBody | src/core/src/storage.rs:223-229 | In any run the first untagged body comes from an unconditional save, or from keeping a body during a call in which the object was first absent and then stored |
| UntaggedBody.UntaggedLoses | src/core/src/storage.rs:218 | Once a host holds an untagged body, one append (or mutation) of a peer and one on that host lose the peer's update |
| SoloRuns.SoloCall | src/core/src/session/store_io.rs:151-185 | A call from a host with empty caches that runs alone commits its decision on the present document |
| SoloRuns.SoloGet | src/core/src/session/store_io.rs:259-280 | A lone `get` from a host with empty caches ends with the stored log, remembered under its etag, if it is of this schema, and otherwise fails and remembers nothing |
| SoloRuns.SoloLoadCall | src/core/src/session/control_state.rs:133-149 | A lone `load` from such a host ends with the stored envelope |
| SoloRuns.SoloSettles | src/core/src/session/store_io.rs:217-365 | A lone thread operation that finds nothing to do answers so, and one on anything that is not a log of this schema fails; neither writes |
| SoloRuns.TrustedCall | src/core/src/storage.rs:218 | A call on a host with an untagged body writes from that body under the true etag |
| StaleCaches.StoredLogIsDenied | src/core/src/storage.rs:230-233 | A concrete run: `get` finds nothing, a peer appends, and `get` on the first host denies the stored log |
| StaleCaches.GetIsDenied | src/core/src/storage.rs:253-258 | While a host believes that the object is missing, every `get` that begins there ends in not found or in a failure, whatever peers store |
| StaleCaches.BeliefChangesOnly | src/core/src/storage.rs:120-152 | That belief begins exactly when a call of the host finds nothing or deletes, and ends exactly when one keeps a body, notes a write or a save, or meets a conflict |
| StaleCaches.BeliefCostsOneConflict | src/core/src/session/store_io.rs:131-149 | With peers writing at will, after one conflict an append compares with what the store has answered since, and a further conflict means that somebody wrote meanwhile, unless the host plants the belief again |
| StaleCaches.ForeignLogIsServed | src/core/src/session/store_io.rs:92-95 | An append to a log of another schema is refused, and the `get` that follows returns that log from the memo |
| RunHistory.PresentLogIsReplay | src/core/src/session/store_io.rs:151-185 | In every run of thread calls without an untagged body the present log is the serial composition of the writes since it was last absent, with the result of its last `Complete` step |
| RunHistory.PresentLogFields | src/core/src/session/store_io.rs:151-365 | Field by field, without the decisions: the steps of the present log are those that the writes since it was last absent added, in order; its title is that of the last title write; it is locked exactly if one of them locked it; its result is that of its last `Complete` step |
| RunHistory.VersionsHaveEffects | src/core/src/session/store_io.rs:151-365 | Every version of a run keeps each field of the one before, except for what its operation promises to change, and was written only where the operation had something to do |
| RunHistory.UnchangedFoundNothing | src/core/src/session/store_io.rs:320-365 | A call that succeeds without a write met a log, held during the call, in which it had nothing to do |
| RunHistory.AcknowledgedAppendStays | src/core/src/session/store_io.rs:179-184 | The step of an acknowledged append is at one position in every version from then on until a deletion |
| RunHistory.CarefulAppendIsThere | src/core/src/session/store_io.rs:179-184 | With careful callers every acknowledged step is in the present log |
| RunHistory.AppendsAreDistinct | src/core/src/session/store_io.rs:151-185 | Two acknowledged calls never share a version |
| RunHistory.RunOnlyGrows | src/core/src/session/store_io.rs:320-365 | Between deletions of a run steps are only added, a lock is never released and a non-empty locked title never changes |
| RunHistory.CarefulPreflightsAgree | src/core/src/session/store_io.rs:217-257 | With careful callers all preflight calls of all hosts return the same position and phase |
| RunHistory.PresentPayloadIsComposition | src/core/src/session/control_state.rs:164-195 | In every run of one suite's calls without an untagged body the stored payload is the composition of its successful mutations in the order of their conditional writes |
| RunHistory.CarefulPayloadIsComposition | src/core/src/session/control_state.rs:164-195 | The same from a condition on the calls alone |
| RunHistory.PresentStateIsLastWriters | src/core/src/session/control_state.rs:164-195 | With mutations of any suites the payload is the composition of the last writer's mutations since another suite wrote, starting from none; the suites equal to the writer's up to trimming read it, and no other |
| LogHistory.FirstPhaseIsStable | src/core/src/session/store_io.rs:236-250 | In a lossless history of thread operations the first phase step never changes and no later preflight call writes one |
| LogHistory.AnswerIsFirstPhase | src/core/src/session/store_io.rs:236-256 | What a preflight call returns is position and name of the first phase step of a log that the store held |
| LogHistory.PlanFollows | src/core/src/session/store_io.rs:151-185 | Every write of a thread operation extends the steps by at most one and keeps result, lock and locked title right |
| ThreadTypes.DecodeEncode | src/core/src/session/control_state.rs:66-90 | A stored payload decodes to itself exactly for the suite ids equal up to trimming, and is hidden from all others |
| ThreadTypes.FirstPhase | src/core/src/session/store_io.rs:236-240 | The first phase step, if any |
| ThreadTypes.DecisionIsPromised | src/core/src/session/store_io.rs:151-365 | A thread operation on a log of this schema, or on none, writes exactly where it has something to do, and then changes exactly the fields it promises to: an append or preflight no title or lock, a title operation no step |
| ThreadTypes.ForeignDocIsRefused | src/core/src/session/store_io.rs:92-95 | A thread operation is refused exactly on a document that is not a log of this schema |
| ThreadTypes.MutationIsPromised | src/core/src/session/control_state.rs:164-195 | A mutation hands the caller's function its own suite's payload, and none where the state is absent or another suite's |
| Text.TrimIdempotent | src/core/src/session/control_state.rs:75 | Trimming a trimmed id changes nothing |
| Text.TrimIsMiddle | src/core/src/session/control_state.rs:75 | The trimmed string is the one piece with no white space at its edges and only white space around it |
| Storage.SoleWriterCannotTell | src/core/src/storage.rs:158-263 | Every sequence of calls by a sole writer gets the same answers through the adapter as from the plain store, JSON compared as JSON |
| Storage.CallAgrees | src/core/src/storage.rs:158-258 | One call on alike stores with coherent entries answers alike and keeps both relations |
| Storage.CachingStorageAdapter.GetBytes | src/core/src/storage.rs:208-236 | Serves a tagged entry only under its etag, an untagged or missing one unchecked, and otherwise remembers what it reads; a failure changes nothing |
| Storage.CachingStorageAdapter.GetJson | src/core/src/storage.rs:160-167 | The JSON of those bytes, or the error of whichever of the two failed |
| Storage.CachingStorageAdapter.PutBytes | src/core/src/storage.rs:238-246 | Stores the bytes and remembers them with no etag, or fails without effect |
| Storage.CachingStorageAdapter.PutJson | src/core/src/storage.rs:169-179 | The same for a value printed compactly |
| Storage.CachingStorageAdapter.PutJsonIfEtagMatches | src/core/src/storage.rs:181-206 | Stores only under the expected etag; the entry afterwards is the new body under its etag, or gone after a conflict |
| Storage.CachingStorageAdapter.DeleteObject | src/core/src/storage.rs:248-251 | Removes the object and remembers that it is missing |
| Storage.CachingStorageAdapter.HeadEtag | src/core/src/storage.rs:253-258 | Denies the object while it is remembered as missing, and otherwise asks the store |
| ThreadStore.Store.LoadForWrite | src/core/src/session/store_io.rs:77-100 | The stored log under its present etag, or nothing only if the object is absent or believed missing |
| ThreadStore.Store.SaveIfEtagMatches | src/core/src/session/store_io.rs:102-125 | Writes exactly the log under exactly the expected etag, or changes nothing and, on conflict, forgets the entry |
| ThreadStore.Store.AppendStepLocked | src/core/src/session/store_io.rs:151-185 | The step is added to the stored log, with the result of a `Complete` step; title, lock and schema version stay, other objects are untouched; a failure changes nothing and is a storage fault, a conflict after a stale belief, or an unreadable log |
| ThreadStore.Store.AppendStep | src/core/src/session/store_io.rs:131-149 | With no peer writing meanwhile the step is appended, unless the storage fails or the log is unreadable; a stale belief that the object is missing costs one conflict and never the call |
| ThreadStore.Store.PhaseIndex | src/core/src/session/store_io.rs:236-240 | Finds the first phase step |
| ThreadStore.Store.EnsurePreflightPhaseStep | src/core/src/session/store_io.rs:217-257 | Returns the first phase step, adding one only where there is none and changing nothing else |
| ThreadStore.Store.SetTitleIfAbsent | src/core/src/session/store_io.rs:320-341 | Sets the title to the given one exactly where it is absent or empty, and changes nothing else |
| ThreadStore.Store.LockTitle | src/core/src/session/store_io.rs:343-365 | Sets and locks the title exactly where it is not locked, and changes nothing else |
| ThreadStore.Store.Get | src/core/src/session/store_io.rs:259-280 | Returns the stored log and leaves it in the memo under its etag; not found exactly if the object is absent or believed missing, failures apart; any other failure is a storage fault or an unreadable log; a log of another schema exactly if the memo holds it under the present etag |
| ThreadStore.Store.Delete | src/core/src/session/store_io.rs:302-318 | Removes the log, forgets it and believes it missing, or changes nothing |
| ControlState.ControlStateStore.LoadRaw | src/core/src/session/control_state.rs:92-103 | The stored envelope under its present etag, or nothing only if it is absent or believed missing |
| ControlState.ControlStateStore.SaveRawIfEtagMatches | src/core/src/session/control_state.rs:110-131 | Writes exactly under the expected etag, or changes nothing |
| ControlState.ControlStateStore.Mutate | src/core/src/session/control_state.rs:164-195 | The caller's function is applied once to its suite's payload in the store, none if the state is absent or another suite's, and its result is what is stored; it fails only by a storage fault, the caller's refusal, a malformed state or a stale belief; a conflict is not retried |
| ControlState.ControlStateStore.Save | src/core/src/session/control_state.rs:151-162 | Overwrites unconditionally and leaves an untagged body, or changes nothing |
| ControlState.ControlStateStore.Load | src/core/src/session/control_state.rs:133-149 | The stored payload where its own suite wrote the object, and none otherwise |
| ControlState.ControlStateStore.Delete | src/core/src/session/control_state.rs:206-210 | Removes the state and believes it missing, or changes nothing |
| ControlState.MutatedIsLoadedBack | src/core/src/session/control_state.rs:66-90 | After a mutation exactly the suites equal up to trimming read a payload, and nobody meets a malformed envelope |
| JsonRepair.EscapeControlChars | src/core/src/json_repair.rs:16-68 | The scanner loop computes the recursive reading of one character after another |
| JsonRepair.RepairInvalidEscapes | src/core/src/json_repair.rs:75-112 | The scanner loop with its look-ahead computes the recursive repair |
| JsonRepair.RepairPreservesMeaning | src/core/src/json_repair.rs:75-112 | With no backslash outside literals the two repairs keep the lenient reading, and section 7 of RFC 8259 accepts the result with that reading exactly when no irreparable defect was there |
| JsonRepair.RepairsSucceedExactlyWhen | src/core/src/json_repair.rs:243-248 | On every text section 7 of RFC 8259 accepts the doubly repaired text with the original's reading if and only if nothing irreparable is there and, after escape repair, the control-character scanner agrees with JSON at every control character |
| JsonRepair.EscapeKeepsReadingExactlyWhen | src/core/src/json_repair.rs:16-68 | On every text and from every state escaping keeps the lenient reading if and only if it replaces nothing outside the literals |
| JsonRepair.NoStrayBackslashAgrees | src/core/src/json_repair.rs:50-65 | Without a backslash outside literals the two scanners always agree |
| JsonRepair.RepairKeepsReading | src/core/src/json_repair.rs:75-112 | Escape repair keeps the lenient reading of every text, literal boundaries included |
| JsonRepair.EscapeKeepsReading | src/core/src/json_repair.rs:16-68 | Control-character escaping keeps it where no backslash is outside literals |
| JsonRepair.RepairMakesValid | src/core/src/json_repair.rs:75-112 | After escape repair every backslash in a literal introduces an escape or ends the text |
| JsonRepair.EscapeMakesClean | src/core/src/json_repair.rs:16-68 | After escaping no literal holds a raw character below U+0020, and introducers stay valid |
| JsonRepair.RepairFixpoint | src/core/src/json_repair.rs:75-112 | Escape repair changes nothing exactly where all introducers are valid |
| JsonRepair.RepairIdempotent | src/core/src/json_repair.rs:75-112 | Repairing escapes twice is repairing once, on all texts |
| JsonRepair.EscapeIdempotent | src/core/src/json_repair.rs:16-68 | Escaping twice is escaping once, on all texts and from every scanner state |
| JsonRepair.CleanIsStrict | src/core/src/json_repair.rs:243-248 | On clean texts the reading of section 7 of RFC 8259 and the lenient one agree, or an irreparable defect remains |
| JsonRepair.StrictIsClean | src/core/src/json_repair.rs:233-236 | Every text that section 7 of RFC 8259 accepts is clean and reads the same leniently |
| JsonRepair.RepairsKeepWellFormed | src/core/src/json_repair.rs:16-112 | Both repairs are the identity on well-formed text |
| JsonRepair.StrayBackslashMisleads | src/core/src/json_repair.rs:50-65 | The hypothesis is needed: a concrete text with a backslash outside literals is repairable but stays malformed |
| JsonRepair.ResilientParseKeepsMeaning | src/core/src/json_repair.rs:233-250 | Whatever the chain returns is the parse of a text with the original's meaning, and it succeeds if the doubly repaired text parses |
| JsonExtract.FindStart | src/core/src/json_repair.rs:123-130 | Finds the next opener |
| JsonExtract.FindEnd | src/core/src/json_repair.rs:132-176 | Finds the character that ends the value, by the stack scan |
| JsonExtract.ExtractAllJsonValues | src/core/src/json_repair.rs:116-181 | The loop returns the recursive list of cuts |
| JsonExtract.CutsAreDisjoint | src/core/src/json_repair.rs:116-181 | On every text the cuts are disjoint slices in order, at most `max`, each beginning with an opener |
| JsonExtract.ValueIsCutExactly | src/core/src/json_repair.rs:132-176 | An object or array printed with any layout is cut exactly at its end whatever follows, with brackets, quotes and escapes in its strings |
| JsonExtract.CrossValue | src/core/src/json_repair.rs:136-175 | Inside a value every well-formed value is crossed without ending the scan |
| JsonExtract.ExtractionIsExact | src/core/src/json_repair.rs:116-181 | From opener-free prose alternating with printed values, exactly the first `max` values come out, in order |
| JsonSerialized.SerializedValuesComeOut | src/core/src/json_repair.rs:116-181 | Objects and arrays printed compactly or indented, whatever their strings hold, come out of opener-free prose exactly and in order, the first `max` of them |
| JsonSerialized.LaidPrints | src/core/src/json_repair.rs:116-181 | Compact and indented printing are instances of the layouts that extraction is proved for |
| JsonSerialized.LaidWellFormed | src/core/src/json_repair.rs:136-175 | Every value whose literals hold no bracket or quote has such a layout |
| JsonSerialized.LiteralBodyIsBody | src/core/src/json_repair.rs:143-156 | The escaped content of any string is the inside of one literal |
| InflightLimiter.NoLostWakeup | src/runtime/src/llm/router.rs:173-208 | In every run with barging and spurious wakeups the limit is the configured one, or one if that is zero; the count equals the live permits and stays within it, and while a thread sleeps permits and notified threads fill it |
| InflightLimiter.GrantedExactlyBelowLimit | src/runtime/src/llm/router.rs:181-188 | In every run a thread that arrives or wakes gets a permit exactly when fewer than the configured number are out, and otherwise sleeps |
| InflightLimiter.ReleaseWakesOne | src/runtime/src/llm/router.rs:190-199 | In every run a release gives back one permit and wakes exactly one sleeper, if there is one |
| InflightLimiter.StepKeepsInv | src/runtime/src/llm/router.rs:181-199 | Each critical section keeps that invariant |
| InflightLimiter.ServeOne | src/runtime/src/llm/router.rs:181-199 | From every such state one more waiter gets its permit after at most one release and one resumption |
| InflightLimiter.WaitersDrain | src/runtime/src/llm/router.rs:173-208 | From every such state all waiters can be served by releases and resumptions alone |
| InflightLimiter.Limiter.Acquire | src/runtime/src/llm/router.rs:181-188 | One pass of `acquire` gives a permit exactly when fewer than the limit are held, and is the monitor's step |
| InflightLimiter.Limiter.Release | src/runtime/src/llm/router.rs:190-196 | `release` is the monitor's step, and its guard against zero never applies |
| BudgetMeter.NeverOverchargedExactlyWhenBalanced | src/core/src/budget.rs:119-152 | With interleaved compare-exchange charges and raises, grants equal the counter and stay under the ceiling if and only if the budget's call ceilings are not above what raising its steps would give |
| BudgetMeter.AgentStepsNeverOvercharged | src/core/src/budget.rs:71-85 | Budgets built by `agent_steps` are always safe |
| BudgetMeter.StepKeepsInv | src/core/src/budget.rs:125-152 | Each atomic step keeps grants equal to the counter and every pending charge below the ceiling |
| BudgetMeter.SpendAll | src/core/src/budget.rs:125-152 | A lone caller can spend a ceiling to the last charge |
| BudgetMeter.PerRun | src/core/src/budget.rs:71-79 | Eight times the agent steps, at least eight and at most the 32-bit limit, so the final clamp never applies |
| BudgetMeter.RaiseOnlyRaises | src/core/src/budget.rs:120-123 | Raising a balanced budget lowers no ceiling |
| BudgetMeter.CeilingsOfRun | src/core/src/budget.rs:120-123 | In every run the step ceiling is the highest of the first one and those it was raised to; the call ceilings are the first ones until a raise and then the allowance for the step ceiling |
| WorkflowRunner.Run | src/core/src/workflow/runner.rs:54-143 | The loop ends at the first point where the outcomes say so, with the result they say, and calls the exhaustion handler exactly once for a spent budget and never otherwise |
| WorkflowRunner.RunIsBounded | src/core/src/workflow/runner.rs:54-143 | At most `max_total_steps` turns, at most `max_phase_steps` per progress and once more, and fewer waits in a row than the larger limit |
| WorkflowRunner.PhaseBound | src/core/src/workflow/runner.rs:58-87 | Turns so far are bounded by the phase budget times the progress outcomes |
| WorkflowRunner.WeightBoundsWaits | src/core/src/workflow/runner.rs:88-119 | The waiting counter is between once and twice the number of waits in a row |
| WorkflowRunner.StuckExactlyWhen | src/core/src/workflow/runner.rs:88-119 | With budget left the n-th wait in a row ends the run exactly when n, and once more for each idle wait, reaches the idle limit at an idle wait or the active limit at an active one |
| WorkflowRunner.BudgetSpentExactlyWhen | src/core/src/workflow/runner.rs:58-87 | The phase budget ends a run exactly where the last `max_phase_steps` turns made no progress, and otherwise the hard ceiling does exactly where `max_total_steps` turns are done |
| AgentLoop.RetryClassified | src/core/src/retry.rs:11-41 | The result is that of the first call that is not retryable, or of the call after the last delay |
| AgentLoop.Meter.ChargeLlm | src/core/src/budget.rs:125-152 | A charge succeeds exactly below the ceiling and counts one |
| AgentLoop.Agent.InvokeOnce | src/core/src/agent/llm_gateway.rs:93-120 | A provider call starts only after its charge, and a refusal means that the ceiling is reached |
| AgentLoop.Agent.Invoke | src/core/src/agent/llm_gateway.rs:123-149 | At most three attempts, each charged |
| AgentLoop.Agent.ChatOnce | src/core/src/agent/run_loop.rs:384-435 | One chat and its parse: at most three charged attempts; the run goes on after a step, or after an answer that can be retried, up to two of those an iteration |
| AgentLoop.Agent.ChatAndParse | src/core/src/agent/run_loop.rs:384-435 | At most nine charged attempts for one iteration; a step, on the last answer parsed, or the end of the run |
| AgentLoop.Agent.ExecuteTool | src/core/src/agent/run_loop.rs:267-336 | At most one charge, and no success without it |
| AgentLoop.Agent.RunUntilBlock | src/core/src/agent/run_loop.rs:144-249 | Over the whole trace of charges, answers, parses, tool outcomes and verdicts: the run ends at the first happening that calls for it and as it calls for it; no action fails more than three times, and the run falls back for failures exactly when the last outcome is the third failure of its action; it ends, whoever else charges the meter, within the agent steps left, nine attempts an iteration, the calls left and one tool call an iteration |
| AgentLoop.FallsBackExactlyAtThirdFailure | src/core/src/agent/run_loop.rs:238-248 | Of a finished run, by its trace alone: it fell back for failures exactly when its last outcome was the third failure of one action and the policy let it go on, and no earlier outcome was |
| AgentLoop.RecordFailure | src/core/src/budget.rs:213-223 | Counts one more failure of the action and of no other, and reports the third |
| ErrorLedger.LedgerIsLru | src/core/src/agent/transcript.rs:63-85 | Recording takes the list of the eight most recent distinct fingerprints of a history, with counts since entry and latest excerpts, to that of the longer history |
| ErrorLedger.ByLastUseIsSorted | src/core/src/agent/transcript.rs:63-85 | The reference order is right: every fingerprint of the history once, by its last record |
| ErrorLedger.ReferenceShape | src/core/src/agent/transcript.rs:47-61 | At most eight entries and no fingerprint twice |
| ErrorLedger.Ledger.RecordFailure | src/core/src/agent/transcript.rs:63-85 | After any sequence of records the entries are exactly the reference |
| ErrorLedger.Ledger.Render | src/core/src/agent/transcript.rs:91-103 | The printed ledger, entry after entry |
| ErrorLedger.EntryTextShows | src/core/src/agent/transcript.rs:91-103 | A line names the fingerprint, the count in decimal digits that read back as it, and the excerpt |
| ErrorLedger.EntryTextTellsAll | src/core/src/agent/transcript.rs:91-103 | Lines of one fingerprint that look alike belong to equal entries |
| ErrorLedger.DecimalReadsBack | src/core/src/agent/transcript.rs:97-100 | A printed count has no leading zero and reads back as itself |
| Transcript.FromModel | src/core/src/agent/transcript.rs:20-29 | The ceiling is what the output reserve leaves of the context, and at least 1024 (the cap on the reserve never matters); the share of an entry is an eighth and at least 256 |
| Transcript.TruncateEntry | src/core/src/agent/transcript.rs:267-274 | Short texts stay; a long one becomes the prefix that fills the limit but for one character, with the marker, or the bare marker when the limit is below 14 |
| Transcript.AgentTranscript.constructor | src/core/src/agent/transcript.rs:174-198 | A new transcript holds the fixed texts, the converted prelude and the question |
| Transcript.AgentTranscript.RenderHead | src/core/src/agent/transcript.rs:213-238 | The head's two messages are the joined, separately truncated system texts and the question |
| Transcript.AgentTranscript.Render | src/core/src/agent/transcript.rs:213-255 | The output is the head and then exactly the longest end of the tail whose estimate fits |
| Transcript.WindowWithinBudget | src/core/src/agent/transcript.rs:237-255 | The estimate of everything sent is at most the ceiling or the head's own |
| Transcript.WindowMonotone | src/core/src/agent/transcript.rs:237-255 | The window is determined, and a larger ceiling never shows less |
| Transcript.KeptMessages | src/core/src/agent/transcript.rs:240-255 | The messages after the opening are the newest entries', in order |
| Transcript.MessageSays | src/core/src/agent/transcript.rs:118-149 | An entry speaks with its own role and, up to the cut, in its own words; outcomes and rejections say what they are |
| Transcript.JoinSplits | src/core/src/agent/transcript.rs:213-238 | Joining is by line breaks and keeps the order of the texts |
| Transcript.NewestKeptExactlyWhen | src/core/src/agent/transcript.rs:213-255 | For any budget and number of prelude entries the newest tail entry is in every window if and only if the worst case fits |
| Transcript.ModelBudgetsKeepNewest | src/core/src/agent/transcript.rs:20-29 | For model budgets without a prelude that is from 1539 tokens on and not below; with three prelude entries or more it is never |
| Transcript.WorstIsWorst | src/core/src/agent/transcript.rs:213-255 | A head whose texts all fill their entries costs exactly the worst case |
| Transcript.WorstContentsFill | src/core/src/agent/transcript.rs:213-255 | Such a transcript exists for every number of prelude entries, its ledger of failures included |
| Transcript.OpeningCost | src/core/src/agent/transcript.rs:214-239 | No head costs more than the worst case leaves for it |
| PhaseTime.TimeIsConserved | src/transport/src/ws/thread_state.rs:270-320 | For chained phase steps in time order one run is open, it is the current phase's, and completed times over all phases add up to last minus first |
| PhaseTime.OpenPhases | src/transport/src/ws/thread_state.rs:270-316 | On every log a phase step closes exactly the phase that it leaves and opens the one it enters |
| PhaseTime.PhaseRunsFromSteps | src/transport/src/ws/thread_state.rs:270-316 | The loop over steps computes the fold |
| PhaseTime.TotalCompletedRuntimeMs | src/transport/src/ws/thread_state.rs:318-320 | The sum of the completed runs |
| PhaseTime.TimeAfterUpdate | src/transport/src/ws/thread_state.rs:318-320 | Changing one phase's runs changes the total by that phase's difference |
| PhaseTime.DeriveCurrentPhaseFromSteps | src/transport/src/ws/thread_state.rs:322-332 | The backward scan finds the last named phase, or `preflight` |
| PhaseTime.CurrentPhaseOfLog | src/core/src/session/types.rs:626-636 | The backward scan finds the last named phase |
| PhaseTime.CurrentPhaseIsLastNamed | src/core/src/session/types.rs:626-636 | The current phase is that of the last phase step whose name is not blank |
| PhaseView.ForwardIsBackward | src/view/src/materialization.rs:29-69 | On every log the forward fold and the backward scans agree on the current phase, and the view has its item |
| PhaseView.OnlyCurrentIsUnfinished | src/view/src/materialization.rs:29-69 | When every phase step names the phase it leaves, every other phase is finished and successful, whatever happened in between |
| PhaseView.ShownTimeIsElapsed | src/view/src/materialization.rs:29-97 | For chained phases in time order the view never shows more time than lies between the first phase step and the last phase or completion step, re-entered phases and repeated completions included |
| PhaseView.ShownTimeWithinRuns | src/transport/src/ws/thread_state.rs:211-216 | Before anything completes, the view's total is at most the total of the phase runs |
| PhaseView.ShownTimeIsWorked | src/view/src/materialization.rs:29-108 | For chained phases none of which is entered twice the view shows exactly the time from each entry to the first completion or the next entry after it |
| PhaseView.ShownTimeIsRuns | src/transport/src/ws/thread_state.rs:211-216 | If in addition nothing completes, the view and the phase runs account for exactly the same time |
| PhaseView.CurrentStandsAsLastDecided | src/view/src/materialization.rs:29-152 | On every log the current phase stands as the last step that decides says: running since it was entered, ok or failed and finished then after a completion, blocked after a stop; its last error is what was last said |
| PhaseView.SwitchesAreLast | src/view/src/materialization.rs:17-28 | On every log the view's suite and agent are those switched to last, blank names ignored |
| PhaseView.ViewCache.ApplyStep | src/view/src/materialization.rs:16-134 | One step changes the view exactly as the fold says |
| PhaseView.ViewCache.EnterPhase | src/view/src/materialization.rs:29-69 | A blank phase changes nothing; otherwise the left phase is finished first and the entered one runs |
| PhaseView.ViewCache.Block | src/view/src/materialization.rs:137-152 | The current phase's item becomes blocked with the message |
| PhaseView.Materialize | src/transport/src/ws/thread_state.rs:198-218 | The materialised view is the fold of the log and its total is the sum over its items |
| History.PagingIsComplete | src/transport/src/ws/history.rs:30-114 | Following the cursor to its end reads every message present at the first call exactly once, in order, although steps are appended in between, in pages within their limits |
| History.WalkReadsEverything | src/transport/src/ws/history.rs:98-113 | The same from any starting cursor |
| History.WalkEnds | src/transport/src/ws/history.rs:98-113 | No walk has more calls than messages and one |
| History.WalkLength | src/transport/src/ws/history.rs:98-113 | With one limit the number of calls is exactly the number of pages needed |
| History.BuildHistory | src/transport/src/ws/history.rs:30-114 | One page is the newest messages below the cursor, and the next cursor is its first number while an older message exists |
| History.NumberedMessages | src/transport/src/ws/history.rs:36-97 | The messages are numbered from one, with content by the display rules |
| History.MessageSays | src/transport/src/ws/history.rs:36-97 | Each message step has its message, with its time and author; a completion shows the first it has of display text, text and answer, and else its rendered payload |
| History.ComputeUnread | src/transport/src/ws/history.rs:6-28 | The result is the last assistant number and the count of assistant numbers above the mark, over the messages of the history |
| History.NothingUnreadExactlyWhen | src/transport/src/ws/history.rs:6-28 | Nothing is unread exactly when the mark has reached the last assistant message |
| History.NumbersFit | src/transport/src/ws/history.rs:6-28 | For logs of at most 2147483647 steps every number fits the 32 bits of the source |
| History.MessagesGrow | src/transport/src/ws/history.rs:36-97 | Appending steps keeps every message and its number |
| StrictSchema.StrictReachesTarget | src/core/src/schema_registry.rs:161-213 | Afterwards no reference has siblings and every object with properties is closed with a sorted, duplicate-free `required` that names them all, at every depth |
| StrictSchema.UnchangedExactlyWhenStrict | src/core/src/schema_registry.rs:161-213 | The rewrite changes nothing if and only if the schema is already so |
| StrictSchema.StrictIsIdempotent | src/core/src/schema_registry.rs:161-213 | A second pass changes nothing |
| StrictSchema.RequiredIsExact | src/core/src/schema_registry.rs:183-213 | `required` names exactly its former string entries and the properties |
| StrictSchema.FieldsAfter | src/core/src/schema_registry.rs:161-213 | A reference keeps its own value and loses its siblings; elsewhere every field but `required` becomes its rewrite, and an object with properties is closed where it did not say |
| StrictSchema.NamesKeptExactlyWhen | src/core/src/schema_registry.rs:168-178 | The rewrite of a properties map keeps its names unless one is `$ref` among others, or `properties` with an object and not both added keys present |
| StrictSchema.EnsureAllPropertiesRequired | src/core/src/schema_registry.rs:183-213 | The loops with sort and dedup compute the one sorted listing |
| StrictSchema.Strictify | src/core/src/schema_registry.rs:161-181 | The recursion in place computes the rewritten tree |
| StrictSchema.ListingIsUnique | src/core/src/schema_registry.rs:210-212 | A set of strings has one sorted duplicate-free listing |

## Left out

- SharedLogTheorems.NoLostUpdate: assumes that no host holds an untagged body, since the code loses updates otherwise; Workloads states the exact conditions.
- SharedLogTheorems.CarefulCallersLoseNothing: gives one direction only, because a `get` of an absent object that meets no racing write is harmless.
- ThreadStore.Store.AppendStep: says nothing about peers writing during the call; SharedLogTheorems.NoLostUpdate and StaleCaches.BeliefCostsOneConflict do.
- Workloads.SafeExactlyFromTagged: speaks of states with no call under way; a call caught between the two requests of a read is covered from the empty store only.
- Workloads.SafeExactlyWithoutHazards: speaks of workloads with appends, or with mutations; those of title and preflight writers alone are not classified.
- JsonRepair.ResilientParseKeepsMeaning: takes the JSON parser as a parameter, as serde is not part of this model.
- JsonSerialized.SerializedValuesComeOut: numbers and literals are texts without brackets and quotes; the layout trees are not shown to cover every text of the grammar, though every position is free.
- JsonExtract.ExtractAllJsonValues: positions count characters where the source counts bytes; slices are the same.
- AgentLoop.Agent.RunUntilBlock: providers, parsers, tools, policies and cancellation answer arbitrarily, ceilings are not raised during the run, the transcript's content is not followed, and a run that ends early because a stop could not be recorded in the store is not covered.
- PhaseView.ShownTimeIsWorked: speaks of phases entered once; an item that is entered again keeps its first runtime, and PhaseView.ShownTimeIsElapsed bounds that case.
- ThreadStore.Store.Delete: deletes the log alone; the side objects under its prefix, and a failure among them after the log is gone, are not part of this model.
- Transcript.NewestKeptExactlyWhen: asks for at least seven tokens an entry and a worst case below the 32-bit limit, which every model budget meets for realistic preludes.
- History.ComputeUnread: numbers are unbounded; beyond the 2147483647 steps of History.NumbersFit the source's 32-bit counters overflow.
- History.BuildHistory: the same.
- PhaseTime.TimeIsConserved: timestamps are integers, so a timestamp that cannot be parsed is not covered.
- PhaseView.Materialize: steps of tools and models have no effect on the view and are one constructor here.
- `append_step_if_new`, whose check and append are not one step.
- `list` and the deletion of side objects by prefix.
- `resilient_parse` beyond its repairs, `try_first_json_value` and `find_first_json_object_end`.
- The in-process write lock as an object, and the map of locks; SoloRuns.Locked says what it allows.
- Sleep durations, timeouts as time, tracing, environment variables and configuration.
- Provider adapters, HTTP, sockets and the terminal interface.
- `root_schema_json_to_json_schema_value`: unwrapping of generated schemas is not part of this model.
- `charge_auto_resume`, a single comparison.
