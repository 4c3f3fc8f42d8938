# Logos Inspector: a verified model

This project models the parts of Logos Inspector in which mistakes are hard to see, and proves what they keep:

- **The native host transport** (`core/src/logos_protocol_host_transport.cpp`): pending requests with their flags, reference-counted scoped clients and subscriptions, the bounded event queue with its block coalescing, fault and teardown.
- **The asynchronous bridge** (`core/src/logos_inspector_async_bridge.cpp`): slots, two indexes, byte budgets, the expiry sweep, id and token allocation, shutdown, and the JSON text it writes.
- **The capability evidence registry** (`src/capabilities/evidence.rs`): leased observations, tracked operations and bounded report histories.
- **The IDL decode stack** (`src/decode`): the variant map, the Borsh byte decoder, instruction arguments from text to words and back, candidate selection and its two ways of dropping duplicates.
- **Two smaller orders**: the bounded lossy text of a block stream (`src/blockchain/bedrock.rs`) and the snapshot order of runtime operations (`qml/state/OperationHistoryVocabulary.js`).

`dafny verify dfyconfig.toml` checks everything.

## How the model is built

Code that runs under a mutex is a state machine: every locked block is one step, steps of different threads interleave in any order, and the theorems are about every run from the initial state. Three layers belong together:

1. `*Model.dfy` gives the state and one function for each step.
2. The lemmas prove an invariant, step by step, and what every step does to each record, told without the step functions by flags, sums, keys and times (`TransportReplies`, `TransportEffects`, `BridgeEffects`, `EvidenceEffects`), and then the theorems over whole runs (`TransportRuns`, `TransportHandles`, `BridgeRuns`, `BridgeOwners`, `EvidenceRuns`).
3. A class (`HostTransport.Transport`, `AsyncBridge.Bridge`, `CapabilityRegistry.Registry`) has the fields of the source and its methods with their loops. Each method is proved to make exactly the step of the model.

The decoders are written twice as well: as functions, about which the round trips are proved, and as methods with cursors and loops, which compute those functions. `BorshExact` and `InstructionTexts` say, type name by type name, what bytes, words and typed texts mean.

What is assumed about code outside the model:

- The protocol library behind the host transport answers an accepted invoke with exactly one callback, possibly before the invoke returns, and a refused one with none. Destroying a client waits for its running callbacks and lets none start afterwards.
- The core behind the bridge answers an accepted call with exactly one callback and a rejected one with none.
- An account id has 32 bytes, and 32 bytes read back from the text they are shown as; a normalized program id is 64 lower-case hexadecimal digits. Both appear as function values (`InstructionModel.Faithful`, `BorshModel.Idl.accountText`).
- The serializer writes the word layout that the instruction decoder fixes: one word for a boolean or an integer of at most 32 bits, two and four for 64 and 128 bits with the low word first, a length word and padded little-endian words for text, a tag word for options.

These statements turned out to hold only under a condition, which is then stated exactly:

- `callbackOwners` of the bridge is not always the number of pending entries and detached ids. In every run the difference is the number of steps so far that reject a call whose entry has already gone, so the two are equal if and only if there was no such step or the bridge is closed (`BridgeOwners.BalanceExact`). A run from the start of the bridge reaches a difference: while a first call, answered and released, has not returned, 2^64 allocations bring its id round to a second `start` (`BridgeOwners.UnbalancedReachable`). That `callbackOwners` is the number of callbacks still to run, and that `free` is last, holds without a condition.
- The composed identity of a decode candidate tells it apart from all others if and only if no field holds a clean separator, a colon without white space beside it; the first character of the program id may be one (`CandidateSelection.SeparableExact`, `CandidateSelection.CollisionExample`).
- A parsed instruction argument decodes from its words if and only if its value holds no vector and is not too deep (`InstructionRoundTrip.ArgumentRoundTrip`).
- An insertion leaves the bounded report history with the same report as an unbounded one if and only if it is not a reduced report for a configuration whose full report was lost (`EvidenceRuns.AgreementExact`).
- A snapshot is newer than itself exactly when it is not terminal and has no known cursor (`SnapshotOrder.StrictExactly`); transitivity needs no cursor at all.

## Model

| member | source | states |
|---|---|---|
| TransportRuns.StepInv | core/src/logos_protocol_host_transport.cpp:239-1880 | every step of every thread keeps the whole invariant and never changes the fate of a request that was decided |
| TransportRuns.RunInv | core/src/logos_protocol_host_transport.cpp:239-1880 | the invariant holds in every state of every run |
| TransportEffects.LifecycleExact | core/src/logos_protocol_host_transport.cpp:239-1880 | every step, on the lifecycle: exactly which steps change it and to what |
| TransportEffects.LifecycleForward | core/src/logos_protocol_host_transport.cpp:239-1880 | in every run the lifecycle only moves forward; it is never opened again, and a fault and an orderly close do not turn into each other |
| TransportEffects.FlagsExact | core/src/logos_protocol_host_transport.cpp:239-1880 | every step, on the setup, worker and event-ownership flags |
| TransportRuns.AtMostOneReply | core/src/logos_protocol_host_transport.cpp:1243-1345 | in every run no admitted request is replied to twice, replies are never taken back, and a request that was cancelled first is never replied to |
| TransportReplies.RepliesExact | core/src/logos_protocol_host_transport.cpp:1204-1345 | every step, on the reply log and on the fate of every request: a completion and a refusal while open, and a failure after a fault, answer exactly the one request they are for, if it was neither answered nor cancelled, with exactly that reply; exactly a cancel, close or failed activation cancels, exactly an admission adds a request, and nothing else changes |
| TransportReplies.RecordsExact | core/src/logos_protocol_host_transport.cpp:1204-1402 | every step, on every pending record: exactly which flags it sets, which record it lets go and what a new one looks like; a request is admitted exactly when open with a live worker, a free id and room by count and by the sum of retained bytes |
| TransportReplies.AnswerStays | core/src/logos_protocol_host_transport.cpp:1243-1345 | a request that a step of a run answers has in every later state exactly one reply, that one |
| TransportReplies.CompletionAnswers | core/src/logos_protocol_host_transport.cpp:1302-1345 | an unanswered request whose callback begins while open has in every later state of the run exactly one reply, what the callback brought |
| TransportReplies.RepliesHaveCauses | core/src/logos_protocol_host_transport.cpp:1243-1345 | every reply in the log of a run was given by a step that answers this request with it |
| TransportRuns.FaultAnswersAll | core/src/logos_protocol_host_transport.cpp:1586-1661 | if a run faults, then when the worker has finished every request open at the fault either was cancelled in between and has no reply at all, or has exactly one reply, the failure; callbacks, refusals and close may interleave |
| TransportRequests.RequestStepFates | core/src/logos_protocol_host_transport.cpp:1277-1345 | a step on one request decides that request at most once and leaves the decided fates of all others alone |
| TransportRequests.FailOneKept | core/src/logos_protocol_host_transport.cpp:1799-1828 | failing one unanswered request after a fault keeps the request invariant and answers exactly that request |
| TransportRequests.NothingLeft | core/src/logos_protocol_host_transport.cpp:1799-1828 | when no unanswered record is left, no request is left open |
| TransportRuns.RecordLifetime | core/src/logos_protocol_host_transport.cpp:1364-1402 | no step erases a pending record while its invoke is on the stack or its callback is owed, except the end of teardown, when its client is destroyed |
| TransportRuns.RecordsOutliveCalls | core/src/logos_protocol_host_transport.cpp:1364-1402 | the same over whole runs |
| TransportRuns.TeardownLifetime | core/src/logos_protocol_host_transport.cpp:1665-1726 | at the end of teardown no erased record has an invoke on the stack or a running callback, and its client handle has been destroyed |
| TransportRuns.ExactAccounts | core/src/logos_protocol_host_transport.cpp:1204-1228 | in every reachable state active invokes and retained bytes are the exact sums over the pending records, within their limits, so the admission subtraction cannot wrap |
| TransportRequests.EraseKeeps | core/src/logos_protocol_host_transport.cpp:1385-1402 | erasing a finished record keeps all accounts exact |
| TransportRequests.AdmitKeeps | core/src/logos_protocol_host_transport.cpp:1204-1228 | admission keeps all accounts exact and within their limits |
| TransportEvents.ThinnedAppend | core/src/logos_protocol_host_transport.cpp:1491-1504 | an appended event keeps the arrivals-with-some-blocks-dropped relation |
| TransportEvents.ThinnedCoalesce | core/src/logos_protocol_host_transport.cpp:1506-1536 | coalescing a burst drops only blocks that a later block follows with only blocks between |
| TransportEvents.ThinnedKeeps | core/src/logos_protocol_host_transport.cpp:1506-1536 | thinning never drops an event that is not a base block |
| TransportEvents.EnqueueKept | core/src/logos_protocol_host_transport.cpp:1491-1536 | enqueueing, coalescing included, keeps the queued byte count exact and within its limit |
| TransportEvents.DeliverKept | core/src/logos_protocol_host_transport.cpp:1616-1656 | delivering or retrying the front event keeps the queue's accounts exact |
| TransportEffects.IngestExact | core/src/logos_protocol_host_transport.cpp:1404-1536 | an arriving event in every case, by the sum of the queued bytes: ignored, delivered at once, appended, put in place of a queue of blocks, or a fault |
| TransportEffects.DeliverExact | core/src/logos_protocol_host_transport.cpp:1636-1656 | the front event is delivered and goes, stays, or makes the transport fault |
| TransportRuns.EventOrder | core/src/logos_protocol_host_transport.cpp:1404-1656 | in every state of every run, faults and closing included: the events delivered since the queue was last dropped, followed by the queued ones, are the arrivals admitted since then, in order, minus superseded blocks; bytes and length are exact and bounded |
| TransportRuns.NothingAfterShutdown | core/src/logos_protocol_host_transport.cpp:1404-1634 | once the worker's shutdown, an emergency close or teardown has dropped the queue, no event is admitted and none delivered any more in the run |
| TransportClients.GuardNeverFires | core/src/logos_protocol_host_transport.cpp:882-924 | a client whose count reached zero is used by no subscription, so the guard at line 913 never fires |
| TransportClients.TableStepKept | core/src/logos_protocol_host_transport.cpp:822-1128 | every block of acquire, release, subscribe and unsubscribe keeps counts, keys, bounds and handles exact, although count and insert are separate blocks |
| TransportEffects.ClientsExact | core/src/logos_protocol_host_transport.cpp:822-924 | every block, on every client: exactly the client with the key is counted up, exactly the released one down, going with its last count, and one is made exactly by a creation that succeeded while serving |
| TransportEffects.SubscriptionsExact | core/src/logos_protocol_host_transport.cpp:926-1128 | every block, on the subscriptions of every key: exactly a committed subscribe counts it up, an unsubscribe down, and one whose call failed is gone |
| TransportSteps.RequestTableKept | core/src/logos_protocol_host_transport.cpp:1204-1402 | request steps keep every scoped client's count equal to its uses |
| TransportSteps.DestroyedUnused | core/src/logos_protocol_host_transport.cpp:822-1128 | no step of acquire, release, subscribe or unsubscribe destroys a client that a pending request uses |
| TransportRuns.ClientCounts | core/src/logos_protocol_host_transport.cpp:822-1128 | until teardown, the count of each scoped client is its pending scoped requests plus its subscription references plus acquisitions in flight, and is positive; keys are unique; both bounds hold |
| TransportRuns.DestroyedOnce | core/src/logos_protocol_host_transport.cpp:1665-1726 | no client handle is destroyed twice, or before teardown while a pending request uses it; after teardown every created handle has been destroyed |
| TransportHandles.UsedNeverDestroyed | core/src/logos_protocol_host_transport.cpp:822-1128 | in every run, until the tables are taken down, no client used by a pending request, a subscription record, an acquisition in flight or a running subscribe or unsubscribe has been destroyed |
| TransportRuns.HandlesGoOnce | core/src/logos_protocol_host_transport.cpp:822-1128 | of two steps of any run no client handle is destroyed in both and no scoped subscription handle unsubscribed in both |
| TransportRuns.UnsubscribedOnce | core/src/logos_protocol_host_transport.cpp:1067-1128 | no scoped subscription handle is unsubscribed twice; after teardown only a running unsubscribe can own one |
| TransportHandles.MadeOwned | core/src/logos_protocol_host_transport.cpp:1026-1054 | a subscription handle is live and belongs to the client it was made through as soon as the subscribe call has succeeded |
| TransportHandles.UnsubscribedBeforeDestroyed | core/src/logos_protocol_host_transport.cpp:882-1128 | in every state of every run, teardown included, a destroyed client's subscription handles have all been unsubscribed, except exactly one that a running unsubscribe still has in its hands; until the tables are taken down there is no exception |
| TransportHandles.OwnsStep | core/src/logos_protocol_host_transport.cpp:822-1128 | no step of any thread takes a live subscription handle away from its client except by unsubscribing it |
| HostTransport.Transport.Admit | core/src/logos_protocol_host_transport.cpp:1204-1223 | the admission block on the real fields makes exactly the model's step; it admits exactly when open with a live worker, a free id and room by count and by the sum of retained bytes |
| HostTransport.Transport.InvokeReturned | core/src/logos_protocol_host_transport.cpp:1245-1268 | the block after the invoke makes exactly the model's step; exactly an unanswered refused request is answered while open, and that reply and no other is logged |
| HostTransport.Transport.EraseFinished | core/src/logos_protocol_host_transport.cpp:1385-1402 | erases the record exactly when it is finished and returns its client exactly when that one is scoped |
| HostTransport.Transport.FinishActiveInvoke | core/src/logos_protocol_host_transport.cpp:1364-1383 | ends the invoke and erases the record exactly as the model does; the client to release is exactly that of an erased scoped request |
| HostTransport.Transport.CompleteBegin | core/src/logos_protocol_host_transport.cpp:1302-1328 | the first block of a completion answers exactly an unanswered request while open, and logs exactly that reply |
| HostTransport.Transport.CompleteEnd | core/src/logos_protocol_host_transport.cpp:1334-1345 | the last block of a completion erases exactly as the model does; the client to release is exactly that of an erased scoped request |
| HostTransport.Transport.Cancel | core/src/logos_protocol_host_transport.cpp:1277-1290 | cancels exactly the named request; the client to release is exactly that of an erased scoped request |
| HostTransport.Transport.SuppressPending | core/src/logos_protocol_host_transport.cpp:1586-1592 | the loop suppresses the reply of every pending request and changes nothing else |
| HostTransport.Transport.RequestFaultLocked | core/src/logos_protocol_host_transport.cpp:1547-1555 | makes exactly the model's fault step |
| HostTransport.Transport.CoalesceBlockBurst | core/src/logos_protocol_host_transport.cpp:1506-1536 | a non-empty queue within its byte limit is replaced by the arriving event exactly when that one and every queued event are base blocks; otherwise it stays as it is |
| HostTransport.Transport.EnqueueEvent | core/src/logos_protocol_host_transport.cpp:1491-1504 | appends, coalesces or faults exactly as the model does |
| HostTransport.Transport.IngestEvent | core/src/logos_protocol_host_transport.cpp:1404-1465 | an arriving event is ignored, delivered, queued or faults exactly as the model does |
| HostTransport.Transport.DeliverFrontEvent | core/src/logos_protocol_host_transport.cpp:1636-1656 | one round of the worker removes, keeps or faults exactly as the model does |
| HostTransport.Transport.AcquireLookup | core/src/logos_protocol_host_transport.cpp:828-849 | returns exactly the scoped client of the key, counted up, or decides exactly when a new one may be created |
| HostTransport.Transport.AcquireStore | core/src/logos_protocol_host_transport.cpp:863-871 | stores a new client exactly when the model does |
| HostTransport.Transport.CountScopedClients | core/src/logos_protocol_host_transport.cpp:842-845 | the loop counts exactly the scoped clients |
| HostTransport.Transport.ReferencedBySubscription | core/src/logos_protocol_host_transport.cpp:907-912 | the loop answers exactly whether a subscription record points to the client |
| HostTransport.Transport.ReleaseScopedClient | core/src/logos_protocol_host_transport.cpp:882-924 | counts down and takes the record out exactly at zero; the handle to destroy is exactly the one that left the table |
| HostTransport.Transport.SubscribeProbe | core/src/logos_protocol_host_transport.cpp:952-973 | a subscription goes on exactly while serviceable and within its limits, and `existing` is exactly whether there is one with this key |
| HostTransport.Transport.SubscribeAgain | core/src/logos_protocol_host_transport.cpp:980-997 | adds a reference to the existing subscription exactly as the model does; the acquired client is kept or given back exactly as the result says |
| HostTransport.Transport.SubscribeNew | core/src/logos_protocol_host_transport.cpp:1013-1019 | adds a record without a handle exactly within the bound; otherwise, as the result says, the acquired client is to be given back |
| HostTransport.Transport.SubscribeFinish | core/src/logos_protocol_host_transport.cpp:1038-1054 | stores the handle or removes the record exactly as the model does; the result says exactly whether the client is kept |
| HostTransport.Transport.UnsubscribeRecord | core/src/logos_protocol_host_transport.cpp:1095-1117 | drops a reference exactly when there is a subscription with the key, and at the last one hands its handle and client to the caller |
| HostTransport.Transport.CloseBlock | core/src/logos_protocol_host_transport.cpp:381-412 | the locked block of close makes exactly the model's step in each lifecycle state |
| HostTransport.Transport.CloseFields | core/src/logos_protocol_host_transport.cpp:386-411 | the switch over the lifecycle states sets the flags and suppresses the pending requests exactly as the model does |
| HostTransport.Transport.FailNextPending | core/src/logos_protocol_host_transport.cpp:1804-1825 | answers one unanswered request with the failure, logging exactly that reply, or reports exactly that none is left |
| HostTransport.Transport.FinishWorker | core/src/logos_protocol_host_transport.cpp:1830-1841 | the worker's last block clears the queue exactly as the model does |
| HostTransport.Transport.DetachTables | core/src/logos_protocol_host_transport.cpp:1692-1701 | moves both tables out, complete, for the caller to unsubscribe and destroy |
| HostTransport.Transport.FinishTeardown | core/src/logos_protocol_host_transport.cpp:1705-1714 | clears the pending table and closes exactly as the model does |
| HostTransport.Transport.constructor | core/src/logos_protocol_host_transport.cpp:203-212 | a new transport is the initial state |
| HostTransport.Transport.FindClientRecord | core/src/logos_protocol_host_transport.cpp:810-820 | the search finds the client with this module and instance exactly when there is one |
| HostTransport.Transport.AcquireRecord | core/src/logos_protocol_host_transport.cpp:833-841 | counts the found client up exactly as the model does |
| HostTransport.Transport.FindScopedHandle | core/src/logos_protocol_host_transport.cpp:892-900 | the search finds the scoped client with this handle exactly when there is one |
| HostTransport.Transport.FindSubscription | core/src/logos_protocol_host_transport.cpp:957-963 | the search finds the subscription with this key exactly when there is one |
| HostTransport.Transport.FindRecord | core/src/logos_protocol_host_transport.cpp:1040-1045 | the search finds the record of the subscription that is being made |
| HostTransport.Transport.ActivateBlock | core/src/logos_protocol_host_transport.cpp:243-255 | activation starts exactly as the model does |
| HostTransport.Transport.WorkerStarted | core/src/logos_protocol_host_transport.cpp:1605-1611 | the worker becomes live exactly as the model does |
| HostTransport.Transport.AddBaseClient | core/src/logos_protocol_host_transport.cpp:700-705 | records a base client exactly as the model does |
| HostTransport.Transport.ClearPartialEvents | core/src/logos_protocol_host_transport.cpp:774-786 | an incomplete catalogue clears the queue exactly as the model does |
| HostTransport.Transport.OpenTransport | core/src/logos_protocol_host_transport.cpp:309-322 | opens exactly when still activating |
| HostTransport.Transport.FailActivation | core/src/logos_protocol_host_transport.cpp:794-803 | a failed activation suppresses and closes exactly as the model does |
| HostTransport.Transport.LeaveWorkerLoop | core/src/logos_protocol_host_transport.cpp:1627-1634 | the worker leaves its loop exactly when shutdown may go on, and says whether it was a fault |
| HostTransport.Transport.FindUnanswered | core/src/logos_protocol_host_transport.cpp:1806-1819 | the loop finds an unanswered request exactly when there is one |
| HostTransport.Transport.EmergencyCloseBlock | core/src/logos_protocol_host_transport.cpp:1847-1859 | an escaped exception faults exactly as the model does |
| HostTransport.Transport.BeginTeardown | core/src/logos_protocol_host_transport.cpp:1671-1684 | teardown starts exactly as the model does |
| BridgeTokens.HexDenotes | core/src/logos_inspector_async_bridge.cpp:243-252 | the fixed-width hexadecimal text of a number denotes that number |
| BridgeTokens.Hexadecimal | core/src/logos_inspector_async_bridge.cpp:243-252 | the digit loop writes the sixteen lowest hexadecimal digits |
| BridgeTokens.TokensInjective | core/src/logos_inspector_async_bridge.cpp:228-257 | a token determines namespace and id, and every token passes the validity test |
| BridgeTokens.TokensExact | core/src/logos_inspector_async_bridge.cpp:228-257 | the texts that pass the validity test are exactly the tokens of 64-bit namespaces and ids |
| BridgeTokens.AllocateSucceeds | core/src/logos_inspector_async_bridge.cpp:874-884 | with n taken ids, n + 2 consecutive tries find a free nonzero id, also across the 64-bit wrap (pigeonhole) |
| BridgeTokens.AllocateFirst | core/src/logos_inspector_async_bridge.cpp:874-884 | the allocated id is the first one from the counter on, across the wrap, that is not zero and not taken, and the counter then stands right behind it |
| BridgeAccounts.AdmissionNeverExhausted | core/src/logos_inspector_async_bridge.cpp:865-918 | with a free slot and input room a new correlation id is always admitted with a fresh id; the id-space and collision branches are unreachable |
| BridgeAccounts.AdmissionExact | core/src/logos_inspector_async_bridge.cpp:840-918 | each outcome of a start exactly: admitted when open, the correlation id new, a slot free and the input fitting; the token it had for a known correlation id with the same payload, or a wait while that call is being made; refused otherwise, with the documented reason |
| BridgeAccounts.StartedOk | core/src/logos_inspector_async_bridge.cpp:886-929 | inserting an admitted request keeps slots, bytes and both indexes exact |
| BridgeAccounts.RemovedOk | core/src/logos_inspector_async_bridge.cpp:294-304 | erasing keeps the table exact and none of its three subtractions would go below zero |
| BridgeAccounts.DetachedOk | core/src/logos_inspector_async_bridge.cpp:306-315 | detaching a pending entry keeps the table exact and its slot reserved |
| BridgeAccounts.AnsweredOk | core/src/logos_inspector_async_bridge.cpp:434-476 | a callback keeps the response bytes exact and within their limit, whatever it brings |
| BridgeFlow.RepliedOk | core/src/logos_inspector_async_bridge.cpp:413-476 | a callback gives back exactly its own slot or finishes exactly its own entry |
| BridgeFlow.RejectedOk | core/src/logos_inspector_async_bridge.cpp:949-964 | a rejected call leaves every other callback with its slot |
| BridgeFlow.OwnersExact | core/src/logos_inspector_async_bridge.cpp:925-964 | owed callbacks are never more than pending entries plus detached ids, and as many while no id was reissued on the stack |
| BridgeRuns.StepInv | core/src/logos_inspector_async_bridge.cpp:289-989 | every step of every thread keeps the bridge invariant |
| BridgeRuns.AccountsExact | core/src/logos_inspector_async_bridge.cpp:289-337 | in every reachable state slots are entries plus detached ids, disjoint and bounded; input and response bytes are exact sums within limits; correlation and token indexes are bijections with the entries |
| BridgeRuns.NeverSaturates | core/src/logos_inspector_async_bridge.cpp:289-304 | no bounded subtraction in any step of any run would have gone below zero |
| BridgeRuns.OwnersCountCallbacks | core/src/logos_inspector_async_bridge.cpp:925-964 | in every reachable state callbackOwners is the number of callbacks still to run |
| BridgeRuns.FreeIsLast | core/src/logos_inspector_async_bridge.cpp:727-774 | from the end of close's wait on, in every later state no call, dispatch or cancel is inside the core and no callback is owed; free happens at most once, for any number of closers |
| BridgeRuns.NobodyInside | core/src/logos_inspector_async_bridge.cpp:750-755 | zero counters mean that no thread is in the core and no callback is owed |
| BridgeRuns.SettledKept | core/src/logos_inspector_async_bridge.cpp:434-476 | a finished request keeps its status and text until its entry goes, under every step |
| BridgeEffects.EntriesExact | core/src/logos_inspector_async_bridge.cpp:289-989 | every step, on every request: which one it takes out, what a callback leaves (mismatch, missing response, the text if it fits beside the sum of retained texts, or the limit error), its expiry, and what a new request looks like |
| BridgeEffects.StartBegins | core/src/logos_inspector_async_bridge.cpp:840-929 | a start that is open, new, with a slot and room by the sums, does add exactly one request |
| BridgeEffects.DetachedExact | core/src/logos_inspector_async_bridge.cpp:294-337 | every step, on the detached ids: exactly a pending request that is released or swept joins them, exactly its callback takes it out |
| BridgeEffects.FinishedByCallback | core/src/logos_inspector_async_bridge.cpp:434-476 | in every run a finished request was finished by one callback of its own while pending, and has been as that left it ever since |
| BridgeEffects.ReadyTextBrought | core/src/logos_inspector_async_bridge.cpp:434-476 | in every run the text of a ready request is the text its own callback brought, which fitted |
| BridgeEffects.BroughtTextKept | core/src/logos_inspector_async_bridge.cpp:434-476 | a text that a callback brought and that fits is retained, exactly, as long as its request stays |
| BridgeEffects.CountersExact | core/src/logos_inspector_async_bridge.cpp:925-989 | every step, on the three counters of threads inside the core and callbacks owed |
| BridgeEffects.CallsExact | core/src/logos_inspector_async_bridge.cpp:925-989 | every step, on every core call: made by an admitted start, gone when rejected or when returned and answered |
| BridgeEffects.ClosingExact | core/src/logos_inspector_async_bridge.cpp:727-774 | every step, on the phases of closing: only the first close of an open bridge starts them |
| BridgeRuns.ImportNotSwept | core/src/logos_inspector_async_bridge.cpp:897-899 | the sweep never removes a pending backup import |
| BridgeOwners.BalanceExact | core/src/logos_inspector_async_bridge.cpp:925-964 | in every state of every run pending entries plus detached ids are callbackOwners plus the number of orphaning steps so far, until the bridge is cleared; so they are equal if and only if there was none or the bridge is closed |
| BridgeOwners.DriftExact | core/src/logos_inspector_async_bridge.cpp:289-989 | every step from any state of the invariant changes the difference by one if it rejects a call whose entry has gone, and by nothing otherwise |
| BridgeOwners.ReissueOrphans | core/src/logos_inspector_async_bridge.cpp:874-964 | when an id came round to a second start while the first call has not returned, three further steps lose the equality |
| BridgeOwners.ReachCounter | core/src/logos_inspector_async_bridge.cpp:874-964 | for every value from two on, a run from the start of the bridge reaches an empty table with that id counter while the call with id 1 has not returned |
| BridgeOwners.SecondStart | core/src/logos_inspector_async_bridge.cpp:838-929 | a start while the call with id 1 has not returned is given the id at the counter and moves the counter on, across the wrap |
| BridgeOwners.UnbalancedReachable | core/src/logos_inspector_async_bridge.cpp:838-964 | with limits under which some request fits, a run from the start of the bridge reaches a state in which callbackOwners is not the number of pending entries and detached ids |
| AsyncBridge.Bridge.constructor | core/src/logos_inspector_async_bridge.cpp:53-81 | a new bridge is the initial state |
| AsyncBridge.Bridge.RemoveEntry | core/src/logos_inspector_async_bridge.cpp:294-304 | the whole table afterwards is the model's |
| AsyncBridge.Bridge.DetachPending | core/src/logos_inspector_async_bridge.cpp:306-315 | the whole table afterwards is the model's |
| AsyncBridge.Bridge.CollectExpired | core/src/logos_inspector_async_bridge.cpp:317-337 | exactly the entries whose time has come and whose call is not being made go; the ids to cancel are exactly those of them that were pending, each once |
| AsyncBridge.Bridge.AllocateId | core/src/logos_inspector_async_bridge.cpp:874-881 | the retry loop with its wrapping counter computes the allocation function |
| AsyncBridge.Bridge.StartLocked | core/src/logos_inspector_async_bridge.cpp:838-929 | the locked block of start makes exactly the model's step and returns its outcome |
| AsyncBridge.Bridge.CoreReturnedLocked | core/src/logos_inspector_async_bridge.cpp:949-964 | the block after the core call makes exactly the model's step |
| AsyncBridge.Bridge.FinishCoreReply | core/src/logos_inspector_async_bridge.cpp:434-476 | the callback block makes exactly the model's step, and leaves on a pending request exactly the status, text and expiry of its case |
| AsyncBridge.Bridge.MarkCallbackFailure | core/src/logos_inspector_async_bridge.cpp:413-432 | the failure block makes exactly the model's step, and leaves the failure status on a pending request |
| AsyncBridge.Bridge.ReplyAborted | core/src/logos_inspector_async_bridge.cpp:478-492 | a callback left by an exception is still owed, exactly as the model has it |
| AsyncBridge.Bridge.EnterAbi | core/src/logos_inspector_async_bridge.cpp:339-352 | a thread enters the core exactly while the bridge is open |
| AsyncBridge.Bridge.LeaveAbi | core/src/logos_inspector_async_bridge.cpp:373-382 | a thread leaves the core exactly as the model has it |
| AsyncBridge.Bridge.DropExpired | core/src/logos_inspector_async_bridge.cpp:326-334 | one expired entry is detached when its callback is owed and erased otherwise |
| AsyncBridge.Bridge.InsertEntry | core/src/logos_inspector_async_bridge.cpp:901-928 | the request enters the table and both indexes and is charged to every account |
| AsyncBridge.Bridge.PollAsync | core/src/logos_inspector_async_bridge.cpp:617-642 | a reader of the returned JSON text recovers status and retained response of exactly the request whose id makes the token, for every response byte string; otherwise it reads the error for a malformed token, for a closed bridge or for an unknown token, each exactly in its case |
| AsyncBridge.TerminalRecovered | core/src/logos_inspector_async_bridge.cpp:177-193 | a reader of the text for an unsuccessful request reads the error of its status |
| AsyncBridge.Bridge.CancelLocked | core/src/logos_inspector_async_bridge.cpp:653-676 | returns the id to cancel exactly for a pending request |
| AsyncBridge.Bridge.ReleaseLocked | core/src/logos_inspector_async_bridge.cpp:692-718 | releases exactly a known token, after which it is unknown; a pending request stays detached, and exactly then its id is returned to be cancelled |
| AsyncBridge.Bridge.BeginClose | core/src/logos_inspector_async_bridge.cpp:730-744 | of all callers of close exactly one goes on |
| AsyncBridge.Bridge.WaitForQuiet | core/src/logos_inspector_async_bridge.cpp:750-755 | the wait ends only when nobody is inside the core and no callback is owed |
| AsyncBridge.Bridge.FinishClosing | core/src/logos_inspector_async_bridge.cpp:761-773 | clears everything after free has returned exactly once |
| JsonText.JsonEscape | core/src/logos_inspector_async_bridge.cpp:94-134 | the loop computes the escape function |
| JsonText.EscapedHasNothingBare | core/src/logos_inspector_async_bridge.cpp:94-134 | escaped text has no bare quote and no control byte |
| JsonText.DecodeInvertsEscape | core/src/logos_inspector_async_bridge.cpp:94-134 | a decoder for the strings of section 7 of RFC 8259, surrogate pairs included, inverts the escaping on every byte string, whatever follows |
| JsonText.ReadPrint | core/src/logos_inspector_async_bridge.cpp:136-175 | a reader for objects, strings, booleans and null inverts the compact printing of every such value |
| JsonText.ErrorRecovered | core/src/logos_inspector_async_bridge.cpp:136-140 | an error response reads as a failure with exactly the given message |
| JsonText.PollRecovered | core/src/logos_inspector_async_bridge.cpp:155-167 | reading the poll response gives back token, status and the retained response exactly |
| ReportHistory.InsertReport | src/capabilities/evidence.rs:296-334 | the insertion with its eviction loop computes the insertion function |
| ReportHistory.InsertExact | src/capabilities/evidence.rs:296-334 | the list stays distinct and within eight; the inserted configuration holds what the replacement rule says, a reduced report never replacing a full one; every other report stays, except the first unprotected one when a new configuration enters a full list |
| ReportHistory.ProtectedKept | src/capabilities/evidence.rs:322-333 | the selected configuration is never evicted |
| EvidenceRuns.StepInv | src/capabilities/evidence.rs:371-551 | every registry operation keeps the invariant |
| EvidenceRuns.SequencesIncrease | src/capabilities/evidence.rs:371-437 | in every run the accepted sequence numbers of one key strictly increase, none is accepted twice, and both lease tables stay within 64; `EvidenceRuns.LaterIsNewer` carries this over to pieces of evidence |
| EvidenceRuns.EvidenceNeedsAcceptance | src/capabilities/evidence.rs:439-510 | evidence changes only when an observation is accepted, and a terminal operation accepts only the observation it was tracked with |
| EvidenceRuns.ChangesAtMostOnce | src/capabilities/evidence.rs:655-702 | two steps of a run never accept the same observation, and of two for one key the later is the newer |
| EvidenceRuns.RequestsAreIssued | src/capabilities/evidence.rs:577-595 | every key that a request can observe has a configuration exactly when its target requires one, and no request observes the L1 source as such |
| EvidenceRuns.RunIssued | src/capabilities/evidence.rs:577-595 | in every state of every run all leases are for such keys |
| EvidenceRuns.SlotsAreKeys | src/capabilities/evidence.rs:439-510 | for such keys, different keys never write the same piece of evidence |
| EvidenceRuns.LaterIsNewer | src/capabilities/evidence.rs:399-510 | no late completion overwrites newer evidence: of two steps of any run that accept an observation for one piece of evidence, the later accepts the newer one |
| EvidenceRuns.OtherPiecesStay | src/capabilities/evidence.rs:439-526 | a step that accepts nothing, or an observation for another piece of evidence, leaves this one alone or evicts it from a full history |
| EvidenceRuns.NewestObservationWins | src/capabilities/evidence.rs:399-526 | in every run, once an observation was accepted for a piece of evidence, a later step that changes it evicts it or accepts a newer observation for it |
| EvidenceEffects.ContentExact | src/capabilities/evidence.rs:439-702 | an accepted observation leaves in its piece of evidence exactly what it brought: a module's value or failure, nothing or the detail for what is last known, a source report that only gives way to a full one it would reduce; a runtime operation is a success exactly when completed with a result |
| EvidenceEffects.EvidenceStays | src/capabilities/evidence.rs:439-526 | in every run that content stays until a later observation for the piece is accepted or the history evicts it |
| EvidenceEffects.FinishAccepts | src/capabilities/evidence.rs:655-702 | an operation completes an observation exactly when it is terminal, tracked with it, the operation that was asked for, and the lease is in force |
| EvidenceEffects.LeasesExact | src/capabilities/evidence.rs:371-437 | every step, on the lease of every key: a new one has the next number, and one ends exactly by being accepted, given up, replaced or, the oldest, evicted |
| EvidenceEffects.OperationsExact | src/capabilities/evidence.rs:413-437 | every step, on every tracked operation: entered, replaced, settled or, the oldest, given up |
| EvidenceEffects.SingleMethods | src/capabilities/evidence.rs:919-926 | the one method that observes each module, source and the provider |
| EvidenceEffects.LocalNodesMethods | src/capabilities/evidence.rs:927-930 | the four methods that observe the local nodes |
| EvidenceEffects.WalletMethods | src/capabilities/evidence.rs:931-941 | the eight methods that observe the wallet |
| EvidenceEffects.RequestsExact | src/capabilities/evidence.rs:577-595 | a request is observed for exactly its target, with its configuration where the target needs one, and not without it |
| EvidenceRuns.HistoriesBounded | src/capabilities/evidence.rs:281-334 | in every reachable state each history is distinct and within eight |
| EvidenceRuns.AgreementExact | src/capabilities/evidence.rs:296-334 | one insertion leaves bounded and unbounded history with the same report if and only if it is not a reduced report for a configuration whose full report was lost |
| EvidenceRuns.SelectedLookupAgrees | src/capabilities/evidence.rs:512-551 | for a configuration selected ever since its report was stored, lookup agrees with the unbounded map |
| CapabilityRegistry.Registry.BeginObservation | src/capabilities/evidence.rs:371-397 | the new lease is newer than every number issued before; at most the oldest lease goes |
| CapabilityRegistry.Registry.BeginRequest | src/capabilities/evidence.rs:577-595 | a request begins an observation exactly when its method has a target whose configuration is known if it needs one; its lease is then the newest |
| CapabilityRegistry.Registry.OldestObservation | src/capabilities/evidence.rs:385-389 | the search finds a lease with the least sequence number |
| CapabilityRegistry.Registry.Accept | src/capabilities/evidence.rs:399-405 | accepts exactly the newest lease of a key and takes it out |
| CapabilityRegistry.Registry.AbandonObservation | src/capabilities/evidence.rs:407-411 | takes out exactly the newest lease of its key |
| CapabilityRegistry.Registry.TrackLease | src/capabilities/evidence.rs:413-437 | enters a current lease, abandons the replaced one and evicts the oldest within the bound, exactly as the model does |
| CapabilityRegistry.Registry.EvictLeases | src/capabilities/evidence.rs:424-436 | the loop removes exactly one oldest lease when there is one too many, and nothing otherwise |
| CapabilityRegistry.Registry.TrackRuntimeOperation | src/capabilities/evidence.rs:611-653 | an operation without id or with another identity gives the observation up; otherwise its lease is tracked |
| CapabilityRegistry.Registry.CompleteObservation | src/capabilities/evidence.rs:439-510 | changes evidence exactly when the lease is current, and then leaves exactly what was observed in its piece of evidence |
| CapabilityRegistry.Registry.CompleteRuntimeOperation | src/capabilities/evidence.rs:655-702 | a terminal operation that matches its lease completes it, as a success exactly when completed with a result; anything else changes no evidence |
| CapabilityRegistry.Registry.InsertSource | src/capabilities/evidence.rs:512-526 | stores a report in the history of its scope with the selected configuration protected |
| CapabilityRegistry.Registry.EvidenceForRuntime | src/capabilities/evidence.rs:528-551 | selects the configurations in force and shows exactly the stored reports of the selected ones |
| InstructionVariants.ExternalVariantIndices | src/decode/instruction_variant.rs:71-116 | the owner map loop computes exactly the accepted index lists |
| InstructionVariants.BuiltDistinct | src/decode/instruction_variant.rs:14-30 | every list that is built is in range and without repetition |
| InstructionVariants.BuiltExactly | src/decode/instruction_variant.rs:14-120 | the map can be built exactly when the type is not blank and either every row keeps its position or an external type has all indices declared, in range and different |
| InstructionVariants.DeclaredIndexUsed | src/decode/instruction_variant.rs:71-116 | a row that declares an index has that one, any other row its position |
| InstructionVariants.Surjective | src/decode/instruction_variant.rs:71-116 | distinct indices in range hit every number of the range (pigeonhole) |
| InstructionVariants.VariantsArePermutation | src/decode/instruction_variant.rs:14-52 | row to variant to row is the identity, and a first word resolves to a row, the only one, exactly when it is below the number of rows |
| LittleEndian.SignExtension | src/decode/borsh.rs:325-344 | widening with the sign digit is two's complement sign extension, in any base |
| BorshModel.DecodeType | src/decode/borsh.rs:117-198 | for every type description decoding ends and consumes no more bytes than there are |
| BorshRoundTrip.RoundTrip | src/decode/borsh.rs:12-259 | for every value that is well-typed within depth and length limits, recursive types included, decoding its encoding followed by anything yields its rendering and consumes exactly the encoding |
| BorshRoundTrip.RoundTripAt | src/decode/borsh.rs:12-259 | the same at any offset, between any prefix and suffix |
| BorshRoundTrip.AcceptedRead | src/decode/borsh.rs:12-259 | the same for all bytes that stand for the value, any non-zero byte being `true` |
| BorshExact.DecodesExactly | src/decode/borsh.rs:12-259 | the decoder yields a result from the first n bytes if and only if they stand for some value, well-typed within the limits, that is shown as this result |
| BorshExact.Written | src/decode/borsh.rs:117-198 | whatever decodes is the rendering of a well-typed value whose encoding, up to the byte for `true`, is what was consumed |
| BorshExact.NoOtherReading | src/decode/borsh.rs:117-198 | two well-typed values of one type that begin the same bytes take up equally many of them and are shown alike |
| BorshExact.UnsignedShown | src/decode/borsh.rs:200-231 | each unsigned type shows the digits that denote the little-endian number in its one to sixteen bytes |
| BorshExact.SignedShown | src/decode/borsh.rs:200-235 | each signed type shows the integer of its range that is congruent to that number |
| BorshExact.KeysShown | src/decode/borsh.rs:202-246 | a boolean is any byte but zero, an account its 32 bytes as account text, a program hexadecimal that reads back as its 32 bytes |
| BorshExact.TextShown | src/decode/borsh.rs:247-254 | a string is shown exactly if its bytes, as many as its first four say, are the UTF-8 bytes of that text |
| BorshExact.NamesExact | src/decode/borsh.rs:255-259 | no other name is a type |
| BorshExact.TypeFound | src/decode/borsh.rs:261-275 | the first type of a name is found, or there is none |
| BorshExact.ShapeFound | src/decode/borsh.rs:261-275 | a name that types and accounts have means the first type |
| BorshExact.AccountShapeFound | src/decode/borsh.rs:261-275 | a name that no type has is looked up among the accounts |
| BorshExact.AccountFound | src/decode/borsh.rs:261-275 | the first account of a name is found, or it has no shape, or there is none |
| BorshExact.FieldNumbers | src/decode/borsh.rs:31-64 | a field shows under its name or, unnamed, under its position, so that no two unnamed fields share a name |
| BorshExact.LimitsExact | src/decode/borsh.rs:117-183 | nothing is decoded below 32 levels or beyond 100000 elements, and both limits can be reached |
| TextFormat.DecimalRead | src/decode/borsh.rs:200-235 | decimal digits denote the number they were written for |
| TextFormat.IntegerRead | src/decode/borsh.rs:200-235 | the same with a sign |
| BorshRoundTrip.ReadsOnlyConsumed | src/decode/borsh.rs:117-311 | a decoded value depends on the consumed bytes and on no others |
| BorshRoundTrip.FieldsShown | src/decode/borsh.rs:31-64 | with distinct field names every field of a struct shows its own value |
| BorshDecoder.ReadLeUnsigned | src/decode/borsh.rs:313-323 | the accumulating loop reads the little-endian number |
| BorshDecoder.ReadLeSigned | src/decode/borsh.rs:325-344 | the sign-filled buffer reads the two's complement number |
| BorshDecoder.DecodeBorshPrimitive | src/decode/borsh.rs:200-259 | computes the primitive decoding at any offset |
| BorshDecoder.DecodeBorshType | src/decode/borsh.rs:117-198 | the recursion with its cursor computes the decoding function at any offset |
| BorshDecoder.DecodeElements | src/decode/borsh.rs:150-183 | the element loop decodes exactly the elements in a row |
| BorshDecoder.DecodeBorshFields | src/decode/borsh.rs:41-57 | the field loop decodes and inserts exactly the fields in order |
| BorshDecoder.DecodeBorshShape | src/decode/borsh.rs:12-115 | structs and enums decode exactly as the function says |
| InstructionRoundTrip.ArgumentRoundTrip | src/decode/instruction_codec.rs:107-581 | for every argument that parses, its words decode, whatever follows, if and only if the value holds no vector and is at most 32 levels deep; the text shown then agrees with the parser's report, and exactly those words are consumed |
| InstructionRoundTrip.PrimitiveRead | src/decode/instruction_codec.rs:174-311 | every primitive value decodes to the very text the parser reported |
| InstructionRoundTrip.TextRead | src/decode/instruction_codec.rs:647-655 | text with its length word and padding reads back |
| InstructionRoundTrip.BytesRead | src/decode/instruction_codec.rs:334-367 | byte arrays are shown in another form, of the same bytes |
| InstructionRoundTrip.ProgramRead | src/decode/instruction_codec.rs:502-519 | a program id survives hexadecimal, bytes, words and back |
| InstructionRoundTrip.FaithfulIds | src/decode/instruction_codec.rs:291-324 | what is assumed of the account and program ids can be met by readers that yield only 32 bytes |
| InstructionRoundTrip.ParsedButNotDecoded | src/decode/instruction_codec.rs:521-581 | under any number of given options a vector that parses does not decode, and neither does any value under more than 32 of them |
| InstructionRoundTrip.MissingVectorDecodes | src/decode/instruction_codec.rs:521-581 | an optional vector that is not given does decode |
| InstructionTexts.IntegerParsed | src/decode/instruction_codec.rs:189-265 | an integer argument parses exactly when its trimmed text is an integer within the literal range of its type, and to that integer |
| InstructionTexts.IntegerWords | src/decode/instruction_codec.rs:189-265 | its words are the little-endian digits to the base 2^32 of the integer or its two's complement, one, two or four of them |
| InstructionTexts.IntegerTyped | src/decode/instruction_codec.rs:174-265 | every integer of the range, typed in decimal, is parsed to itself and is the text that decoding its words shows |
| InstructionTexts.IntegerShown | src/decode/instruction_codec.rs:583-627 | from any words an integer type shows the congruent integer of its range, and nothing exactly when there is none |
| InstructionTexts.BooleanParsed | src/decode/instruction_codec.rs:177-188 | exactly six spellings are booleans, each with its value and word |
| InstructionTexts.StringParsed | src/decode/instruction_codec.rs:266-289 | a string argument is its trimmed text |
| InstructionTexts.AccountParsed | src/decode/instruction_codec.rs:291-324 | an account argument is the account text, alone or after one of four prefixes |
| InstructionTexts.ProgramParsed | src/decode/instruction_codec.rs:300-308 | a program argument is what its reader takes for one, and is shown as that |
| InstructionTexts.NamesParsed | src/decode/instruction_codec.rs:139-146 | there are no other named argument types |
| InstructionTexts.OptionParsed | src/decode/instruction_codec.rs:118-132 | three texts stand for a missing argument, any other for the argument itself |
| InstructionTexts.HexTyped | src/decode/instruction_codec.rs:334-367 | prefixed hexadecimal parses to exactly the bytes it was written for |
| InstructionTexts.BareHexTyped | src/decode/instruction_codec.rs:334-367 | so does hexadecimal without a prefix, of exactly the array's length |
| InstructionTexts.TextBytesTyped | src/decode/instruction_codec.rs:334-367 | other text that is short enough is its UTF-8 bytes padded with zeros |
| InstructionTexts.BytesTyped | src/decode/instruction_codec.rs:334-367 | the words are the bytes, and decoding shows their decimal list |
| InstructionTexts.WordsTyped | src/decode/instruction_codec.rs:369-390 | a comma list of words parses to, is encoded as and is shown as exactly these words |
| InstructionTexts.VectorTyped | src/decode/instruction_codec.rs:392-445 | blank text is the empty vector, a comma list the vector of exactly these numbers |
| InstructionTexts.VectorWords | src/decode/instruction_codec.rs:392-445 | a vector is encoded as its length and its elements |
| InstructionTexts.ChunksTyped | src/decode/instruction_codec.rs:392-445 | a comma list of hexadecimal items is the vector of exactly these byte arrays |
| InstructionTexts.ArgumentsInOrder | src/decode/reports.rs:222-262 | arguments are read one after the other from where the previous one ended; the first that does not decode ends the reading |
| InstructionTexts.OneArgument | src/decode/reports.rs:222-262 | one argument takes the words of its value, or none if it has no type or fails |
| InstructionTexts.FirstWordSelects | src/decode/reports.rs:178-200 | an instruction decodes exactly when its first word is the variant index of a row, and as that row |
| InstructionRoundTrip.InstructionRoundTrips | src/decode/reports.rs:178-277 | for every IDL whose variant map can be built, every row and all arguments that parse: encoding after the row's variant index and decoding selects the same row, with an error if and only if some argument holds a vector or is too deep; otherwise no words remain and every shown text agrees with its report |
| InstructionDecoder.ReadWordsUnsigned | src/decode/instruction_codec.rs:688-698 | the accumulating loop reads the little-endian number |
| InstructionDecoder.ReadWordsSigned | src/decode/instruction_codec.rs:700-723 | the sign-filled buffer reads the two's complement number |
| InstructionDecoder.DecodeInstructionType | src/decode/instruction_codec.rs:521-581 | the recursion with its cursor computes the decoding function at any offset |
| InstructionDecoder.DecodeArguments | src/decode/reports.rs:222-262 | the argument loop with its running offset computes values, error and remaining words |
| InstructionDecoder.DecodeInstructionWords | src/decode/reports.rs:178-277 | selects the row and decodes its arguments as the function says |
| CandidateSelection.SameIsEquivalence | src/decode/selection.rs:129-144 | being the same candidate is reflexive, symmetric and transitive |
| CandidateSelection.RowsSorted | src/decode/selection.rs:57-70 | the rows are exactly the included candidates, ordered by rank and position |
| CandidateSelection.UniqueKeepsFirst | src/decode/selection.rs:115-127 | no two kept rows are the same candidate, everything is represented, and each kept row is the first of its kind |
| CandidateSelection.PlanExact | src/decode/selection.rs:57-77 | the plan keeps exactly one member of every included class, the one with least rank and position, and tries them in the order of rank and position |
| CandidateSelection.OnlyPlan | src/decode/selection.rs:57-127 | no other list of rows has these properties |
| CandidateSelection.CachedWins | src/decode/selection.rs:84-96 | of same candidates a cached unshared one wins in account plans and a cached one in transaction plans |
| CandidateSelection.AccountOrder | src/decode/selection.rs:84-96 | the order of preference of accounts and of transactions |
| CandidateSelection.UniqueCandidates | src/decode/selection.rs:115-127 | the nested loop computes the plan's filter |
| CandidateSelection.SessionUniqueCandidates | src/decode/session.rs:398-405 | the hash-set loop computes the session's filter |
| CandidateSelection.SessionKeepsFirst | src/decode/session.rs:398-405 | the session's filter keeps, in their order, exactly the candidates whose identity no earlier one has |
| CandidateSelection.IdentityExact | src/decode/session.rs:407-421 | same candidates have equal identities, and for a separable candidate equality of identities is sameness |
| CandidateSelection.SeparableExact | src/decode/session.rs:407-421 | a composed identity tells its candidate from all others if and only if no field holds a clean separator, the first character of the program id aside |
| CandidateSelection.MovedSeparatorCollides | src/decode/session.rs:407-421 | any other clean separator cuts the identity into the fields of another candidate |
| CandidateSelection.CollisionExample | src/decode/session.rs:407-421 | two different candidates with one identity |
| CandidateSelection.SessionLeavesPlan | src/decode/session.rs:293-297 | the session's filter leaves every plan of separable candidates unchanged |
| Utf8.DecodeEncode | src/blockchain/bedrock.rs:453-476 | strict decoding (section 3 of RFC 3629) inverts encoding |
| Utf8.LossyOfWellFormed | src/blockchain/bedrock.rs:453-476 | lossy decoding changes nothing in well-formed text |
| Utf8.IllFormedPiece | src/blockchain/bedrock.rs:453-476 | one replacement character stands for the longest beginning of a character at that point, or for a single byte, and never for a whole one |
| StreamText.TruncatedLength | src/blockchain/bedrock.rs:455-461 | backing up to a character boundary cuts exactly the longest prefix of whole characters that fits |
| StreamText.Buffer.AppendChunk | src/blockchain/bedrock.rs:442-478 | exactly the longest prefix of whole characters of the chunk's lossy decoding that fits is appended, and the answer says whether that is all of it |
| StreamText.Buffer.ReadChunks | src/blockchain/bedrock.rs:494-510 | for any chunks the text is exactly the longest prefix of whole characters of all their lossy decodings within the limit |
| StreamText.StreamTextExact | src/blockchain/bedrock.rs:442-510 | that text is within the limit, well-formed, a prefix of the concatenated lossy decodings, and all of them exactly when they fit |
| SnapshotOrder.SameCursorProgressIsNewer | qml/state/OperationHistoryVocabulary.js:52-74 | the field loop computes: same status, no field lost or lowered, one of the first three advanced |
| SnapshotOrder.StrictExactly | qml/state/OperationHistoryVocabulary.js:20-50 | irreflexivity and asymmetry for one operation fail exactly for non-terminal snapshots without a known cursor |
| SnapshotOrder.NewerExact | qml/state/OperationHistoryVocabulary.js:20-74 | when a candidate is newer, in every case: as the first or of another operation, never without one or after a final state, otherwise by cursor and, at the same cursor and status, by progress |
| SnapshotOrder.NewerIsTransitive | qml/state/OperationHistoryVocabulary.js:20-50 | being newer is transitive on the snapshots of one operation |
| SnapshotOrder.NotIrreflexive | qml/state/OperationHistoryVocabulary.js:38-45 | a running snapshot without a cursor is newer than itself |
| SnapshotOrder.FoldNeverGoesBack | qml/state/OperationHistoryVocabulary.js:20-74 | over any stream of one operation terminal states are final, a known cursor is never lost or lowered, and at a fixed cursor no field and no status goes back |
| SnapshotOrder.FoldIsNewest | qml/state/OperationHistoryVocabulary.js:20-74 | a snapshot of a stream is newer than what the fold ends with if and only if that result is not terminal and has no known cursor |

## Left out

- Real threads, condition variables and Qt event pumping: a locked block is one step, and a wait is a step that is not enabled yet.
- Base-catalogue subscriptions of the host transport: handle conservation is stated for scoped subscriptions; only the completeness of the base catalogue enters, as a flag.
- TransportRuns.DestroyedOnce: a released client handle counts as destroyed in the step that takes it out of the table; the source calls the destroy function after it has dropped the lock, so other threads can run in between.
- Publication of event health to the core, and the text of payloads and replies in the host transport: only sizes and the kind of reply matter to the accounts.
- Allocation failures, except the exception inside a bridge callback that leads to `markCallbackFailure`; a clock that throws.
- The random token namespace: any value is allowed.
- BridgeRuns.OwnersCountCallbacks: the equality with pending entries and detached ids is not part of it, because it can fail; `BridgeOwners.BalanceExact` says when it holds in a run.
- AsyncBridge.Bridge.CollectExpired: one pass under the lock appears in runs as several expiry steps, which allows more interleavings than the source does.
- JsonText.ReadPrint: the reader covers the compact objects, strings, booleans and nulls that the bridge writes, not numbers, arrays or insignificant white space.
- Configuration identities are compared only for equality; hashing, URL normalization and reading the identity from the arguments of a request are not part of this model.
- Whether a report is reduced is a flag of the report; the field tests that compute it are not modelled.
- Which of two tracked operations with the same sequence number is evicted is left open, which covers the order of the map.
- Seeds derived from arguments, account lists and type labels in instruction reports.
- InstructionRoundTrip.InstructionRoundTrips: texts whose UTF-8 length does not fit a 32-bit word are excluded, because they cannot be serialized.
- JSON syntax of IDLs: type descriptions are datatypes, with one constructor for descriptions that are rejected by their form.
- Error messages of the decode stack: an error is `None` or a reason, without its text.
- The decode sessions' search for the first full decoding, event selection, and the best-candidate loop over accounts.
- JavaScript's conversion of field values to numbers: a field is a number that is finite and not negative, or absent.
- HTTP, RPC, retries, process control, QML formatting, packaging and the capability catalogue tables.
