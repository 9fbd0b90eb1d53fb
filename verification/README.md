# Verified model of the cnetmod application runtime

cnetmod runs network applications as a set of managed services. Services declare dependencies; the runtime
lays them out in layers, starts a layer's services concurrently, stops dependents before dependencies, retries
what fails within fixed budgets, and caches health. This project models that orchestration, and the codecs and
configuration code around it, and proves what each part promises for every input, every run or every reachable
state.

Sequential code that changes things in place is modelled by classes and loops: the service registry, the
shutdown pass and the host's cleanup loop, the recovery bookkeeping, the health registry, the component
container, the byte queue, the upload server. Coroutines that interleave are modelled as machines whose actions
are the stretches between two suspension points (or one latch section); service outcomes and the clock are
chosen freely by the run. Pure code is modelled by functions.

| file | what it models |
|---|---|
| `Ordering.dfy`, `Runtime.dfy` | lexicographic order, stable sort, deadlines, policies |
| `DependencyGraph.dfy`, `ServiceRegistry.dfy` | layering of the dependency graph, cycles, the registry |
| `Shutdown.dfy`, `ServiceLifecycle.dfy` | which services a partly failing shutdown retains, safe shutdown histories, the shutdown pass, the host's retry loop |
| `StartupRuns.dfy` | startup, rollback, shutdown and recovery as one interleaved machine |
| `TaskSupervisor.dfy`, `RecoveryEpisodes.dfy` | supervised tasks, backoff, completion counting, recovery budgets |
| `HealthRegistry.dfy`, `HealthProbes.dfy` | hysteresis over reports, optimistic probe publication |
| `Resolution.dfy`, `Components.dfy` | what building a component collection computes and when it succeeds; the container that computes it in place |
| `ImportGraph.dfy` | the layering guard over module imports |
| `CoapCodec.dfy`, `CoapRequests.dfy`, `Blockwise.dfy`, `Uploads.dfy` | CoAP messages (sections 3 and 3.1 of RFC 7252), the second request encoder, block options and Block1 reassembly (section 2.2 of RFC 7959) |
| `DynamicBuffer.dfy`, `Expansion.dfy`, `Overlay.dfy` | the byte queue, environment references, configuration overlay |

Where a promise holds only in part, the exact boundary is proved:

- A CoAP message with a token of 16 to 255 bytes is encoded without complaint and does not come back: the
  round trip holds exactly for tokens shorter than 16 bytes (`CoapCodec.RoundTrip`).
- A block number is cut to 28 bits because the option is at most four bytes long
  (`Blockwise.BlockFields`, `Blockwise.BlockRoundTrip`).
- Whether a collection of components with loop-local ones builds can depend on the order of its registrations:
  a singleton's request for a loop-local component is granted under a loop and not outside one. The same two
  registrations build in one order and end in the cycle error in the other (`Resolution.OptionalUserFirst`,
  `Resolution.LoopUserFirst`). `Resolution.EveryOrderBuilds` gives the exact condition for building in every
  order, and `Resolution.SingletonsBuild` shows that for singletons any one order decides.
- The recovery budget of an optional service is not single: a failed task is followed by a renewed episode
  (`RecoveryEpisodes.OptionalBudgetIsNotSingle`). Its deadline is exactly that of the last renewal
  (`RecoveryEpisodes.DeadlineFollowsRenewals`).

## Model

| member | source | states |
|---|---|---|
| Runtime.ConstrainIsMeet | src/coro/timer.cppm:63-71 | a constrained deadline is no later than parent and child, and has expired exactly when one of them has |
| DependencyGraph.LayeringIsUnique | src/application/service_registry.cpp:95-123 | a graph has at most one layering: every key's layer is determined by the dependencies, and only the order inside a layer comes from the names |
| DependencyGraph.LayeringExcludesCycles | src/application/service_registry.cpp:120-123 | a graph that has a layering has no dependency cycle |
| DependencyGraph.StuckSetHasCycle | src/application/service_registry.cpp:120-122 | in a closed graph, keys that can never be released contain a cycle |
| ServiceRegistry.Registry.Manage | src/application/service_registry.cpp:8-43 | succeeds exactly for a well-formed new service before freezing; each error exactly in its case, and nothing changes on error |
| ServiceRegistry.Registry.RecordEdges | src/application/service_registry.cpp:84-92 | a key is listed under each of its dependencies as often as it names it; fails exactly on an unmanaged dependency |
| ServiceRegistry.Registry.CountEdges | src/application/service_registry.cpp:74-93 | in-degrees and reversed edges match the managed graph; missing metadata and unmanaged dependencies are told apart |
| ServiceRegistry.ReleaseDependents | src/application/service_registry.cpp:109-117 | placing a key lowers its dependents' counters by the number of times they name it and collects those that reach zero |
| ServiceRegistry.ReleaseOne | src/application/service_registry.cpp:111-116 | one decrement never underflows, also with duplicate dependencies |
| ServiceRegistry.PlaceLayer | src/application/service_registry.cpp:103-118 | one round emits the whole frontier in name order and leaves the next frontier |
| ServiceRegistry.LayOut | src/application/service_registry.cpp:95-119 | the rounds end with a layering, or with fewer keys placed than managed and then a cycle exists |
| ServiceRegistry.Registry.ValidateDependencies | src/application/service_registry.cpp:72-124 | success yields a layering (a partition in which every dependency lies strictly lower and every key past the first layer rests on the layer before); the cycle error is returned exactly when the complete, closed graph has a cycle |
| RetainedServices.SettledIsRetained | src/application/service_lifecycle.cpp:343-435 | what a pass leaves active is exactly the stuck services and every active service they transitively depend on through active ones |
| RetainedServices.RetainedTwice | src/application/application_host.cpp:852-890 | a later pass over what an earlier one retained leaves what its own stuck services retain of everything that was active at first |
| RetainedServices.NothingStuckNothingRetained | src/application/service_lifecycle.cpp:319-435 | if no stop fails nothing stays active |
| ShutdownHistory.ReleasesAreMatched | src/application/service_lifecycle.cpp:343-434 | between two successful stops of a service it was started again |
| ShutdownHistory.ReleasesNeverExceedStarts | src/application/service_lifecycle.cpp:343-434 | over any safe history successful stops never outnumber successful starts, with one start to spare while the service is active |
| ServiceLifecycle.Lifecycle.constructor | src/application/service_lifecycle.cpp:110-116 | nothing is active and the history is empty |
| ServiceLifecycle.Lifecycle.PrepareStart | src/application/service_lifecycle.cpp:128-141 | succeeds exactly for a closed acyclic graph; then its layers are remembered and every service is listed without losing an active flag |
| ServiceLifecycle.Lifecycle.MarkStarted | src/application/service_lifecycle.cpp:627-631 | records ownership of one service and nothing else |
| ServiceLifecycle.Lifecycle.StopOne | src/application/service_lifecycle.cpp:369-433 | a stop is refused once its limit has passed, otherwise it begins within the pass deadline; a late release still releases |
| ServiceLifecycle.Lifecycle.StopKey | src/application/service_lifecycle.cpp:347-433 | a key is skipped when inactive or needed by an active service, left when the pass deadline has passed, otherwise attempted |
| ServiceLifecycle.Lifecycle.StopLayer | src/application/service_lifecycle.cpp:345-434 | one layer, last key first, keeps the pass invariant |
| ServiceLifecycle.Lifecycle.RunPass | src/application/service_lifecycle.cpp:343-435 | the whole pass, last layer first, keeps the history safe and accounts for every service |
| ServiceLifecycle.Lifecycle.SelectLayers | src/application/service_lifecycle.cpp:319-326 | the layers of the frozen graph whenever it has any |
| ServiceLifecycle.Lifecycle.Stop | src/application/service_lifecycle.cpp:302-450 | after one pass the active services are exactly those retained by the stuck ones; within the deadline the stuck ones are exactly those whose stop failed or was refused; success means nothing is active; every stop began inside the pass deadline on a service nobody active needed |
| ServiceLifecycle.CleanupDeadline | src/application/application_host.cpp:803-809 | the cleanup deadline is no later than the shutdown deadline and has passed already or leaves the reserve, but for the time between its two clock readings |
| ServiceLifecycle.CleanupIsNotRenewed | src/application/application_host.cpp:798-809 | whenever it is asked for, the cleanup deadline is the shutdown deadline less the reserve plus the time between its two clock readings, or has already passed: asking again renews nothing |
| ServiceLifecycle.Lifecycle.Finish | src/application/application_host.cpp:850-890 | across all retries the history stays safe and every stop fits the one cleanup deadline; what remains is exactly what the services stuck in the last pass retain of everything that was active; services remain only if the deadline passed or the loop was interrupted |
| StartupRuns.InvariantHolds | src/application/service_lifecycle.cpp:156-299 | what every interleaving of children, rollback, passes and recovery keeps |
| StartupRuns.NothingHeldIsLost | src/application/service_lifecycle.cpp:189-217 | in every run a service whose last successful start was not followed by a successful stop is recorded active, late successes and recovery included |
| StartupRuns.SuccessMeansRequiredActive | src/application/service_lifecycle.cpp:156-299 | startup succeeds only when every required service is active |
| StartupRuns.DependenciesComeFirst | src/application/service_lifecycle.cpp:156-272 | when a service is dispatched everything it depends on has settled and its required dependencies are active |
| StartupRuns.LayersAreBarriers | src/application/service_lifecycle.cpp:271-297 | a layer's children run only after all earlier layers settled |
| StartupRuns.PassStopsAreMatched | src/application/service_lifecycle.cpp:343-434 | between two successful stops by shutdown passes ownership was recorded again, whatever recovery does meanwhile |
| Backoff.DelayInRange | src/application/task_supervisor.cpp:29-47 | every backoff lies between zero and the maximum, and jitter moves it by at most its share |
| Backoff.DelayGrowsWithoutJitter | src/application/task_supervisor.cpp:29-47 | without jitter backoffs never shrink |
| TaskSupervisor.InvariantHolds | src/application/task_supervisor.cpp:142-240 | what every run of the supervisor keeps about tasks, entries, stop and the wait group |
| TaskSupervisor.CompletionIsConserved | src/application/task_supervisor.cpp:55-85 | the wait group counts the unsettled tickets plus one between a stop request and the dispatched cancellation |
| TaskSupervisor.SingleFlight | src/application/task_supervisor.cpp:300-318 | at most one operation per task name is ever in flight, despite replaced entries |
| TaskSupervisor.JoinMeansSettled | src/application/task_supervisor.cpp:480-501 | a join after a stop request returns only when every task has settled and every member got both the cancel request and the dispatched cancel |
| TaskSupervisor.MembershipIsFrozen | src/application/task_supervisor.cpp:418-478 | after a stop request membership never changes |
| TaskSupervisor.LimitNeverChanges | src/application/task_supervisor.cpp:146-196 | in every run a task that has a limit keeps it |
| TaskSupervisor.RetriesShareOneLimit | src/application/task_supervisor.cpp:146-226 | all retries of a task are bound by one limit; none begins once it has passed or the task was told to stop |
| TaskSupervisor.BackoffEndsInBudget | src/application/task_supervisor.cpp:190-226 | a backoff is due to end strictly before the task's limit |
| RecoveryEpisodes.RecoveryBook.ScheduleRecovery | src/application/service_lifecycle.cpp:452-488 | an unknown service is refused, a working task is left alone, a failed required episode stays closed, an open one keeps its deadline |
| RecoveryEpisodes.RecoveryBook.ReconcileHealth | src/application/service_lifecycle.cpp:560-587 | a current `up` ends the episode unless a task is at work; otherwise recovery is scheduled exactly when due, and an unmanaged service is refused |
| RecoveryEpisodes.RecoveryBook.UpdateRecoveryPolicies | src/application/service_lifecycle.cpp:589-615 | overrides are installed all together or not at all |
| RecoveryEpisodes.OneBudgetPerEpisode | src/application/service_lifecycle.cpp:461-492 | until a required service is confirmed healthy its deadline never changes, a failed task stays the last, and no attempt passes its entry check after the deadline |
| RecoveryEpisodes.DeadlineFollowsRenewals | src/application/service_lifecycle.cpp:461-481 | over any stretch without confirmation the deadline is the one given by the last renewal, and only a request after a failed task of an optional service renews; reconnecting does not |
| RecoveryEpisodes.OptionalBudgetIsNotSingle | src/application/service_lifecycle.cpp:474-480 | a run in which one episode of an optional service has two deadlines |
| HealthRegistry.Registry.Add | src/application/health_registry.cpp:94-115 | adds exactly a new key, refuses a missing service and a known key |
| HealthRegistry.Registry.UpdateReport | src/application/health_registry.cpp:143-174 | a report with a source revision is applied only to that revision and not while stopping; others always |
| HealthRegistry.Registry.FailPreparation | src/application/health_registry.cpp:62-85 | every service not shutting down takes one failed report, unless the registry is stopping |
| HealthRegistry.Registry.Ready | src/application/health_registry.cpp:332-344 | ready exactly when running, not stopping and every service is up |
| HealthRegistry.HealthRefinesHistory | src/application/health_registry.cpp:143-174 | counters are the trailing runs of the accepted reports since the last shutdown report; status and revision follow from the history |
| HealthRegistry.HysteresisThresholds | src/application/health_registry.cpp:161-173 | `up` exactly after enough reports in a row, `down` exactly when the last report is down and enough in a row were not up |
| HealthRegistry.CountersIgnorePolicy | src/application/health_registry.cpp:143-174 | counters follow the history under any changes of policy |
| HealthRegistry.FlappingNeverUp | src/application/health_registry.cpp:161-173 | flapping below the threshold never reaches `up` |
| HealthProbes.InvariantHolds | src/application/health_registry.cpp:186-323 | in every run a captured snapshot is the cached one as long as revisions agree, and no probe runs once the sweep for unfinished probes has begun |
| HealthProbes.StaleProbesNeverWin | src/application/health_registry.cpp:186-323 | in every run a probe report is applied exactly to the snapshot its cycle captured, never to a service shutting down nor while stopping, and to that service alone |
| HealthProbes.OnePublicationPerCycle | src/application/health_registry.cpp:186-323 | each captured service gets at most one publication per cycle and exactly one by its end, whichever probes were refused, lost or slow |
| HealthProbes.OneWinnerPerRevision | src/application/health_registry.cpp:143-153 | of two cycles that captured one revision only one can win |
| HealthProbes.HealthIsReplay | src/application/health_registry.cpp:143-174 | in every run a cached snapshot is the replay of exactly the reports accepted for its service, from probes, lifecycle updates and failed preparations |
| HealthProbes.HealthFollowsReports | src/application/health_registry.cpp:143-174 | in every run the counters are the trailing runs of the accepted reports, and under one policy the status is what the thresholds give |
| HealthProbes.RevisionsGrow | src/application/health_registry.cpp:143-174 | revisions never go back |
| Resolution.ResolveIsSound | src/application/components.cpp:125-240 | a resolution keeps the log of constructions well built, adds only components built under its own loop and not under construction, and gives the request the one instance it stands for; or its error holds of the catalog |
| Resolution.RepeatIsCycle | src/application/components.cpp:157-169 | the chain of a cycle error ends in a cycle of requests |
| Resolution.BuiltOnce | src/application/components.cpp:225-239 | nothing is created twice |
| Resolution.IndexFaultMeans | src/application/components.cpp:54-70 | indexing fails exactly on a missing factory or a repeated key, and names one |
| Resolution.BuildIsSound | src/application/components.cpp:45-101 | every build ends with all singletons built once and all loop-local components on every loop, or with an error that is explained |
| Resolution.BuildableBuilds | src/application/components.cpp:45-101 | a buildable collection builds |
| Resolution.EveryOrderBuilds | src/application/components.cpp:45-101 | a collection builds in every order of its registrations exactly when keys are distinct, factories exist and create, required requests are registered or provided, loops exist if anything is loop-local, no singleton requires a loop-local component, and the request graph is acyclic |
| Resolution.SingletonsBuild | src/application/components.cpp:45-101 | for singletons one order decides: they build exactly when that holds |
| Resolution.OptionalUserFirst | src/application/components.cpp:168-192 | a cyclic collection with a loop-local component that builds in one order |
| Resolution.LoopUserFirst | src/application/components.cpp:157-192 | and ends in the cycle error in the other |
| Resolution.DependenciesOutliveUsers | src/application/components.cpp:35-43 | every instance a component received from the container, for required and optional requests alike, was created before it and is released after it |
| Components.IndexAll | src/application/components.cpp:54-70 | the indexing loop finds the first fault, or the index |
| Components.Container.Resolve | src/application/components.cpp:125-240 | with caches, stack and creation order updated in place, resolution computes the specified answer or error |
| Components.Container.Construct | src/application/components.cpp:193-239 | a factory's requests are resolved in order and its component stored, or the first error returned |
| Components.Container.Store | src/application/components.cpp:229-238 | caches, creation order and log are extended together |
| Components.Container.Populate | src/application/components.cpp:71-89 | the registrations are built in their order |
| Components.Build | src/application/components.cpp:45-101 | a build returns the specified container or error, and so explains every error, succeeds on every buildable collection, and for singletons on no other |
| Components.Container.Destroy | src/application/components.cpp:35-43 | components are released newest first |
| ImportGraph.Search | tools/check_observability_dependencies.py:75-85 | breadth-first search returns the first forbidden chain, shortest and then least by names, or nothing exactly when there is none |
| ImportGraph.Expand | tools/check_observability_dependencies.py:82-85 | looking at one module's sorted imports keeps the search invariant |
| ImportGraph.Violations | tools/check_observability_dependencies.py:69-86 | one such chain for each lower-layer module that reaches an upper layer, in name order; none exactly when no lower module does |
| ImportGraph.PathsAreCovered | tools/check_observability_dependencies.py:77-85 | at any moment every path is matched by a kept or waiting chain that is no later |
| ImportGraph.LeastIsUnique | tools/check_observability_dependencies.py:69-86 | the reported chain is determined by the graph |
| ImportGraph.LeastStopsAtUpper | tools/check_observability_dependencies.py:79-81 | only its last module is in an upper layer |
| ImportGraph.LeastNeverRepeats | tools/check_observability_dependencies.py:82-84 | it visits no module twice |
| CoapCodec.Ext | testing/coap_interop.py:56-62 | exactly the numbers below 65805 have an extension; a non-negative one has a nibble below 15 |
| CoapCodec.ExtRoundTrip | testing/coap_interop.py:85-92 | reading an extension gives the number and leaves what follows |
| CoapCodec.EncodeOption | testing/coap_interop.py:71-76 | an option is encoded exactly when delta and length fit |
| CoapCodec.EncodeMessage | testing/coap_interop.py:65-82 | the buffer-filling encoder computes the recursive encoding |
| CoapCodec.DecodeMessage | testing/coap_interop.py:95-123 | the offset-walking decoder computes the recursive decoding, truncated slices and every error included |
| CoapCodec.HeaderIsNotMarker | testing/coap_interop.py:75-80 | an option header is never the payload marker |
| CoapCodec.TailRoundTrip | testing/coap_interop.py:106-122 | decoding undoes encoding of options and payload |
| CoapCodec.RoundTrip | testing/coap_interop.py:65-123 | decoding an encoded message returns it with options sorted, exactly when the token is shorter than 16 bytes |
| CoapCodec.CanonicalRoundTrip | testing/coap_interop.py:65-123 | a message in canonical form comes back as it is |
| CoapCodec.LongTokenIsLost | testing/coap_interop.py:67 | a sixteen-byte token is encoded and does not come back |
| CoapCodec.CanonicalOptions | testing/coap_interop.py:66 | the sort is stable and loses nothing |
| CoapCodec.EncodesInRange | testing/coap_interop.py:65-78 | encoding fails exactly when code, message id, token length, an option gap or an option length does not fit |
| CoapCodec.FirstByteFields | testing/coap_interop.py:67 | for short tokens the or-ed first byte has version, type and length side by side |
| CoapRequests.StripKeepsSegments | testing/coap_interop.py:126-127 | stripping slashes before splitting does not change a path's segments |
| CoapRequests.OptionsAgree | testing/coaps_interop.py:32-44 | the two encoders write every option alike, failures included |
| CoapRequests.EncodeRequest | testing/coaps_interop.py:47-67 | the second encoder produces the first encoder's bytes for the same request, for every path, token, id, code and payload |
| CoapRequests.RequestRoundTrip | testing/coaps_interop.py:47-67 | what the second encoder sends the first decoder reads back |
| Blockwise.EncodeUint | testing/coap_interop.py:36-46 | the shortest big-endian form of the value modulo 2^32 |
| Blockwise.DecodeUint | testing/coap_interop.py:49-53 | the left fold computes the big-endian value |
| Blockwise.ShortestRoundTrip | testing/coap_interop.py:36-53 | decoding undoes encoding |
| Blockwise.BlockFields | testing/coap_interop.py:130-136 | for all integers a block option comes back with its number modulo 2^28 and its exponent modulo 8 |
| Blockwise.BlockRoundTrip | testing/coap_interop.py:130-136 | it round-trips exactly for 28-bit numbers and three-bit exponents |
| Blockwise.LargeNumberIsCut | testing/coap_interop.py:36-46 | block number 2^28 comes back as zero |
| Blockwise.PutContents | testing/coap_interop.py:420-422 | zero-extension and slice assignment, byte by byte |
| Blockwise.PutPicture | testing/coap_interop.py:414-422 | storing a block adds that block to the picture and nothing else |
| Blockwise.PictureIsUnique | testing/coap_interop.py:414-422 | the buffer is determined by the set of blocks that arrived |
| Uploads.Cut | testing/coap_interop.py:229-244 | the pieces are exactly the blocks of the body, in order, with the more flag on all but the last |
| Uploads.UploadServer.Receive | testing/coap_interop.py:414-441 | one block is stored under its token only; the reply has the request's id and token, acknowledges it, echoes the block option and ends with the stored length |
| Uploads.UploadServer.Serve | testing/coap_interop.py:378-441 | serving a run of uploads applies its steps in order |
| Uploads.UploadPicture | testing/coap_interop.py:414-422 | at every point of a run the buffer shows exactly the blocks that arrived for its token |
| Uploads.OrderDoesNotMatter | testing/coap_interop.py:414-422 | runs that deliver the same blocks leave the same buffer, in any order, with any repetition and any other traffic |
| Uploads.UploadCompletes | testing/coap_interop.py:414-422 | once every block arrived at least once the buffer is the body |
| Uploads.LengthAfterLastBlock | testing/coap_interop.py:432-441 | once the last block arrived the reported length is the body's, whatever is missing |
| Uploads.BlockTravels | testing/coap_interop.py:414-415 | encoding, sending, decoding and looking up returns the block option |
| Uploads.AnswerArrives | testing/coap_interop.py:423-441 | the answer can be encoded and decodes to itself |
| Uploads.AnswerSays | testing/coap_interop.py:423-441 | it names the block it is for, and its text reads as the stored length |
| Uploads.UploadOverTheWire | testing/coap_interop.py:229-244 | cut, encoded, reordered, repeated and interleaved with other clients, the body is reassembled |
| DynamicBuffer.Buffer.constructor | src/core/buffer_impl.cpp:499-502 | an empty queue of the given capacity |
| DynamicBuffer.Buffer.Prepare | src/core/buffer_impl.cpp:504-518 | makes room after the waiting bytes; compaction and growth are invisible and never shrink the storage |
| DynamicBuffer.Buffer.Compact | src/core/buffer_impl.cpp:508-511 | the in-place move keeps the waiting bytes |
| DynamicBuffer.Buffer.Commit | src/core/buffer_impl.cpp:520-523 | what was written into the prepared room is appended |
| DynamicBuffer.Buffer.Consume | src/core/buffer_impl.cpp:530-539 | drops from the front, at most everything |
| DynamicBuffer.Buffer.Append | src/core/buffer_impl.cpp:551-558 | appends |
| DynamicBuffer.Buffer.Clear | src/core/buffer_impl.cpp:560-564 | empties |
| DynamicBuffer.Buffer.Reserve | src/core/buffer_impl.cpp:566-576 | grows to the capacity without changing the waiting bytes |
| DynamicBuffer.Buffer.Apply | src/core/buffer_impl.cpp:499-576 | one operation leaves the abstract queue's next state and takes out what it takes out |
| DynamicBuffer.Buffer.Run | src/core/buffer_impl.cpp:499-576 | any script of operations refines the abstract queue, and what it released followed by what is left is what was there followed by what was fed |
| DynamicBuffer.NothingLost | src/core/buffer_impl.cpp:499-576 | first in, first out: no byte is lost, repeated or reordered |
| Expansion.ExpandString | src/application/configuration.cpp:277-328 | the scanning loop computes the recursive expansion, errors included |
| Expansion.ExpandUndoesEscape | src/application/configuration.cpp:292-304 | writing every `${` as `$${` and expanding gives the string back, for every string and environment |
| Expansion.ExpandMeansSegments | src/application/configuration.cpp:282-327 | a well-formed string means its segments' values side by side; substituted text is never expanded again |
| Expansion.ExpandedHasSegments | src/application/configuration.cpp:282-327 | every string that expands is made of such segments |
| Overlay.OverlayInto | src/application/options.cpp:32-49 | overlaying member by member, in any order, computes the merge |
| Overlay.MergeTwice | src/application/options.cpp:32-49 | overlaying twice is overlaying once |
| Overlay.MergeAt | src/application/options.cpp:32-49 | at every path: what was provided laid over what the target held there, nothing below a provided leaf, otherwise what the target held |
| Overlay.RejectUnknownKeys | src/application/options.cpp:13-30 | accepts exactly the documents whose keys are known; a refusal names a provided path that leaves a closed part of the defaults |
| Overlay.AcceptsKnownPaths | src/application/options.cpp:13-30 | a document is accepted exactly when each of its paths is in the defaults or passes through an empty or non-mapping default |
| Overlay.MergeStaysKnown | src/application/options.cpp:13-49 | overlaying an accepted document on the defaults introduces no unknown key |
| Overlay.MergedPathsAreKnown | src/application/options.cpp:13-49 | every path of the merge is a path of the defaults or passes through an empty or non-mapping default |

## Left out

- ServiceLifecycle.Lifecycle.Stop: no recovery task marks a service started during the pass, because the host joins the supervisor first; passes that race with recovery are covered by `StartupRuns`.
- ServiceLifecycle.Lifecycle.Finish: does not state how long the pauses between passes are, nor that requests and modules are settled first; request handling is an arbitrary interruption.
- StartupRuns.InvariantHolds: the machine keeps no clock; a deadline shows as the free choice to fail or cancel.
- HealthRegistry.HealthRefinesHistory: the history starts with the registration, whose status is not `up`; messages, errors and time stamps of reports are not kept.
- Backoff.DelayInRange: delays are computed over exact reals, not binary floating point.
- Resolution.ResolveIsSound: factories make a fixed list of requests and labels identify bindings; a thrown exception of any kind is one outcome; the fallback is a fixed set of keys.
- Overlay.OverlayInto: member order inside a document and array contents are not modelled; arrays and scalars are leaves.
- DynamicBuffer.Buffer.Prepare: sizes are unbounded, so an overflow of the platform's size type is not modelled.
- Deadlines so far away that they overflow the clock, which the runtime treats as unlimited.
- Failures to allocate memory and the translation of exceptions into error codes.
- Counters and revisions that would wrap after 2^64 steps.
- Throwing accessors of a managed service during registration.
- The selection of the error a supervisor join reports, and the recovery-exhausted observer's own effects.
- Module start and stop, listeners, request draining and the remaining state transitions of the application host.
- The lenient second CoAP parser, the Block2 download and observe exchanges, and all sockets.
- Lookup of components after the build, and option reload.
- Configuration parsing, validation, redaction and reload planning around expansion.
- Telemetry, metrics, logging and health rendering.
- HTTP, QUIC, MQTT, Raft, database and messaging protocols.
