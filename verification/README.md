# brainkit: verified models of the concurrent and algorithmic core

Dafny models of five parts of brainkit, with proofs of what each of them is for.

| part | source | files |
|---|---|---|
| request/reply router | `sdk/caller.go` | `Caller.dfy`, `CallerInvariants.dfy`, `CallerRuns.dfy`, `CallerTheorems.dfy`, `CallerHistory.dfy`, `PendingCall.dfy` |
| module lifecycle | `kit.go`, `module_preflight.go`, `module_mount.go`, `module/scope.go` | `Graph.dfy`, `Startup.dfy`, `Plan.dfy`, `Preflight.dfy`, `Kit.dfy`, `Scope.dfy` |
| shared notions | | `Wrappers.dfy` |
| WAVE container, channels, rates | `audio/local/local.go`, `audio/local/check.go` | `Bytes.dfy`, `Wav.dfy`, `Pcm.dfy` |
| BSON | `experiments/mongo-scram/mongo_auth.go` | `Bson.dfy`, `BsonGrammar.dfy` |
| promise settlement | `vendor_quickjs/context.go` | `Promise.dfy` |

`dafny verify dfyconfig.toml` checks the whole project.

**Router.** Calls, transport callbacks, drains, finalizing parties, `CloseContext` and contexts are
goroutines broken at their lock, channel and atomic operations; a run is any interleaving of the
enabled steps. A call is known by its position in registration order, which is its correlation id, so
ids are distinct. One invariant, split into five that are each kept step by step, carries all results.
`CallerTheorems.dfy` says what never happens; `CallerHistory.dfy` says what does, in terms of the actions of
the run alone: which calls are in the table, what their parties pass, which result is the first, and what
`Call` returns for it.
`PendingCall.dfy` holds the methods of `pendingCall` in the program's own form, over mutable fields,
and shows that each uninterrupted run of one is a sequence of the steps; so every step-system result
holds of them too.

**Lifecycle.** `Graph.dfy` proves a depth-first topological order against paths in the graph.
`Startup.dfy` and `Preflight.dfy` are the two imperative searches of the program, proved to compute
it; `Plan.dfy` adds capabilities and proves what is left of a plan when part of it has been mounted;
`Kit.dfy` is the kit's mutable state with `Mount`, `Unmount` and the shutdown loop. What user code
answers (build, mount, provide, close) comes from an oracle that is asked anew every time. A
descriptor's name is its registry key, and its requirements are taken as the normalized list
(`module/manifest.go:385-403`). `Scope.dfy` is the cleanup tree: scopes live in one store and cleanups
are functions, whose every call an oracle lets succeed or fail, or child scopes.

**Audio.** Bytes are integers from 0 to 255; the reader is compared with the container format of the
Multimedia Programming Interface and Data Specifications 1.0, chapters 2 and 3. `int` is 64 bits wide,
the sample sum 32 bits.

**BSON.** A Go map is a list of entries in the order the encoder happens to range over it. The decoder
model is total: errors and index panics are outcomes. `BsonGrammar.dfy` states the wire format a second
time, after version 1.1 of the BSON specification, as a relation between bytes and fields, and proves both
programs against it.

**Promise.** JS references are counted, not modelled: a step that executes a function records whether
its duplicates were still owned, and a release adds to a counter.

Where a law of the program fails for some inputs, the lemma says exactly for which: `Scope.NilMeansDone`,
`Pcm.MixIsMean`, `Pcm.RateRoundTrip`, `Wav.ReadsWhatIsWritten`, `Bson.RoundTrip`,
`Promise.QuietRunIsClean`. Beside two of them stand the inputs that show it: `Scope.NamedRootForgets` and
`Bson.OrderMatters`.

## Model

| member | source | states |
|---|---|---|
| `CallerTheorems.ChannelSafety` | sdk/caller.go:451-554 | In every run: no stream channel is closed twice or sent on after its close, `done` is sent on at most once and that send finds its slot free, a sender inside `enqueue` never meets a closed channel, and no registered `Call` has returned with its pending call unfinalized or its stream open |
| `CallerTheorems.StreamContent` | sdk/caller.go:451-516 | In every run: what the drain took followed by what is buffered is an in-order, repeat-free part of the arrivals, and is all admitted arrivals if and only if none was lost; BufferBlock loses none while its context lives, BufferError none before the overflow that ends the call, under BufferDropOldest the buffer is the latest admitted arrivals without a gap |
| `CallerTheorems.LossHasCause` | sdk/caller.go:458-494 | Between any two consecutive states at most one chunk of a call is lost, and only because the context is over (Block), the buffer is full (DropNewest, Error), or as the oldest one, by a sender that found the buffer full (DropOldest) |
| `CallerTheorems.SuccessMeansDrained` | sdk/caller.go:312-339 | A streaming call that returned success has an ended drain and an empty buffer; every admitted chunk that was not evicted was handed over in order, or the handler failed at one chunk and exactly the later ones were discarded |
| `CallerTheorems.ChunkConservation` | sdk/caller.go:386-396 | In every reachable state the matched non-terminal messages equal delivered + dropped + overflows + chunks in `enqueue` + buffered + inside a handler + thrown away after a handler error, the failing one counted |
| `CallerTheorems.Shutdown` | sdk/caller.go:219-239 | After a `CloseContext` has left its critical section no entry or drain is ever created again and every entry then in the table is finalized; after one returned nil the number of active stream drains is zero and stays zero |
| `CallerTheorems.RunsGoOnward` | sdk/caller.go:225-279 | From any state of a run to any later one: fired calls stay fired, a closed router stays closed and gains no call, and no deregistered id comes back |
| `CallerTheorems.OutcomeIsOwn` | sdk/caller.go:241-427 | Every outcome of a call has its own cause: success, an undecodable envelope and an error envelope come from a terminal message delivered under its own id, a failed publish from a failing publish of this very call, the rest from its own failure event, context, handler, buffer, or the close of the router |
| `CallerTheorems.PublishFailedInRun` | sdk/caller.go:300-310 | A call that returns because it was not published had its own publish fail earlier in the run |
| `CallerTheorems.LateMessagesAreInert` | sdk/caller.go:368-382 | A message for a call that has left the table, however long ago, changes nothing but `Unmatched`; a failure event for it changes nothing |
| `CallerTheorems.SeenIsHistory` | sdk/caller.go:356-410 | The message histories the provenance results rest on hold exactly the messages delivered in the run |
| `CallerTheorems.OutcomeAccounting` | sdk/caller.go:241-354 | In every reachable state `Inflight` is the number of calls not past their deferred decrement, the table holds only such calls, `Completed` is the number of nil-error returns, and each call has bumped at most one of the five outcome counters, once |
| `CallerTheorems.MatchedIsCounted` | sdk/caller.go:386-396 | The per-call counts of matched chunks add up to the `onInbox` calls of the run that matched a non-terminal message |
| `CallerTheorems.ConservationOver` | sdk/caller.go:451-516 | The conservation law for any list of calls that keep the per-call invariant |
| `CallerTheorems.AccountingOver` | sdk/caller.go:274-279 | The outcome counters of any list of calls that keep the per-call invariant are counts of their states |
| `CallerHistory.RegisterExact` | sdk/caller.go:246-275 | In any run: after a close has begun `Call` adds nothing; before that it adds exactly one call with the policy, stream, buffer size (64 below one) and context it was given, in the table, with `Inflight`, and for a stream the drain counters, one up |
| `CallerHistory.SettingsOf` | sdk/caller.go:253-266 | Every call of a reachable state was added by a registration of the run, and has kept its settings since |
| `CallerHistory.ClosedIs` | sdk/caller.go:227 | The router is closed exactly when some `CloseContext` of the run has entered its critical section |
| `CallerHistory.PendingExact` | sdk/caller.go:273-279 | A call is in the table exactly from its registration until its deferred delete or the first failure event with its id after the registration |
| `CallerHistory.DeliveryExact` | sdk/caller.go:356-396 | A message whose call is in the table puts its reply among the results being passed and raises the envelope flag if it is terminal, joins the chunks waiting for `enqueue` if the call streams, and is counted dropped otherwise; a message whose call is not there is counted unmatched; nothing else changes |
| `CallerHistory.FailureExact` | sdk/caller.go:399-427 | A failure event takes its call out of the table and makes its error a result being passed; for any other call it changes nothing |
| `CallerHistory.RequestsExact` | sdk/caller.go:356-427 | The results that parties pass to `finalize` are exactly those the run made them pass: terminal messages and failure events that met the call in the table, failing handlers and publishes, the noticed end of the context, visits of a close |
| `CallerHistory.EnvelopeExact` | sdk/caller.go:375-377 | The envelope flag is up exactly when some terminal message that met the call in the table was marked so |
| `CallerHistory.FirstResultWins` | sdk/caller.go:518-528 | A call has a result exactly when some party has entered `doneOnce`; it is the result of the first one, in `doneOnce`, in `done`, and in what `Call` received; no second one ever enters |
| `CallerHistory.WinnerWasAsked` | sdk/caller.go:518-554 | The first result is one that some party was passing, or the overflow of the sender itself |
| `CallerHistory.OutcomeExact` | sdk/caller.go:312-352 | What a call returned, exactly, in terms of the actions: a reply if the first result is that reply and no terminal message of the call was an envelope or it decodes as ok, an undecodable or an error envelope otherwise by how it decodes, the first result itself if it is an error, the end of its context, or its failed publish |
| `CallerHistory.SettleExact` | sdk/caller.go:318-339 | The same for the reply alone: success if and only if the call was not enveloped or the envelope is ok, a decode error if and only if enveloped and malformed, an error envelope if and only if enveloped and not ok |
| `CallerHistory.ResultGetsThrough` | sdk/caller.go:312-339 | Any result being passed to a waiting unclaimed call can be the one it returns, by steps that are all enabled, the drain of a stream handling every buffered chunk on the way |
| `CallerHistory.ReplyGetsThrough` | sdk/caller.go:356-384 | From every reachable state in which a call of the table waits unclaimed, a terminal message with its id can arrive and be what the call returns |
| `CallerHistory.ArrivalsExact` | sdk/caller.go:386-396 | The chunks in and before `enqueue` are among the non-terminal messages that met the streaming call, each as often as it came, and are all of them until the call is finalized |
| `CallerHistory.CountersExact` | sdk/caller.go:312-352 | `TimedOut`, `Cancelled`, `DecodeErrs`, `FailedFast` and the drain group each equal the number of calls with that outcome or with a drain not yet gone |
| `CallerInvariants.LifecycleKept` | sdk/caller.go:518-554 | Every step of every goroutine keeps the agreement of `doneOnce`, `finalized`, the stream channel, `done`, the drain and the caller's position |
| `CallerInvariants.OrderingKept` | sdk/caller.go:451-516 | Every step keeps the taken and buffered chunks an increasing selection of the arrivals, the buffer within its capacity, and the arrivals accounted for |
| `CallerInvariants.CountingKept` | sdk/caller.go:451-516 | Every step keeps the count of where each matched chunk is and which policy may have lost one |
| `CallerInvariants.AccountingKept` | sdk/caller.go:312-352 | Every step keeps each counter a function of where the goroutines of the call are |
| `CallerInvariants.ProvenanceKept` | sdk/caller.go:518-554 | Every step keeps a recorded cause behind every result on its way to the caller |
| `CallerInvariants.CallInvOfNew` | sdk/caller.go:252-271 | A call as `Call` builds it satisfies the whole invariant, for every policy, buffer size and context |
| `CallerInvariants.CallInvOfDelivery` | sdk/caller.go:368-396 | Handing any message with its id to a call keeps the whole invariant |
| `CallerRuns.InvKept` | sdk/caller.go:219-427 | Every action of the router, whichever goroutine takes it, keeps the invariant of the whole router |
| `CallerRuns.InvAlways` | sdk/caller.go:219-427 | The invariant holds in every state of every run |
| `PendingCalls.PendingCall.constructor` | sdk/caller.go:252-266 | A new pending call is the one the step system registers, with the default buffer size for sizes below one |
| `PendingCalls.PendingCall.Enqueue` | sdk/caller.go:451-495 | Uninterrupted `enqueue`: it blocks exactly under BufferBlock with a full buffer and a live context, holding `sendMu`; otherwise the exact new buffer, counters, `finalized` and `done` for each policy, with and without room; and the call stays what a sequence of the router's steps makes of the registered one |
| `PendingCalls.PendingCall.PushOverOldest` | sdk/caller.go:470-482 | The DropOldest loop evicts exactly one chunk, the oldest, exactly when the buffer is full, and ends |
| `PendingCalls.PendingCall.Drain` | sdk/caller.go:497-516 | Uninterrupted `drain`: the handler gets the buffer in order up to and including the first chunk it fails on, the rest is discarded, the call is then finalized with the handler's error unless it already was; the call stays what a sequence of the router's steps makes of the registered one |
| `PendingCalls.PendingCall.Finalize` | sdk/caller.go:518-528 | `finalize`: the first result wins and the stream is closed; a second call changes neither |
| `PendingCalls.PendingCall.FinalizeLocked` | sdk/caller.go:546-554 | An overflow finalizes the call with the overflow error and closes its stream |
| `Graph.VisitSound` | kit.go:193-222 | A successful depth-first visit extends a duplicate-free, dependency-closed order in which each node follows its dependencies |
| `Graph.VisitAllSound` | kit.go:210-228 | The same for visiting a list of nodes |
| `Graph.VisitFails` | kit.go:193-222 | A failed visit yields a path that repeats a node or leaves the graph |
| `Graph.RootsFail` | kit.go:224-228 | If visiting the roots fails, some root has such a path |
| `Graph.PathsGoBack` | kit.go:210-220 | In a dependency-closed order every path runs strictly backwards |
| `Graph.VisitAllDecides` | kit.go:193-228 | Visiting the roots succeeds if and only if no path from a root repeats a node or leaves the graph |
| `Graph.VisitAllLists` | kit.go:193-228 | On success the order lists exactly the nodes the roots lead to |
| `Startup.StartupOrder` | kit.go:172-230 | Ordering succeeds if and only if everything the configured modules lead to is explicit or buildable and no dependency path apart from self-loops is cyclic; the list then holds exactly what they lead to, each once, after all its dependencies, and every configured module |
| `Startup.OrderModulesForStartup` | kit.go:172-230 | The two loops and the recursive closure compute that order, or refuse: with the missing-id error exactly when a configured module has no id; any other refusal names a module that the configured ones lead to and that cannot be built or lies on a genuine cycle. On success, over the configured list and the registry alone: the first module configured under each id is itself listed, any other is what its registered factory builds and a later one needs it, no id comes twice, and each module comes after all the modules its own dependencies name but itself and the empty name |
| `Startup.OrderedAre` | kit.go:193-228 | The listed modules by configuration and registry alone: the first module configured under an id is listed itself, any other listed module is what its factory builds and is needed by a later one, no id comes twice, and each module follows those named in its own dependencies |
| `Startup.SourceIs` | kit.go:202-209 | What stands for an id is the first module configured under it, and without one what the registered factory builds |
| `Startup.EdgeIs` | kit.go:210-213 | One id is visited from another exactly when what stands for the other names it, apart from itself and the empty name |
| `Startup.CollectConfigured` | kit.go:173-188 | Nil modules are skipped, a missing id is reported exactly when there is one, and the first module under each id is kept, in order |
| `Startup.SortFrom` | kit.go:224-229 | Visiting the roots in order, with the state carried over, is the depth-first visit of the list |
| `Startup.Sorter.Visit` | kit.go:193-222 | The three-colour closure over `state` and `out` succeeds exactly when the visit from the grey stack does, and appends exactly what it finishes; it terminates |
| `Startup.WantedIs` | kit.go:210-213 | Only empty names and the module itself are skipped among its dependencies |
| `Plan.CapabilitiesAre` | module_preflight.go:132-157 | A module provides exactly the named capabilities it declares provided and requires exactly those it declares required; optional and nameless ones never count |
| `Plan.PlanIsVisit` | module_preflight.go:85-163 | Planning a module is a depth-first visit of the unmet dependencies whose order has every required capability available in time |
| `Plan.PlanDecides` | module_preflight.go:85-163 | Planning succeeds if and only if no path of unmet dependencies is cyclic or leaves the registered modules and each module finds its required capabilities in the kit or among modules finished before it; the plan lists exactly what is reached, dependencies first, the module last |
| `Plan.PlanContinues` | module_mount.go:35-54 | Whatever part of a plan has been mounted, planning from there gives exactly the rest of it |
| `Plan.PlanDependency` | module_mount.go:38-54 | The first unmet dependency of a planned module has a plan of its own in the kit as it then is, a prefix of what remains, and the rest of the plan goes on after it |
| `Plan.PlanSplits` | module_preflight.go:102-157 | A plan is the plan of the dependencies followed by the module, whose required capabilities they and the kit cover |
| `Plan.PlannedHasNoSelf` | module_preflight.go:106-110 | No planned module requires itself |
| `Plan.AllMet` | module_mount.go:72-74 | With all dependencies mounted the second preflight has nothing left to plan |
| `Preflight.PreflightIsExact` | module_preflight.go:85-163 | The exact condition for Ready and the exact post-order, in terms of paths of unmet dependencies and capabilities provided earlier |
| `Preflight.PreflightDescriptor` | module_preflight.go:50-68 | Ready is what `check` answers on the root and equals the plan's existence. The report is exact: a module is missing if and only if it is neither registered nor mounted and another module that the root leads to requires it; a self-requirement is reported if and only if a module led to requires itself; each reported cycle is a circle of registered modules led to, and one is reported if and only if there is one; a required capability of a module led to that neither the kit nor any module led to provides is reported under that module, and nothing that the kit has or the module does not require is. Every module led to is checked exactly once, found ready exactly when its requirements were found ready before it and no capability is missing, and a capability is missing of it exactly when no module found ready before provides it |
| `Preflight.Planner.Check` | module_preflight.go:85-163 | From a clean planner `check` returns true exactly when the plan exists and then has finished exactly its modules; otherwise it reports something; nothing found is taken back, and the module is finished with that verdict, or being visited with a cycle reported |
| `Preflight.Planner.CheckDependencies` | module_preflight.go:102-130 | The loop goes through all required modules: each one is finished, mounted or reported, whatever the others came to; the answer is true exactly when each is mounted or was found ready; from a clean planner it plans them all or reports |
| `Preflight.Planner.CheckCapabilities` | module_preflight.go:132-148 | Exactly the required capabilities that are neither planned, mounted nor core are added to the report, under this module |
| `Preflight.NothingLeftOut` | module_preflight.go:102-148 | From the invariant of the search: no missing module, self-requirement, circle or unprovided capability that the root leads to goes unreported |
| `Preflight.CircleIsSeen` | module_preflight.go:91-97 | A circle of registered modules on the way is reported, because each check in it would have to be finished before the one that asks for it |
| `Preflight.AllChecked` | module_preflight.go:102-130 | Every registered module that a path of unmet requirements leads to is checked |
| `Preflight.SelfIsNotMissing` | module_preflight.go:106-110 | An unregistered root that only it itself requires is reported as requiring itself and not as missing |
| `Preflight.CycleLabel` | module_preflight.go:198-209 | The label runs from the first occurrence of the module on the stack back to it |
| `Preflight.LabelIsChain` | module_preflight.go:198-209 | Such a label is a chain of actual requirements |
| `Kit.Kit.Mount` | module_mount.go:23-109 | Whatever the modules do, the four views of what is mounted agree, dependencies stay first, and nothing mounted is touched; without an id, already mounted, or not ready by the planner, the module is refused with that error and nothing at all changes; if preflight is ready and the modules of the plan build, mount and provide exactly what they declare without clashes, the mount succeeds and appends exactly the planner's order. Every module that is new afterwards has had its own callback succeed during this call and holds only names that callback attempted, all of them where refusals count; unless it is the module asked for, its own build succeeded during the call too; a build or mount failure is what some module answered during the call |
| `Kit.Kit.MountWithin` | module_mount.go:23-109 | The same for the recursive calls; it terminates |
| `Kit.Kit.MountDependencies` | module_mount.go:38-67 | On a favourable plan the loop mounts exactly the planned dependencies in order; in any case success means all are mounted |
| `Kit.Kit.MountDependency` | module_mount.go:45-54 | One dependency: a favourable plan stays on course |
| `Kit.Kit.MountAlone` | module_mount.go:69-108 | With the dependencies in place, a fair module whose capabilities do not clash is mounted; a failure leaves the set of modules as it was; past the checks that come first it succeeds exactly when the callback does and no attempted name was refused in a strict scope |
| `Kit.Kit.OpenAndMount` | module_mount.go:76-108 | It fails, with the mount error, exactly when the callback returns an error at that time or holds on to a refused name, and then leaves no trace in any of the structures; a successful one files the module in all four |
| `Kit.Kit.RunCallback` | module_mount.go:94-101 | The capabilities a callback provides are exactly the names it attempted that were not empty and not taken, owned by its scope; it succeeds exactly when the module's own answer is yes and, where refusals count, no attempted name was empty, taken or repeated |
| `Kit.Kit.NextDependency` | module_mount.go:38-54 | On course, the next unmet dependency is registered, buildable and has a favourable plan of its own |
| `Kit.ChainExtends` | module_mount.go:38-54 | The modules whose Mount is in progress never meet themselves, so the recursion ends |
| `Kit.Kit.Unmount` | module_mount.go:187-209 | Each refusal has its exact condition (mounted dependents, not mounted, close failed) the first two changing nothing and the last only releasing what the scope held; otherwise exactly this module goes, and dependencies stay first |
| `Kit.Kit.CloseMounted` | module_mount.go:310-365 | Scopes are attempted in exactly reverse mount order; afterwards exactly the modules whose close failed remain, in all four structures, in their original order; nil is returned exactly when none remain |
| `Kit.Serve` | module_mount.go:23-209 | For any sequence of mount and unmount requests to a new kit, with arbitrary callback and cleanup failures, after every request the keys of `mounted`, `modules` and `descs` are the duplicate-free mount order and everything a mounted module requires is mounted before it; a mount only adds at the end, an unmount changes nothing or removes its module alone, which nothing then requires |
| `Kit.DependentsCloseFirst` | module_mount.go:320-328 | In that sequence every module comes before everything it requires |
| `Kit.ClosedOfReversed` | module_mount.go:342-350 | Which modules survive, seen from the mount order |
| `Kit.SurvivorsAre` | module_mount.go:351-363 | Removing the closed modules one by one leaves exactly the survivors |
| `Kit.Kit.Forget` | module_mount.go:200-206 | Deleting a closed module keeps the four views in agreement, and dependencies first if nothing requires it |
| `Kit.Kit.RemoveMountOrder` | module_mount.go:367-375 | Removes the first occurrence of the id and nothing else |
| `Kit.DepsFirstWithout` | module_mount.go:187-206 | Taking out a module that no other requires keeps every dependency before its dependents |
| `Kit.OwnedClose` | module_mount.go:96-98 | Closing a scope gives back exactly the capabilities it held |
| `Scope.CloseOrder` | module/scope.go:90-108 | For every tree and every pattern of failures, one `Close` calls exactly the functions left in the subtree, each once, in reverse registration order, a child's in the child's place |
| `Scope.YoungestFirst` | module/scope.go:101-108 | In that order whatever a later registration calls comes before whatever an earlier one calls |
| `Scope.CloseAnswers` | module/scope.go:97-118 | What is recorded of each call is what the function answered at that moment; `Close` returns nil exactly when all functions it called succeeded; afterwards the scope and the child scopes it held are closed |
| `Scope.FailedRemain` | module/scope.go:109-116 | A named scope keeps exactly those of its functions that have not succeeded, and a child scope off its list is closed and empty |
| `Scope.CloseKeeps` | module/scope.go:90-118 | After any `Close` what is left is an order-preserving sublist of what was left before, no function is called again after it succeeded, an open scope has lost nothing, and what is off the list of a named scope has succeeded |
| `Scope.NilMeansDone` | module/scope.go:90-118 | For every tree and scope: everything accepted in the subtree has succeeded after a `Close` if and only if it returned nil and nothing in the subtree had been forgotten before; so nil is right exactly when that condition, readable before the call, holds or an error is returned, and always when the scopes of this subtree have ids |
| `Scope.CloseExact` | module/scope.go:90-118 | The same from the inductive invariant of the younger scopes alone |
| `Scope.NamedForgetNothing` | module/scope.go:109-116 | A subtree whose scopes all have ids never forgets anything |
| `Scope.UnnamedForgets` | module/scope.go:109-117 | Where it does go wrong: a scope with an empty id whose `Close` fails has forgotten, and returns nil the next time although something has not succeeded |
| `Scope.NamedRootForgets` | module/scope.go:39-52 | An id of its own does not save a scope: a named root over an unnamed child does the same |
| `Scope.CloseConfined` | module/scope.go:90-118 | A `Close` changes no scope outside the subtree and calls no function registered outside it |
| `Scope.CloseSound` | module/scope.go:90-118 | Closing one scope keeps every scope of the tree in order, older ones included |
| `Scope.OpenedSound` | module/scope.go:33-44 | Making a scope keeps the tree in order |
| `Scope.RegisteredSound` | module/scope.go:45-63 | Registering a cleanup on an open scope keeps the tree in order |
| `Scope.ScopeTree.NewScope` | module/scope.go:33-35 | A new, open, empty scope and nothing else |
| `Scope.ScopeTree.Child` | module/scope.go:39-52 | The child is named exactly when its own id is not empty, and is registered exactly when the parent is open |
| `Scope.ScopeTree.Defer` | module/scope.go:54-64 | An open scope accepts the cleanup at the end of its list; a closed one ignores it |
| `Scope.ScopeTree.Close` | module/scope.go:90-118 | One attempt in place: call order, what the functions answered, nil exactly when all of them succeeded, exactly which functions a named scope keeps and that an unnamed one keeps nothing, and the exact meaning of nil for everything ever accepted, together with the invariant of the whole tree |
| `Scope.ScopeTree.RunBackwards` | module/scope.go:101-108 | The backward loop runs every cleanup from the last and returns what failed, last first |
| `Scope.ScopeTree.PutBack` | module/scope.go:109-116 | The failed cleanups return to the list in registration order |
| `Wav.ContainerRoundTrip` | audio/local/local.go:187-211 | For every list of word-aligned chunks of at least 44 bytes in all, whatever the pad bytes, the RIFF size field and up to seven trailing bytes, the scan visits exactly those chunks in order and the result is decided by them |
| `Wav.ReadBack` | audio/local/local.go:188-211 | Whole chunks in any surroundings are read one by one, and reading goes on behind them |
| `Wav.DecodeIs` | audio/local/local.go:173-218 | A file is accepted, with a given payload, rate and channel count, if and only if it is long enough, has the magic, its last data chunk is that payload and its last complete format chunk says that rate, those channels and 16 bits with a nonzero rate |
| `Wav.DecodeFails` | audio/local/local.go:212-216 | A RIFF/WAVE file is malformed exactly when it has no data chunk, no complete format chunk, or a last one with rate zero; its depth is unsupported exactly when it is not malformed and the last format chunk says other than 16 bits |
| `Wav.DecodeWAV` | audio/local/local.go:173-218 | The loop with the moving offset computes that result, clipping a chunk that runs past the end and skipping pad bytes; each error has its case |
| `Wav.ReadsWhatIsWritten` | audio/local/check.go:132-147 | The reader undoes the header writer if and only if the rate is 1 to 2^32-1, the channel count fits 16 bits and the payload fits 32 bits of length; an odd payload does no harm |
| `Wav.WriteWAV` | audio/local/check.go:132-147 | The header filled in place, then the payload, is the two-chunk container |
| `Wav.ChunksOfWritten` | examples/voice-broadcast/main.go:186-202 | The written file is 44 bytes and the payload, a format chunk and then a data chunk whose size field holds the length modulo 2^32 |
| `Wav.HeaderFields` | audio/local/check.go:132-147 | Every field of a written header by offset, as plain little-endian arithmetic: RIFF size, format size 16, format tag 1, channels, frame rate, bytes per second, bytes per frame, 16 bits, data size, each cut to its width, and the samples from byte 44 on |
| `Wav.ChunkFields` | audio/local/local.go:188-191 | What the reader takes from a chunk, by offset: four bytes of id, the little-endian size, the body as far as there is one |
| `Wav.FormatFields` | audio/local/local.go:193-199 | Channels, rate and depth stand at bytes 2, 4 and 14 of a format chunk |
| `Wav.ClippedChunk` | audio/local/local.go:191 | A last chunk whose size promises more than there is holds what there is |
| `Wav.NoWaveFile` | audio/local/local.go:174-179 | Too short means fewer than 44 bytes, and not a wave file means other marks at bytes 0 and 8; each exactly |
| `Wav.BodiesFit` | audio/local/local.go:191 | No chunk body reaches past the end of the file |
| `Pcm.MixIsMean` | audio/local/local.go:243-249 | For every channel count that 32 bits do not cut to zero: the mix is the mean of every frame, rounded towards zero, if and only if there are at most 65536 channels |
| `Pcm.MixedWrongly` | audio/local/local.go:243-249 | Above that there is a frame that is mixed wrongly, because the sum or the cut channel count wraps |
| `Pcm.MixFits` | audio/local/local.go:243-249 | Up to 65536 channels the sum never leaves 32 bits and the mean fits 16 bits |
| `Pcm.MonoRoundTrip` | audio/local/local.go:237-257 | Mono spread over n channels and mixed down again is the identity on whole frames, for every n from 2 to 65536; the only other outcome is a wide form longer than a slice can be |
| `Pcm.RemapChannels` | audio/local/local.go:237-257 | The nested loops over the byte buffer compute the frame-by-frame mapping; equal or zero channel counts return the input; an output too long for a slice and a division by a count cut to zero panic |
| `Pcm.MixFrame` | audio/local/local.go:244-249 | The inner loop computes the wrapped sum's quotient as a 16-bit sample |
| `Pcm.FanOut` | audio/local/local.go:251-253 | The sample is written to every destination channel of the frame |
| `Pcm.IndexInside` | audio/local/local.go:268-271 | The source index is below the frame count even without the clamp |
| `Pcm.IndexMoves` | audio/local/local.go:268 | The index never decreases, strictly increases when the rate falls or stays, and moves by at most one when it rises or stays |
| `Pcm.AllButTheLast` | audio/local/local.go:267-273 | When the rate rises every source frame except possibly the last is used |
| `Pcm.LastIsHeard` | audio/local/local.go:265-271 | The last source frame is used if and only if the last index reaches it, and always when the rate at least doubles |
| `Pcm.CountIs` | audio/local/local.go:265 | The program's frame count is the exact one if the product fits 64 bits, and otherwise too small |
| `Pcm.ProductsFit` | audio/local/local.go:265-268 | No product of the loop leaves 64 bits, even when the first one did |
| `Pcm.RateRoundTrip` | audio/local/local.go:259-275 | Raising the rate by a whole factor and lowering it again is the identity on whole frames if and only if the first product fits 64 bits and the raised form fits a slice |
| `Pcm.ResampleNearest` | audio/local/local.go:259-275 | For all rates, overflow included, the copying loop computes the nearest-frame selection; equal or zero rates and zero channels return the input; a negative or too long output panics |
| `Pcm.MatchedFrames` | audio/local/local.go:226-235 | Frame i of the output is the mix of source frame floor(i*src/dst) in every output channel, and there are floor(n*dst/src) frames unless that product overflows; the panics have their exact conditions |
| `Pcm.OnlyChannels` | audio/local/local.go:226-257 | With equal rates every frame is mapped and none is added or lost |
| `Pcm.OnlyRates` | audio/local/local.go:226-275 | With equal channel counts frames are repeated or left out whole |
| `Pcm.PassedOn` | audio/local/local.go:227-262 | Input that needs no conversion, or has no channels or rate to convert by, comes back as it is |
| `Pcm.StereoMix` | audio/local/local.go:244-250 | The mix of two channels is half their sum rounded towards zero |
| `Pcm.SampleIs` | audio/local/local.go:247 | A sample is two bytes, the low one first, in two's complement |
| `Pcm.FannedIs` | audio/local/local.go:251-254 | Every destination channel holds the low 16 bits of the mix, the low byte first |
| `Pcm.Scaled` | audio/local/local.go:265-268 | Frame count and source index are the scaled numbers rounded down |
| `Pcm.MatchCommutes` | audio/local/local.go:226-235 | Mapping channels before or after resampling gives the same bytes whenever neither order panics |
| `Pcm.MatchOutput` | audio/local/local.go:226-235 | Channel mapping first, then resampling with the new channel count |
| `Pcm.FramesOfJoined` | audio/local/local.go:241-255 | Cutting into frames undoes joining them |
| `Bytes.PutBytes` | audio/local/check.go:133-145 | Writing at an index changes exactly those bytes |
| `Bytes.PutUint32` | audio/local/check.go:134-145 | The low 32 bits in little-endian order |
| `Bytes.PutUint16` | audio/local/check.go:138-143 | The low 16 bits in little-endian order |
| `Bson.RoundTrip` | experiments/mongo-scram/mongo_auth.go:215-381 | For every document that is a map at each level and whose encoding fits the length field, decoding the encoding gives the same document if and only if no key at any depth holds a zero byte and every integer fits 32 bits |
| `Bson.DecodeEncode` | experiments/mongo-scram/mongo_auth.go:215-381 | With clean keys, whatever bytes follow, an encoded document decodes to itself with integers cut to 32 bits, and nothing behind it is looked at |
| `Bson.AnyOrder` | experiments/mongo-scram/mongo_auth.go:219-222 | Whatever order the encoder ranges over the maps in, at any depth, the decoder sees the same document, if no key holds a zero byte |
| `Bson.OrderMatters` | experiments/mongo-scram/mongo_auth.go:219-224 | With a zero byte in a key the law fails: two entries whose two orders decode to different documents |
| `Bson.ElementRead` | experiments/mongo-scram/mongo_auth.go:305-376 | One encoded element is stored under its key and the scan goes on exactly behind it |
| `Bson.ValueRead` | experiments/mongo-scram/mongo_auth.go:320-372 | Each kind of value is read back and consumes exactly its own bytes, nested documents included |
| `Bson.DecodedKeys` | experiments/mongo-scram/mongo_auth.go:309-317 | Whatever the bytes, no decoded key at any depth holds a zero byte |
| `Bson.UncutFits` | experiments/mongo-scram/mongo_auth.go:221-227 | If no integer was changed by the cut, all of them fit |
| `Bson.ZeroKeyShows` | experiments/mongo-scram/mongo_auth.go:219-224 | A key with a zero byte, at any depth, is visible in the document |
| `Bson.JsonToBSON` | experiments/mongo-scram/mongo_auth.go:215-287 | The growing buffer with the length filled in last is the encoding |
| `Bson.BsonToJSON` | experiments/mongo-scram/mongo_auth.go:290-381 | The loop with the moving position and the filling result is the decoder, for every input: errors and out-of-range panics included |
| `Bson.ReadElement` | experiments/mongo-scram/mongo_auth.go:319-378 | The switch: a value cut short is skipped because `break` leaves only the switch |
| `BsonGrammar.DocumentWritten` | experiments/mongo-scram/mongo_auth.go:215-287 | With clean keys the encoder's bytes are a document of the BSON 1.1 grammar (its own relation with literal type bytes and layouts) whose fields are the map's entries, integers cut to 32 bits, binaries of subtype 0 |
| `BsonGrammar.DocumentRead` | experiments/mongo-scram/mongo_auth.go:290-381 | Every byte string that the grammar relates to some fields, int64, datetime and double included, decodes to those fields whatever follows: integers by signed value, datetimes passed over with their eight bytes, doubles as their word |
| `BsonGrammar.ContentRead` | experiments/mongo-scram/mongo_auth.go:319-378 | Each kind of content is read with its value and consumes exactly its own bytes |
| `BsonGrammar.OneMeaning` | experiments/mongo-scram/mongo_auth.go:290-381 | Two readings of the same bytes by the grammar mean the same to the decoder |
| `BsonGrammar.UnknownType` | experiments/mongo-scram/mongo_auth.go:376-378 | An element of a type outside the eight ends the document there: the result is the fields before it |
| `BsonGrammar.EndsThere` | experiments/mongo-scram/mongo_auth.go:302-314 | So do a zero byte, the last byte, and a key without an end |
| `BsonGrammar.CutShort` | experiments/mongo-scram/mongo_auth.go:319-375 | A value whose bytes the document does not hold is passed over and the bytes left of it are read as further elements: the document decodes as it would without the head of that element |
| `BsonGrammar.Unreadable` | experiments/mongo-scram/mongo_auth.go:324-350 | A string of length zero and a boolean without a byte panic, and what a subdocument does the whole does |
| `BsonGrammar.Lengths` | experiments/mongo-scram/mongo_auth.go:291-298 | Fewer than five bytes, or a length beyond the input, is an error; a length of five or less leaves nothing to read |
| `BsonGrammar.ScanShifts` | experiments/mongo-scram/mongo_auth.go:302-381 | What the decoder makes of the rest does not depend on what stands before it |
| `Promise.FirstCallWins` | vendor_quickjs/context.go:1157-1179 | In every run at most one JS function is executed, it is that of the call whose compare-and-swap came first, and its references are owned at that moment |
| `Promise.Ownership` | vendor_quickjs/context.go:136-181 | In every reachable state: exactly which duplicates have been released, none twice, and none while a job that uses it runs |
| `Promise.QuietRunIsClean` | vendor_quickjs/context.go:136-181 | When all calls have returned and no job is left, both function duplicates have been released exactly once if and only if `Close` threw no job away, and a function was executed if and only if the job was neither thrown away nor refused |
| `Promise.LaterCallsAreInert` | vendor_quickjs/context.go:1160-1167 | Once the promise is settled any other call can only swap, which changes nothing but its own position |
| `Promise.SwapsAreHistory` | vendor_quickjs/context.go:1162 | The recorded order of swaps is the order of the swap actions in the run |
| `Promise.RecordsAreHistory` | vendor_quickjs/context.go:56-181 | The context is closed exactly when a `Close` has happened, and the records of refused, thrown-away and finished jobs are those of the run |
| `Promise.QueueIsFifo` | vendor_quickjs/context.go:56-92 | Jobs leave the queue in the order in which they entered it and none is lost on the way |
| `Promise.StartExecutes` | vendor_quickjs/context.go:153-166 | A job that is started executes the function of its call's side, for that call, with both duplicates owned |
| `Promise.InvKept` | vendor_quickjs/context.go:56-181 | Every step of every goroutine, the job loop and `Close` keeps the ownership invariant |
| `Promise.InvAlways` | vendor_quickjs/context.go:56-181 | The invariant holds in every state of every run |
| `Promise.QuietIsClean` | vendor_quickjs/context.go:136-181 | The quiescent case, from the invariant alone |
| `Promise.Context.SettleCall` | vendor_quickjs/context.go:1160-1167 | A call of `resolve` or `reject` in one piece is the corresponding steps in order; it blocks exactly when it is the first and the open context's queue is full |
| `Promise.Context.Resume` | vendor_quickjs/context.go:65-73 | A blocked call goes on once there is room or the context is closed |
| `Promise.Context.Callback` | vendor_quickjs/context.go:148-179 | The callback hands the function to the job or, refused, releases it with the argument |
| `Promise.Context.ScheduleJob` | vendor_quickjs/context.go:56-74 | An open context queues the job or, with a full queue, blocks; a closed one refuses it |
| `Promise.Context.ReleaseOther` | vendor_quickjs/context.go:143-147 | The other side's duplicate is released unless its callback has consumed it |
| `Promise.Context.RunJob` | vendor_quickjs/context.go:153-171 | A job executes its function and releases the argument and the function |
| `Promise.Context.ProcessJobs` | vendor_quickjs/context.go:78-92 | The loop ends with an empty queue and keeps the ownership invariant |
| `Promise.Context.NewPromise` | vendor_quickjs/context.go:1138-1177 | For every sequence of calls by the executor: the first settles the promise, exactly its function is executed, and both duplicates are released exactly once |

## Left out

- Deadlock freedom of the router: `finalize` and the overflow path take `doneOnce` and `sendMu` in opposite orders, and a blocked sender can hold up a handler error; that a result can get through is claimed for calls whose `sendMu` is free.
- PendingCalls.PendingCall.Drain: takes the buffer as it is when no sender runs beside it; interleavings are those of the step system.
- The race on the `envelope` flag: looking a call up and setting the flag is one step, and two terminal replies with one id are not told apart.
- Unsubscribing the inbox: the model goes on accepting messages after the close, which covers both cases.
- A handler error after a successful terminal reply becomes no result; nothing is claimed about it beyond the step system.
- Namespaces, caller ids, metadata, the cancel notice, and the JSON of failure events: the router's state does not depend on them.
- Error texts throughout, and the parts of a preflight report that `Ready` does not depend on (required and optional availability lists, sources and providers).
- Kit.Kit.Mount: one call at a time, without reentrant calls from callbacks; a factory builds a module with its registered descriptor; descriptor normalization is assumed; the merging of mounted commands, subscriptions, capabilities and resources into the stored descriptor is left out.
- Kit.Kit.CloseMounted: says nothing about dependency closure after a close has failed; the program carries on past failures on purpose.
- Startup.OrderModulesForStartup: a registered factory is a fixed module under its own id; building is not repeated or timed.
- Scope.ScopeTree.Close: one `Close` at a time, and cleanups that do not touch the tree; `Resources` is left out. Scopes are positions in one store instead of pointers.
- Wav.WriteWAV: the sine samples are any payload; the float computation is not modelled.
- Pcm.RemapChannels: a channel count of 2^62 and more, for which doubling it leaves 64 bits, is outside the contract; negative counts and rates likewise. Running out of memory is not modelled.
- MP3 decoding, playback, device probes, peak detection.
- Bson.JsonToBSON: doubles are left out, which the program converts by value and not by bit pattern, and `map[string]string`, which is a document of texts; values of other types are skipped by the program and do not occur in the model.
- Bson.BsonToJSON: a float64 made of a 64-bit word is kept as that word, without rounding.
- The JS engine, the C bridge, the schedule hook, `Await`, and the values passed to the functions.
- Transports, server, CLI, code generators, provider configuration, TypeScript bundling: plumbing without a protocol of its own, or foreign code.
