# wineopenxr: a verified model of the bridge

wineopenxr lets a Windows OpenXR application run on a macOS OpenXR runtime. A PE DLL faces the
application, a unix library faces the runtime, and a generator writes the thunks between them. This
project models the parts of it that keep state, order events or compute tables, and proves what they
are for. `dafny verify dfyconfig.toml` checks everything.

| file | subject |
|---|---|
| Machine.dfy | runs of a transition system |
| ReleaseFence.dfy | the swapchain release fence: application threads, two in-order GPU queues, the shared event and the CPU fallbacks, as an interleaving machine |
| ReleaseOverlap.dfy | the CPU waits: what holds while releases do not overlap and waits do not time out, and runs that show why |
| ReleaseEvent.dfy | the unlocked event: what overlap breaks, and which releases go out unordered and are read early |
| ReleaseCode.dfy | the release path as code over mutable fields, refining that machine |
| SessionLifecycle.dfy | sessions and instances under `primary_session_lock`, all interleavings |
| Swizzle.dfy | the table of saved originals, the installer and the lookup, over any class hierarchy |
| ArmMachine.dfy | the per-thread arm that substitutes one texture, over any history of all threads |
| LayeredPass.dfy | the layer count of D3DMetal's layered multisampled passes |
| EndFrame.dfy | xrEndFrame: two flat arrays and a running offset against a plain map |
| PollEvent.dfy | xrPollEvent: a bounded filter over the host's event stream |
| Enumeration.dfy | lists the host hands over in two calls |
| Negotiation.dfy | extension names: enumerate, check, translate, forward |
| Lookup.dfy | binary searches, the enabled-extension bitset, the gate of xrGetInstanceProcAddr |
| Dispatch.dfy | the unix dispatch table over create and destroy runs, and its agreement with the gate |
| SwapchainImages.dfy | the ledger of imported texture references |
| SwapchainList.dfy | the intrusive list, first fill, enumeration and teardown, proved against the ledger |
| TimeConversion.dfy | XrTime and the performance counter, with offsets sampled once, any threads |
| Formats.dfy | swapchain formats: enumeration against creation |
| TypeClosure.dfy, DependsExpression.dfy, GenerationPlan.dfy, StringOrder.dfy | the generator |
| Prelude.dfy | Option and Result |

The PE and unix code changes state in place, so it appears as classes and methods with loops. Each is
proved against a function on values; the laws are lemmas about runs of those functions. Concurrency is
an interleaving of actions: a section under a lock is one action, an unlocked read or write is one too.

## What the model assumes of the environment

- Both GPU queues run in order. A successful keyed-mutex release or fence signal appends exactly one
  signal, of the counted value, behind the work already submitted; a D3D11 event query covers the work
  submitted when it is ended. The runtime reads an image on the binding queue
  (src/unix/session.m:155-177), after the release of that image has reached it. A wait encoded on a nil
  event waits for nothing.
- Wrapper handles passed in are live or null. An instance record stays readable after xrDestroyInstance
  frees it: the "Threading Behavior" section of the OpenXR 1.1 specification makes the application
  serialise xrDestroyInstance. `SessionLifecycle.AppSerialises` states its side of that bargain;
  `OverlappingDestroysTearDownTwice` shows the bargain is needed.
- Foreign results (memory, unix call status, host results, D3D results, clock readings, what other
  threads do meanwhile) are parameters or actions, and range over everything.
- `mtl_shared_event`, `gpu_fence_checked` and `d3d12_cpu_fence_value` are plain fields used without a
  lock; each read or write of them is one action, with these exceptions. The two fields of the first guard
  are read in one action: the event only ever goes off and the check is only ever claimed, so reading them
  apart adds no outcome. gpu_fence_value_reached on an event that another thread has cleared can only
  report failure; the model lets it succeed too, and the event is off at the second guard either way.
  Creating the CPU fence or query on first use is one action; two overlapping first uses that create two
  objects are not modelled.

## Where the code and its comments differ

- src/unix/openxr.c:579-584 says a counter-first conversion bootstraps a zero offset. The code stores
  seed - now, two clock readings apart, which is zero only if they coincide. The model has two readings.
- src/unix/openxr.c:379-384 speaks of a generated NULL guard on dispatch slots. The generator emits none
  (generator/make_openxr.py:777-793), so nothing is claimed about one.
- src/unix/dmsubst.m:779-783 says the layer count is raised when every attachment and resolve target is
  an array bound at slice 0. The code does not look at the depth and stencil resolve targets;
  `LayeredPass.RaisedPassFits` gives the exact condition and `DepthResolveIsNotInspected` an example.
- src/pe/openxr.c:2149-2182 and src/unix/openxr.c:661-682: when releases of one session overlap, a wait
  can be committed after the first check has failed. `OverlapMayQueueLateWait` is the run; the wait still
  has its signal (`BlockedWaitHasPendingSignal`), so the queue does not wedge in the model. The event can
  also go off between the guard and the argument of encode_gpu_wait (src/unix/openxr.c:678-681). Both
  happen in some run if and only if releases may overlap (`NoLateWaitsExactly`, `KeepsEventsExactly`).
- src/pe/openxr.c:1165-1191 waits for the D3D12 fence with one counter and one auto-reset event a session,
  outside swapchain_lock. Its wait orders a release exactly as long as releases do not overlap and no wait
  has timed out (`CpuWaitsOrderExactly`): with overlap one thread's signal wakes another, and a wait that
  timed out leaves a registration that wakes the next. Both CPU fallbacks (also src/pe/openxr.c:936-987)
  may be skipped silently when a foreign call fails; `UnsyncedExactly` counts such releases as unordered,
  and `EarlyReadsExactly` says which causes a session admits.
- src/pe/openxr.c:1717-1723 destroys the abandoned host session through the one dispatch table, which
  src/unix/openxr.c:390-395 may have cleared by then, and which a later instance may have filled again. It is
  its own instance's exactly as long as the unix half of that instance's xrDestroyInstance has not run
  (`SessionDestroyFindsItsTable`); `AbandonMayFindNoSlot` and `AbandonMayFindAnothersTable` are the other cases.
- src/pe/openxr.c:2346-2347 multiplies the view count by the element size without a check. The product fits
  size_t for every frame of n layers exactly if n is at most 44739242 (`AllocationsFitExactly`);
  `EndFrame.EndFrame` speaks of allocations whose size did not wrap.

## Model

| member | source | states |
|---|---|---|
| `ReleaseFence.StepKeepsInv` | src/pe/openxr.c:2149-2230 | every action of any thread or queue keeps: signals are numbered without gap, the event equals the signals that have run, every fence value belongs to a signal behind the release's earlier work, every read stands behind its release's wait |
| `ReleaseFence.RunKeepsInv` | src/pe/openxr.c:2149-2230 | the invariant over every run |
| `ReleaseFence.ReadAfterRender` | src/unix/openxr.c:666-682 | in every state of every run, a runtime read that has executed, of a release ordered by a fence or by D3D11's CPU wait, executed after everything enqueued before that release, even with waits out of value order |
| `ReleaseFence.UnsyncedExactly` | src/pe/openxr.c:2134-2267 | over any run a release is unordered if and only if its path has no sync, its carrier signal failed, its CPU wait was skipped or timed out, or it carried a value and lost the event or found no command buffer |
| `ReleaseFence.DeviceFenceOrdersReleases` | src/pe/openxr.c:2168-2230 | on the device-fence paths, while the event is on, a release is unordered if and only if its CPU wait was skipped or its wait found no command buffer |
| `ReleaseFence.SignalsAreExactlyTheCount` | src/pe/openxr.c:2152-2178 | over any run the values sent are exactly 1..gpu_fence_value in order; a failed signal consumes none |
| `ReleaseFence.BlockedWaitHasPendingSignal` | src/unix/metal.m:15-42 | a blocked wait always has a signal of at least its value still ahead |
| `ReleaseFence.QueuesNeverWedge` | src/unix/openxr.c:661-682 | from every reachable state both queues run dry by GPU steps alone |
| `ReleaseOverlap.SerialReadAfterRender` | src/pe/openxr.c:1165-1191 | without overlap and timeouts, read after render for every kind of ordering, the D3D12 CPU wait included |
| `ReleaseOverlap.CpuWaitsOrderExactly` | src/pe/openxr.c:1165-1191 | the D3D12 CPU wait orders every release of every run if and only if releases do not overlap and no wait times out |
| `ReleaseOverlap.OverlapWakesTheWrongThread` | src/pe/openxr.c:1178-1189 | with overlap, from any initial state: the first thread's signal wakes the second, whose image is read early |
| `ReleaseOverlap.TimeoutWakesTheNextWait` | src/pe/openxr.c:1178-1189 | after a timeout, without overlap: the late signal ends the next wait at once |
| `ReleaseOverlap.OrderedBeforeFirstTimeOut` | src/pe/openxr.c:1165-1191 | of each run whose releases do not overlap: an ordered release, CPU wait included, that reached the host before the first timeout is read after its rendering, whatever happens later |
| `ReleaseEvent.NoWaitAfterFailedCheck` | src/unix/openxr.c:666-682 | when releases do not overlap, no wait is committed once the event is off |
| `ReleaseEvent.OverlapMayQueueLateWait` | src/unix/openxr.c:666-682 | with overlap one can be, from any start with an event and without a timeout: a concrete run |
| `ReleaseEvent.NoLateWaitsExactly` | src/unix/openxr.c:666-682 | no run commits a wait with the event off if and only if releases do not overlap |
| `ReleaseEvent.NoEventLost` | src/unix/openxr.c:678-681 | when releases do not overlap, a release that passed its guard keeps its event |
| `ReleaseEvent.KeepsEventsExactly` | src/unix/openxr.c:678-681 | every release of every run that passed its guard keeps its event if and only if releases do not overlap |
| `ReleaseEvent.CauseIsPossible` | src/pe/openxr.c:2134-2267 | every unordered release of every run has one of six causes, and one that the start and the rules admit |
| `ReleaseEvent.EarlyReadsExactly` | src/pe/openxr.c:2134-2267 | from any start, for each of the six causes of an unordered release: some run reads such an image before its rendering if and only if the session's path, its event and overlap admit the cause |
| `ReleaseCode.ReleaseSession.SignalUnderLock` | src/pe/openxr.c:2149-2182 | the locked section is the machine's signal action |
| `ReleaseCode.ReleaseSession.FenceValueReached` | src/unix/metal.m:47-66 | the polling loop is a run of GPU steps: it looks again until the value is there, in none of the earlier looks it was, and gives up only after all of its turns; the queue has got exactly as far as those turns let it |
| `ReleaseCode.ReleaseSession.EncodeGpuWait` | src/unix/metal.m:15-42 | commits a wait exactly for a value not yet reached when there is a command buffer; a run of the machine |
| `ReleaseCode.ReleaseSession.CheckFirstRelease` | src/unix/openxr.c:666-676 | done once; the event survives exactly if it reached the value, and is switched off only after the whole polling time |
| `ReleaseCode.ReleaseSession.UnixRelease` | src/unix/openxr.c:649-687 | the unix half is a run of the machine; what it queues, how far it lets the queue get, how the release ends up ordered, and that the event goes off only in a check that used all its time |
| `ReleaseCode.ReleaseSession.CpuReleaseSync` | src/pe/openxr.c:1165-1191 | the D3D12 fallback is a run of the machine: fence, count, signal, check, register, wait, each of which may fail; it succeeds whenever they do not and its own signal runs in time |
| `ReleaseCode.ReleaseSession.QueryReleaseSync` | src/pe/openxr.c:936-987 | the D3D11 fallback is a run of the machine and returns in time exactly if its query exists and everything submitted before runs while it polls; then all of that has executed |
| `ReleaseCode.ReleaseSession.PeRelease` | src/pe/openxr.c:2149-2230 | the PE half on each of its paths is a run of the machine; which value it passes on, and when its CPU wait returns in time |
| `ReleaseCode.ReleaseSession.ReleaseImage` | src/pe/openxr.c:2134-2267 | both halves and the host call keep the invariant and add one release, fenced exactly if a signal was sent, the event survived and a wait was not needed or could be committed, CPU-ordered exactly if the fallback's wait returned in time; the session's first check keeps the event exactly if the release's own signal runs in the polling time; no other thread moves, so that it runs without overlap if the others are idle |
| `ReleaseCode.ReleaseSession.ReleaseImages` | src/pe/openxr.c:2134-2267 | calls one after another are a run without overlap: each release follows what was rendered for it, none loses its event, and if no CPU wait failed every later read of an ordered image follows its rendering |
| `SessionLifecycle.StepKeepsInv` | src/pe/openxr.c:1708-1733 | every action of any thread keeps the ownership invariant: each wrapper is held by one thread at a matching program point, published, or gone with its host session destroyed once |
| `SessionLifecycle.RunKeepsInv` | src/pe/openxr.c:1627-1763 | the invariant over every interleaving |
| `SessionLifecycle.PublishedSessionIsSound` | src/pe/openxr.c:1708-1733 | a published session is created, not torn down, not being destroyed, and its instance is not marked destroying |
| `SessionLifecycle.NothingPublishedAfterDestroy` | src/pe/openxr.c:271-282 | after xrDestroyInstance's locked step no session of that instance is ever published, whatever runs |
| `SessionLifecycle.NoSessionIsLost` | src/pe/openxr.c:1711-1728 | every host session is published, or got one destroy call from its creator, or its creator is on the way; no wrapper is torn down twice |
| `SessionLifecycle.QuietMeansAccountedFor` | src/pe/openxr.c:1736-1763 | with no call in progress every wrapper but the published one was torn down once and its host session destroyed once |
| `SessionLifecycle.OverlappingDestroysTearDownTwice` | src/pe/openxr.c:277-293 | without the application's serialisation a session can be torn down twice: a run from the start |
| `SessionLifecycle.SessionDestroyFindsItsTable` | src/pe/openxr.c:1717-1749 | over every run a thread about to destroy a host session, abandoning it or in xrDestroySession, finds its own instance's dispatch table if and only if the unix half of that instance's xrDestroyInstance has not run; always while the instance is unmarked |
| `SessionLifecycle.InstanceDestroyFindsItsTable` | src/unix/openxr.c:390-395 | xrDestroyInstance clears its own instance's table, never another's |
| `SessionLifecycle.AbandonMayFindNoSlot` | src/unix/openxr.c:390-395 | otherwise the table can be empty: a run from the start |
| `SessionLifecycle.AbandonMayFindAnothersTable` | src/unix/openxr.c:247-364 | or hold the next instance's slots: a run from the start |
| `SessionLifecycle.Bridge.CheckCreate` | src/pe/openxr.c:1627-1641 | the first locked section: which answer, and the machine's step |
| `SessionLifecycle.Bridge.PublishOrAbandon` | src/pe/openxr.c:1711-1728 | the second one publishes exactly if nothing is published and the instance is not being destroyed |
| `SessionLifecycle.Bridge.Unpublish` | src/pe/openxr.c:1744-1747 | clears the published session only if it is this one |
| `SessionLifecycle.Bridge.MarkDestroying` | src/pe/openxr.c:275-282 | marks the instance and takes its published session in one step |
| `Swizzle.FaithfulIsTransparent` | src/unix/dmsubst.m:191-200 | if recorded means original, each message on each class does the work of the method it reached before any hook |
| `Swizzle.SwizzleTransparency` | src/unix/dmsubst.m:191-269 | after any installs over any hierarchy, full table included, the same |
| `Swizzle.SavedOriginalsAreNotHooks` | src/unix/dmsubst.m:246-250 | no saved original is a hook |
| `Swizzle.InstallAllKeepsFaithful` | src/unix/dmsubst.m:220-254 | any sequence of installs records originals and only originals, at most 256 |
| `Swizzle.NearestMethod` | src/unix/dmsubst.m:227-234 | the Method found is the first on the superclass chain, and none only if the chain has none |
| `Swizzle.InstallTakesEffect` | src/unix/dmsubst.m:220-254 | an install takes effect exactly if the method that responds to the selector is not hooked and there is room; the class then answers with this very replacement, the original is saved, and nothing else changes |
| `Swizzle.FirstJobWins` | src/unix/dmsubst.m:258-267 | after any jobs on any table, each method holds the replacement of the first job for it if it was not hooked and the table had room at that job, and is as it was otherwise |
| `Swizzle.EachHookIsRecorded` | src/unix/dmsubst.m:220-254 | the table then holds one original for each distinct method asked for, up to 256 |
| `Swizzle.StoresKeepConsistent` | src/unix/dmsubst.m:246-250 | after any prefix of an install's stores, what readers see is consistent: a hook is visible only after its original |
| `Swizzle.LateLookupIsTransparent` | src/unix/dmsubst.m:191-200 | a thread already in a hook finds the right original at any later moment of any installs |
| `Swizzle.OrigTable.Lookup` | src/unix/dmsubst.m:191-200 | the two loops compute the nearest class's recorded original |
| `Swizzle.OrigTable.ImplementingClass` | src/unix/dmsubst.m:202-217 | finds the class that owns the Method |
| `Swizzle.OrigTable.Install` | src/unix/dmsubst.m:220-254 | when an install takes effect, which replacement the method gets and which original is saved, and that it consists of the three stores in order |
| `Swizzle.OrigTable.InstallJobs` | src/unix/dmsubst.m:258-267 | what a job list leaves of every method |
| `ArmMachine.AlwaysTracks` | src/unix/dmsubst.m:371-404 | in every history the arm equals what its window contains: arming flags, creations here and elsewhere, events, substitutions and views, first event, first own texture |
| `ArmMachine.UnarmedThreadsAreUntouched` | src/unix/dmsubst.m:371-379 | a thread that is not armed always gets the original selector's result |
| `ArmMachine.AtMostOneSubstitution` | src/unix/dmsubst.m:396-404 | one substitution an arm at most |
| `ArmMachine.SubstitutesFit` | src/unix/dmsubst.m:306-366 | a substitute is the armed texture or a view of it, for a 2D or 2D-array creation of its width, height, mips, samples and layers; the texture itself exactly if format and type agree and no view is forced |
| `ArmMachine.FirstFitIsTaken` | src/unix/dmsubst.m:306-404 | on an arm that is no probe a creation is substituted if and only if none was before, it agrees in all of these and the view it may need can be made; every other creation gets the original result |
| `ArmMachine.SharedEventExactly` | src/unix/dmsubst.m:510-526 | over every history newEvent hands out a shared event exactly on an arm that asks for one, before any event of its window, when the device can make one |
| `ArmMachine.EventCapture` | src/unix/dmsubst.m:1506-1530 | DISARM reports exactly whether the window has a substitution and by a view, the first event for an event arm, and the first texture the thread made itself for a capturing one |
| `ArmMachine.ReportCountsOtherThreads` | src/unix/dmsubst.m:1506-1530 | which creations DISARM counts, modulo 2^32; without an event, global_seen minus seen is the number of creations on other threads, below 2^32 creations |
| `ArmMachine.CreatorSucceedsOnlyIfSubstituted` | src/pe/openxr.c:865-934 | whatever other threads do, outside control mode the creator succeeds exactly if D3D did and one creation of the call was substituted; in control mode none is, and the first texture made is reported |
| `ArmMachine.Hooks.ArmThread` | src/unix/dmsubst.m:1493-1505 | ARM |
| `ArmMachine.Hooks.DisarmThread` | src/unix/dmsubst.m:1506-1530 | DISARM and its report |
| `ArmMachine.Hooks.OnTextureCreate` | src/unix/dmsubst.m:371-431 | a texture-creation hook is the specification's step |
| `ArmMachine.Hooks.OnNewEvent` | src/unix/dmsubst.m:510-526 | newEvent hands out one shared event an arm |
| `ArmMachine.Hooks.OnNewSharedEvent` | src/unix/dmsubst.m:480-501 | newSharedEvent |
| `ArmMachine.Hooks.CreateSubstituted` | src/pe/openxr.c:865-934 | arm, create, disarm amid any interleaving: success means exactly one substitution, and the thread ends unarmed |
| `LayeredPass.RaisedPassFits` | src/unix/dmsubst.m:828-859 | a raised pass has the layers all its attachments have, if and only if the uninspected resolve targets have them |
| `LayeredPass.RaisesExactly` | src/unix/dmsubst.m:828-859 | a pass is raised if and only if it is ours, has at most one layer, a multisampled depth or stencil array, and every texture in use is an array of two or more layers at slice 0, not all unlimited; to the least of their layer counts |
| `LayeredPass.DepthResolveIsNotInspected` | src/unix/dmsubst.m:848-850 | a pass for which they do not |
| `LayeredPass.FixLayers` | src/unix/dmsubst.m:828-859 | raises a count of 0 or 1 to the least inspected layer count under exactly the stated conditions, else changes nothing |
| `LayeredPass.LayersAtSlice0` | src/unix/dmsubst.m:815-824 | one attachment's check and minimum |
| `EndFrame.MapChangesHandlesOnly` | src/pe/openxr.c:2279-2297 | at every position of a layer, head-of-chain depth included, a live handle becomes its host handle and any other stays; everything else is unchanged |
| `EndFrame.LiveFrameIsHosts` | src/pe/openxr.c:2279-2297 | a frame whose handles are all live reaches the host with host handles alone |
| `EndFrame.SlicesTile` | src/pe/openxr.c:2335-2399 | the per-layer slices are disjoint, ordered, and tile the arrays exactly |
| `EndFrame.TotalFits` | src/pe/openxr.c:2335-2342 | the counted total fits size_t |
| `EndFrame.AllocationsFitExactly` | src/pe/openxr.c:2346-2347 | the byte size malloc gets fits size_t for all frames of n layers if and only if n is at most 44739242 |
| `EndFrame.ReadBackLayer` | src/pe/openxr.c:2358-2399 | following the bridge's pointers gives the mapped layer |
| `EndFrame.CountViews` | src/pe/openxr.c:2335-2342 | the first pass: NULL layers and the exact total |
| `EndFrame.WriteViews` | src/pe/openxr.c:2363-2393 | one layer's views and depth infos, in bounds, nothing earlier disturbed |
| `EndFrame.RewriteLayer` | src/pe/openxr.c:2352-2429 | one turn of the second pass, all layer types |
| `EndFrame.RewriteLayers` | src/pe/openxr.c:2344-2429 | succeeds exactly if all layers are supported |
| `EndFrame.EndFrame` | src/pe/openxr.c:2299-2451 | the host gets as many layers in order, each with every live handle translated and nothing else changed, or no host call is made and the error is the right one |
| `PollEvent.PollFilters` | src/pe/openxr.c:2482-2518 | one call delivers what the filter leaves of the events it consumed, at most 64 |
| `PollEvent.CallStops` | src/pe/openxr.c:2482-2518 | one call consumes an event a turn, from a host that has one and does not fail, until the first wanted one; what each answer means |
| `PollEvent.RunIsFilter` | src/pe/openxr.c:2482-2518 | over any calls, sessions published and unpublished at any time, the delivered events are exactly the consumed ones, in order, filtered and rewritten |
| `PollEvent.RunDeliversExactly` | src/pe/openxr.c:2453-2518 | over any run, at exactly the positions of events that carry no session or that of the session published then: the former as they were, the latter with that session's wrapper and nothing else changed; in order |
| `PollEvent.PublishedInTurn` | src/pe/openxr.c:2482-2518 | "then" is the turn of the call that consumes the event |
| `PollEvent.DeliverableArrives` | src/pe/openxr.c:2482-2518 | behind k stale events a deliverable one arrives at call k/64+1 and not before |
| `PollEvent.Poller.RewriteSession` | src/pe/openxr.c:2463-2480 | which kinds carry a session, and what becomes of it: the wrapper of the published session with that host handle, or 0 |
| `PollEvent.Poller.PollOne` | src/pe/openxr.c:2482-2518 | the retry loop is the specification's call |
| `Negotiation.EnumeratedNames` | src/unix/openxr.c:135-179 | exactly which names are shown, and why |
| `Negotiation.EnumeratedVersions` | src/unix/openxr.c:135-179 | every entry is the host's as listed, the bridge's own, or a Win32 spelling with the version of its row |
| `Negotiation.DrawnListsAreAccepted` | src/unix/openxr.c:258-270 | every list drawn from the enumeration is accepted, if and only if D3D12 is advertised or the host does not itself list its Win32 name |
| `Negotiation.ForwardedIsImage` | src/unix/openxr.c:282-308 | the forwarded list has no duplicates and is exactly the image of the names that are not bridge-only |
| `Negotiation.ForwardsOnlyHostNames` | src/unix/openxr.c:282-308 | accepted lists forward only names the host enumerated, if and only if the host backs each visible Win32 spelling it lists |
| `Negotiation.ShippedTablesAreOk` | src/include/extension_substitutions.h:33-59 | the shipped tables meet what the laws require of tables |
| `Negotiation.Emit` | src/unix/openxr.c:108-124 | writes within capacity, always counts |
| `Negotiation.ApplySubstitutions` | src/unix/openxr.c:135-179 | count and fill passes follow one ideal list: the total ignores the buffer, the buffer gets its first entries |
| `Negotiation.EnumerateExtensions` | src/unix/openxr.c:181-233 | every outcome; a fill is too short exactly if the buffer is shorter than the list, and nothing else touches it |
| `Negotiation.TranslateList` | src/unix/openxr.c:258-308 | the create path checks every name and builds the forwarded list |
| `Lookup.ExtensionIndex` | src/pe/thunks.c:800-815 | binary search on a sorted table finds a name if and only if present |
| `Lookup.FindFunction` | src/pe/thunks.c:783-798 | the same for function rows |
| `Lookup.EnableExtensions` | src/pe/openxr.c:240-248 | bit i is set if and only if the application listed extension i, across 64-bit words |
| `Lookup.GetInstanceProcAddr` | src/pe/openxr.c:82-129 | succeeds if and only if there is a global row (no instance), a row whose extension bit is set, or a core row of at most the instance's minor version; which error otherwise |
| `Dispatch.TableBelongsToInstance` | src/unix/openxr.c:236-405 | over all create and destroy runs: no live instance, empty table; else exactly what this instance's create filled |
| `Dispatch.NonNullSlots` | src/unix/openxr.c:339-362 | a slot is filled if and only if an instance is live, its host supplies the function, and it is core or its extension was forwarded; with the host's pointer |
| `Dispatch.GateAgreesWithTable` | src/pe/openxr.c:116-129 | when the gate opens for a thunked function the host supplies, its slot is filled if and only if it is core or its extension goes out under its own name |
| `Dispatch.AcceptedPlanGateAgrees` | generator/make_openxr.py:485-507 | the same for every automatic function of every plan the generator accepts, whose rows and slots agree and whose slots are distinct |
| `Dispatch.UnixInstance.CreateInstance` | src/unix/openxr.c:236-369 | the create path: it succeeds if and only if no instance is live, the bridge knows every name, D3D12 is named only when advertised, memory and the host allow; which error otherwise |
| `Dispatch.UnixInstance.DestroyInstance` | src/unix/openxr.c:390-399 | snapshots the destroy pointer, then clears everything |
| `SwapchainImages.StepMints` | src/pe/openxr.c:1463-1484 | every operation, failing or not, changes the uses of no reference but those it imports, which become used once |
| `SwapchainImages.EachReferenceOnce` | src/pe/openxr.c:1854-2107 | over any run each imported reference is released once or held once, never both |
| `SwapchainImages.TeardownReleasesEverything` | src/pe/openxr.c:1463-1484 | after teardown everything imported has been released exactly once |
| `SwapchainImages.ReleasedExactlyWhenGone` | src/pe/openxr.c:1854-2107 | whatever happens later, a texture a fill imported is released, once, exactly if that fill failed or its swapchain is gone, and is held, once, until then |
| `SwapchainImages.CacheIsStable` | src/pe/openxr.c:1927-1933 | a filled cache never changes while its swapchain lives |
| `SwapchainList.ListAddTail` | src/include/bridge.h:47-53 | the pointer writes extend the ring by one link at its end |
| `SwapchainList.ListRemove` | src/include/bridge.h:55-60 | the pointer writes take exactly one link out |
| `SwapchainList.Session.CreateSwapchain` | src/pe/openxr.c:1846-1851 | the list represents exactly the live swapchains |
| `SwapchainList.Session.DestroySwapchain` | src/pe/openxr.c:1854-1884 | unlink and release, as in the ledger |
| `SwapchainList.Session.Import` | src/pe/openxr.c:1990-2098 | the import loop and its unwind |
| `SwapchainList.Session.FirstFill` | src/pe/openxr.c:1932-2106 | the first fill, as in the ledger |
| `SwapchainList.Session.EnumerateImages` | src/pe/openxr.c:1886-2132 | every outcome of xrEnumerateSwapchainImages; success hands out the whole cached set |
| `SwapchainList.Session.Teardown` | src/pe/openxr.c:1463-1484 | one walk over the ring releases every cache |
| `TimeConversion.ConversionsUseFinalOffsets` | src/unix/openxr.c:527-545 | under any interleaving every conversion that returned used the offsets in force now |
| `TimeConversion.OffsetsAreFixed` | src/unix/openxr.c:585-596 | an offset never changes once set |
| `TimeConversion.FirstCallFixesTheClock` | src/unix/openxr.c:527-596 | when one call samples both offsets at agreeing clock readings, its seed time converts to the counter it read and d ticks later to d more, and back, whoever asks later |
| `TimeConversion.CounterRoundTrip` | src/unix/openxr.c:598-639 | counter to time to counter is exact if and only if the time between is positive |
| `TimeConversion.TimeRoundTrip` | src/unix/openxr.c:598-639 | time to counter to time is within 100 ns when the counter is positive, negative monotonic values included |
| `TimeConversion.ConversionsAreMonotone` | src/unix/openxr.c:598-639 | both directions are monotone |
| `TimeConversion.NoConversionOverflows` | src/unix/openxr.c:598-639 | within stated bounds every intermediate value fits int64 |
| `TimeConversion.Converter.ConvertTimeToCounter` | src/unix/openxr.c:598-615 | the code is two steps of the machine |
| `TimeConversion.Converter.ConvertCounterToTime` | src/unix/openxr.c:617-639 | the code is two steps of the machine |
| `TimeConversion.Converter.QpcToMonotonicOffset` | src/unix/openxr.c:527-545 | sampled at first use |
| `TimeConversion.Converter.XrTimeToMonotonicOffset` | src/unix/openxr.c:585-596 | sampled at first use |
| `Formats.AdvertisedFormatsWork` | src/include/formats.h:16-53 | every advertised format is accepted and maps back to a format the host listed |
| `Formats.AdvertisedExactly` | src/include/formats.h:37-44 | a format is advertised if and only if its row has a Metal format the host lists |
| `Formats.AdvertisedInOrder` | src/unix/openxr.c:408-466 | in the host's order |
| `Formats.EnumerateFormats` | src/unix/openxr.c:408-466 | every outcome; count and fill follow one ideal list, and a fill is too short exactly if the buffer is |
| `Formats.CheckCreateFormat` | src/unix/openxr.c:482-491 | create refuses exactly the formats outside the table, none that was advertised |
| `TypeClosure.Closure` | generator/make_openxr.py:311-323 | terminates on cyclic graphs and returns exactly the types reachable through alias and member edges |
| `TypeClosure.BoundaryViolation` | generator/make_openxr.py:521-534 | None if and only if the guard is allowed and no reachable type is forbidden; otherwise the least forbidden one |
| `DependsExpression.PrintedExpressionMeans` | generator/make_openxr.py:326-353 | the text of any expression evaluates to its left-to-right, equal-precedence value |
| `DependsExpression.ScanFindsAtoms` | generator/make_openxr.py:327-339 | the scan splits the text at exactly the outermost operators |
| `DependsExpression.Monotone` | generator/make_openxr.py:326-353 | on any text at all, more satisfied names never lose |
| `DependsExpression.DependsSatisfiable` | generator/make_openxr.py:326-353 | the scanning loop and the recursion, terminating on the length of the text |
| `DependsExpression.AtomHolds` | generator/make_openxr.py:341-345 | one atom |
| `StringOrder.SortNames` | generator/make_openxr.py:471-472 | the sorted order of a set |
| `GenerationPlan.Classify` | generator/make_openxr.py:403-424 | fails exactly on several providers; otherwise both dictionaries hold exactly the kept commands, in order |
| `GenerationPlan.PlanKeepsExactly` | generator/make_openxr.py:403-424 | which commands get an entry, and in which dictionary |
| `GenerationPlan.CheckPolicies` | generator/make_openxr.py:426-428 | every policy names a kept command |
| `GenerationPlan.CheckFunction` | generator/make_openxr.py:430-443 | exactly the three conditions on a function |
| `GenerationPlan.SupportedCommandsHaveRows` | generator/make_openxr.py:445-499 | every command of a supported extension has a row in the function table, behind that extension |
| `GenerationPlan.SessionEvents` | generator/make_openxr.py:474-483 | the event table, refused exactly if an offered event holds a foreign handle |
| `GenerationPlan.OfferedEventsAre` | generator/make_openxr.py:474-483 | it has exactly the offered events |
| `GenerationPlan.FunctionRows` | generator/make_openxr.py:485-499 | each row's extension field is the position of its extension |
| `GenerationPlan.RowsMatchRegistry` | generator/make_openxr.py:485-499 | each function row: a covered command, behind the extension that provides it, or core with its minor version; global exactly for the listed ones |
| `GenerationPlan.FromRegistry` | generator/make_openxr.py:399-518 | accepts exactly the registries that meet the stated conditions on commands, policies, extensions, events and guards, none of which mentions the generated tables; then the plan's tables are as specified and no thunk of any function refers to something missing |
| `GenerationPlan.AcceptsExactly` | generator/make_openxr.py:403-509 | the checks on the two dictionaries are those conditions |
| `GenerationPlan.SlotsDistinctExactly` | generator/make_openxr.py:501-507 | slot names are distinct if and only if custom calls and generated functions do not collide |
| `GenerationPlan.CallNumbersReachHandlers` | generator/make_openxr.py:501-507 | with distinct slot names the call number of a function indexes its own handler |
| `GenerationPlan.SlotsComeFromSomewhere` | generator/make_openxr.py:501-507 | every slot is init, a custom call or a generated function's |
| `GenerationPlan.ThunksReferToWhatExists` | generator/make_openxr.py:675-793 | with admissible policies and known guards no automatic thunk refers to a missing call number, parameter struct or dispatch field |
| `GenerationPlan.GroupByGuard` | generator/make_openxr.py:356-360 | fails exactly on an unknown guard; each group is the entries of its guard, in order |
| `GenerationPlan.EmitGuarded` | generator/make_openxr.py:363-376 | emits group after group |
| `GenerationPlan.GroupingKeepsEveryEntry` | generator/make_openxr.py:356-376 | every entry is emitted exactly once, if and only if every guard is known |

## Left out

- Real D3D11, D3D12, DXGI, D3DKMT, Metal, mach and launchd calls: foreign code, represented by the contracts above.
- `ReleaseCode.ReleaseSession.ReleaseImage`: one thread acts until it returns; interleavings are the subject of ReleaseFence, of which it is a run. The early return for a host without xrReleaseSwapchainImage, the debug dump and the one-time summary are not modelled.
- `SessionLifecycle.StepKeepsInv`: the graphics binding, the requirements query and memory failure are one action, GiveUp; device and queue set-up inside the host's session creation is its success or failure.
- `Swizzle.SwizzleTransparency`: originals that call super are not modelled, nor weak-memory effects beyond the order of the three stores.
- `ArmMachine.Hooks.OnTextureCreate`: the descriptor fields DISARM reports for diagnostics, the registry of substituted objects and reference counts are not modelled.
- `LayeredPass.FixLayers`: the environment switch and the caller check are one flag; a nil descriptor is not modelled.
- `EndFrame.EndFrame`: a layer's other fields are opaque values; a next chain is a list whose depth entries carry a sub-image.
- `Dispatch.UnixInstance.CreateInstance`: the layer list and the host's create info beyond extension names are not modelled.
- `SwapchainList.Session.CreateSwapchain`: the checks on the create info and the host call before the list insertion are not modelled.
- `SwapchainList.Session.DestroySwapchain`: the application destroys each handle once and not during teardown of its session.
- `SwapchainImages.EachReferenceOnce`: texture references only; captured shared events are dropped on some paths (src/pe/openxr.c:1037-1044) and no conservation is claimed for them.
- `GenerationPlan.FromRegistry`: starts from a parsed registry; XML parsing, the structure type of an event and the C text around the table entries are not modelled.
- `Negotiation.ShippedTablesAreOk`: versions come from the OpenXR headers, which are not part of this model, and are parameters.
- `SwapchainList.Session.EnumerateImages`: the export's result and count are one answer of the host; copying and registering texture names would only add easy members.
- The automatically generated thunk bodies, logging, statistics, readback, backend detection, adapter LUIDs, DXMT layout probing.
- half_to_float, dxgi_typeless_parent, the depth flag of a format, usage flags and image states: finite domains or single branches.
