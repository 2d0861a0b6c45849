/** The swapchain release fence: xrReleaseSwapchainImage on both halves, and encode_gpu_wait.

    One session is a set of application threads releasing images, two in-order GPU queues, one
    shared event, and the fence, counter and event of the CPU fallback. Every read or write that
    another thread can see is an action of its own, except the section guarded by swapchain_lock,
    which is one action. */
module ReleaseFence {
  import opened Prelude
  import opened Machine

  type ThreadId = nat

  /** Work on the application's GPU queue; CpuSignal is the plain fence of the D3D12 CPU fallback. */
  datatype AppOp = Render | Signal(value: nat) | CpuSignal(value: nat)

  /** Work on the runtime's queue: the wait encode_gpu_wait commits, and the runtime reading the
      image of release number `release`. */
  datatype RuntimeOp = Wait(value: nat) | Read(release: nat)

  /** How the session orders a release: not at all, by the keyed-mutex sync carrier (DXMT), or by a
      fence on the application's device (D3DMetal), with a CPU wait where that is not possible. */
  datatype Path = NoSync | Carrier | D3D11 | D3D12

  /** What the PE half did about one release. Value is params.gpu_fence_value, with the place of its
      signal in the application queue; in the other cases that field is 0. */
  datatype Fence = NoSignal | SignalFailed | WaitSkipped | WaitReturned | Value(value: nat, at: nat)

  /** What encode_gpu_wait did: nothing, since the event was there, or commit a wait. */
  datatype Encoded = AlreadyReached | QueuedAt(pos: nat)

  datatype Sync = Unsynced | CpuWaited | Fenced(how: Encoded)

  /** How far the unix half got: the second guard failed, the event was gone when read again for the
      argument of encode_gpu_wait, no command buffer could be had, or none of these. */
  datatype Gate = Shut | EventLost | NoBuffer | Passed

  /** A release the host has seen: the length of the application queue when the application called
      xrReleaseSwapchainImage, what the PE half did, and how the unix half went. */
  datatype Release = Release(entry: nat, fence: Fence, gate: Gate, sync: Sync)

  /** Program points of the unix half. */
  datatype Stage = FirstGuard | Claim | Poll | Disable | SecondGuard | Argument | Compare | Commit

  /** Program points of the two CPU fallbacks, d3d12_cpu_release_sync and dmsubst_release_sync. */
  datatype CpuStage = Start | Count | Store | Send | Check | Register | Blocked | EndQuery | PollQuery

  datatype Pc =
    | Idle
    | Entered(entry: nat)
    | Signalling(entry: nat)
    | InCpu(step: CpuStage, entry: nat, value: nat, at: nat)
    | InUnix(stage: Stage, entry: nat, fence: Fence)
    | HostCall(release: Release)

  /** The CPU fallback's shared state: whether its fence or query exists, the unlocked counter, the
      fence's completed value, the auto-reset event and the values it is registered for, and the
      place in the application queue where the query was last issued. */
  datatype CpuSync =
    CpuSync(created: bool, counter: nat, completed: nat, signalled: bool, pending: set<nat>, queryAt: nat)

  datatype Shared = Shared(
    path: Path,
    app: seq<AppOp>, appDone: nat,           // submitted work, and how much of it has run
    runtime: seq<RuntimeOp>, runtimeDone: nat,
    eventValue: nat,                         // MTLSharedEvent.signaledValue
    counter: nat,                            // gpu_fence_value
    eventActive: bool,                       // mtl_shared_event != 0
    checked: bool,                           // gpu_fence_checked
    cpu: CpuSync,
    releases: seq<Release>)

  datatype State = State(sh: Shared, threads: map<ThreadId, Pc>)

  predicate OnDevice(path: Path) {
    path == D3D11 || path == D3D12
  }

  // ---- The PE half -------------------------------------------------------------------------------

  /** In every kind of step, `ok` is the result of a foreign call. */
  datatype PeAct = Begin | ChooseSync | LockedSignal(ok: bool) | HostRelease

  predicate PeEnabled(pc: Pc, act: PeAct) {
    match act
    case Begin => pc.Idle?
    case ChooseSync => pc.Entered?
    case LockedSignal(_) => pc.Signalling?
    case HostRelease => pc.HostCall?
  }

  function Chosen(sh: Shared, entry: nat): Pc {
    if sh.path == NoSync then InUnix(FirstGuard, entry, NoSignal)
    else if sh.path == Carrier || sh.eventActive then Signalling(entry)
    else InCpu(Start, entry, 0, 0)
  }

  /** The section under swapchain_lock: a successful signal takes the next value, a failed one takes
      none. Only the device paths fall back to a CPU wait. */
  function Signalled(sh: Shared, entry: nat, ok: bool): (Shared, Pc) {
    if ok then
      (sh.(app := sh.app + [Signal(sh.counter + 1)], counter := sh.counter + 1),
       InUnix(FirstGuard, entry, Value(sh.counter + 1, |sh.app|)))
    else
      (sh, if OnDevice(sh.path) then InCpu(Start, entry, 0, 0) else InUnix(FirstGuard, entry, SignalFailed))
  }

  function PeStep(sh: Shared, pc: Pc, act: PeAct): (Shared, Pc)
    requires PeEnabled(pc, act)
  {
    match act
    case Begin => (sh, Entered(|sh.app|))
    case ChooseSync => (sh, Chosen(sh, pc.entry))
    case LockedSignal(ok) => Signalled(sh, pc.entry, ok)
    case HostRelease => (sh.(releases := sh.releases + [pc.release]), Idle)
  }

  // ---- The CPU fallbacks -------------------------------------------------------------------------

  /** D3D12: make the fence and event, count, signal, check, register, block, then wake or time out.
      D3D11: make the query, end it, poll it until it is done or given up. */
  datatype CpuAct =
    | MakeFence(ok: bool) | ReadCounter | WriteCounter | SignalFence(ok: bool) | CheckCompleted
    | SetEvent(ok: bool) | Wake | TimeOut
    | IssueQuery | QueryDone | QueryGivenUp

  predicate CpuEnabled(sh: Shared, pc: Pc, act: CpuAct) {
    && pc.InCpu?
    && match act
       case MakeFence(_) => pc.step == Start
       case ReadCounter => pc.step == Count
       case WriteCounter => pc.step == Store
       case SignalFence(_) => pc.step == Send
       case CheckCompleted => pc.step == Check
       case SetEvent(_) => pc.step == Register
       case Wake => pc.step == Blocked && sh.cpu.signalled
       case TimeOut => pc.step == Blocked
       case IssueQuery => pc.step == EndQuery
       case QueryDone => pc.step == PollQuery && sh.cpu.queryAt <= sh.appDone
       case QueryGivenUp => pc.step == PollQuery
  }

  /** The end of a CPU fallback. */
  function Resumed(pc: Pc, waited: bool): Pc
    requires pc.InCpu?
  {
    InUnix(FirstGuard, pc.entry, if waited then WaitReturned else WaitSkipped)
  }

  /** SetEventOnCompletion: the event is set at once if the value is there already. */
  function Registered(cpu: CpuSync, value: nat): CpuSync {
    if value <= cpu.completed then cpu.(signalled := true) else cpu.(pending := cpu.pending + {value})
  }

  function CpuStep(sh: Shared, pc: Pc, act: CpuAct): (Shared, Pc)
    requires CpuEnabled(sh, pc, act)
  {
    var cpu := sh.cpu;
    match act
    case MakeFence(ok) =>
      if cpu.created || ok then
        (sh.(cpu := cpu.(created := true)), pc.(step := if sh.path == D3D12 then Count else EndQuery))
      else (sh, Resumed(pc, false))
    case ReadCounter => (sh, pc.(step := Store, value := cpu.counter + 1))
    case WriteCounter => (sh.(cpu := cpu.(counter := pc.value)), pc.(step := Send))
    case SignalFence(ok) =>
      if ok then (sh.(app := sh.app + [CpuSignal(pc.value)]), pc.(step := Check, at := |sh.app|))
      else (sh, Resumed(pc, false))
    case CheckCompleted => (sh, if pc.value <= cpu.completed then Resumed(pc, true) else pc.(step := Register))
    case SetEvent(ok) =>
      if ok then (sh.(cpu := Registered(cpu, pc.value)), pc.(step := Blocked)) else (sh, Resumed(pc, false))
    case Wake => (sh.(cpu := cpu.(signalled := false)), Resumed(pc, true))
    case TimeOut => (sh, Resumed(pc, false))
    case IssueQuery => (sh.(cpu := cpu.(queryAt := |sh.app|)), pc.(step := PollQuery))
    case QueryDone => (sh, Resumed(pc, true))
    case QueryGivenUp => (sh, Resumed(pc, false))
  }

  // ---- The unix half -----------------------------------------------------------------------------

  datatype UnixAct =
    | ReadFirstGuard | SetChecked | PollReached | PollTimeout | DisableEvent
    | ReadSecondGuard | ReadArgument | CompareValue | CommitWait(ok: bool)

  predicate UnixEnabled(sh: Shared, pc: Pc, act: UnixAct) {
    && pc.InUnix?
    && match act
       case ReadFirstGuard => pc.stage == FirstGuard
       case SetChecked => pc.stage == Claim
       case PollReached => pc.stage == Poll && pc.fence.Value? && pc.fence.value <= sh.eventValue
       case PollTimeout => pc.stage == Poll
       case DisableEvent => pc.stage == Disable
       case ReadSecondGuard => pc.stage == SecondGuard
       case ReadArgument => pc.stage == Argument && pc.fence.Value?
       case CompareValue => pc.stage == Compare && pc.fence.Value?
       case CommitWait(_) => pc.stage == Commit && pc.fence.Value?
  }

  /** A release whose second guard fails. */
  function Unguarded(pc: Pc): Release
    requires pc.InUnix?
  {
    Release(pc.entry, pc.fence, Shut, if pc.fence.WaitReturned? then CpuWaited else Unsynced)
  }

  function UnixStep(sh: Shared, pc: Pc, act: UnixAct): (Shared, Pc)
    requires UnixEnabled(sh, pc, act)
  {
    match act
    case ReadFirstGuard =>
      (sh, pc.(stage := if pc.fence.Value? && sh.eventActive && !sh.checked then Claim else SecondGuard))
    case SetChecked => (sh.(checked := true), pc.(stage := Poll))
    case PollReached => (sh, pc.(stage := SecondGuard))
    case PollTimeout => (sh, pc.(stage := Disable))
    case DisableEvent => (sh.(eventActive := false), pc.(stage := SecondGuard))
    case ReadSecondGuard =>
      (sh, if pc.fence.Value? && sh.eventActive then pc.(stage := Argument) else HostCall(Unguarded(pc)))
    case ReadArgument =>
      // a nil event reads as 0, and the wait committed on it waits for nothing
      (sh, if sh.eventActive then pc.(stage := Compare)
           else HostCall(Release(pc.entry, pc.fence, EventLost, Unsynced)))
    case CompareValue =>
      (sh, if pc.fence.value <= sh.eventValue then
             HostCall(Release(pc.entry, pc.fence, Passed, Fenced(AlreadyReached)))
           else pc.(stage := Commit))
    case CommitWait(ok) =>
      if ok then
        (sh.(runtime := sh.runtime + [Wait(pc.fence.value)]),
         HostCall(Release(pc.entry, pc.fence, Passed, Fenced(QueuedAt(|sh.runtime|)))))
      else (sh, HostCall(Release(pc.entry, pc.fence, NoBuffer, Unsynced)))
  }

  // ---- The queues --------------------------------------------------------------------------------

  datatype QueueAct = SubmitRender | SubmitRead(release: nat) | AppGpuStep | RuntimeGpuStep

  predicate QueueEnabled(sh: Shared, act: QueueAct) {
    match act
    case SubmitRender => true
    case SubmitRead(r) => r < |sh.releases|
    case AppGpuStep => sh.appDone < |sh.app|
    case RuntimeGpuStep =>
      && sh.runtimeDone < |sh.runtime|
      && (sh.runtime[sh.runtimeDone].Wait? ==> sh.runtime[sh.runtimeDone].value <= sh.eventValue)
  }

  /** The CPU fence reaches a value: the event is set for every registration up to it. */
  function Completed(cpu: CpuSync, v: nat): CpuSync {
    cpu.(completed := v, signalled := cpu.signalled || (exists p :: p in cpu.pending && p <= v),
         pending := set p | p in cpu.pending && v < p)
  }

  function AfterGpu(sh: Shared): Shared
    requires sh.appDone < |sh.app|
  {
    var op := sh.app[sh.appDone];
    sh.(appDone := sh.appDone + 1,
        eventValue := if op.Signal? then op.value else sh.eventValue,
        cpu := if op.CpuSignal? then Completed(sh.cpu, op.value) else sh.cpu)
  }

  function QueueStep(sh: Shared, act: QueueAct): Shared
    requires QueueEnabled(sh, act)
  {
    match act
    case SubmitRender => sh.(app := sh.app + [Render])
    case SubmitRead(r) => sh.(runtime := sh.runtime + [Read(r)])
    case AppGpuStep => AfterGpu(sh)
    case RuntimeGpuStep => sh.(runtimeDone := sh.runtimeDone + 1)
  }

  // ---- The machine -------------------------------------------------------------------------------

  datatype Action =
    | Pe(t: ThreadId, pe: PeAct)
    | Cpu(t: ThreadId, cpu: CpuAct)
    | Unix(t: ThreadId, unix: UnixAct)
    | Queue(queue: QueueAct)

  function PcOf(s: State, t: ThreadId): Pc {
    if t in s.threads then s.threads[t] else Idle
  }

  predicate AtStage(s: State, t: ThreadId, stage: Stage) {
    PcOf(s, t).InUnix? && PcOf(s, t).stage == stage
  }

  predicate Enabled(s: State, a: Action) {
    match a
    case Pe(t, act) => PeEnabled(PcOf(s, t), act)
    case Cpu(t, act) => CpuEnabled(s.sh, PcOf(s, t), act)
    case Unix(t, act) => UnixEnabled(s.sh, PcOf(s, t), act)
    case Queue(act) => QueueEnabled(s.sh, act)
  }

  function Moved(s: State, t: ThreadId, to: (Shared, Pc)): State {
    State(to.0, s.threads[t := to.1])
  }

  function Apply(s: State, a: Action): State
    requires Enabled(s, a)
  {
    match a
    case Pe(t, act) => Moved(s, t, PeStep(s.sh, PcOf(s, t), act))
    case Cpu(t, act) => Moved(s, t, CpuStep(s.sh, PcOf(s, t), act))
    case Unix(t, act) => Moved(s, t, UnixStep(s.sh, PcOf(s, t), act))
    case Queue(act) => s.(sh := QueueStep(s.sh, act))
  }

  const NO_CPU := CpuSync(false, 0, 0, false, {}, 0)

  predicate Init(s: State) {
    s == State(Shared(s.sh.path, [], 0, [], 0, 0, 0, s.sh.eventActive, false, NO_CPU, []), map[])
  }

  /** What runs may contain: releases by several threads at once, and CPU waits that time out. */
  datatype Rules = Rules(overlap: bool, timeouts: bool)

  const ANY := Rules(true, true)

  ghost predicate AllIdle(s: State) {
    forall t :: PcOf(s, t).Idle?
  }

  ghost predicate Allowed(rules: Rules, s: State, a: Action) {
    && Enabled(s, a)
    && (a.Pe? && a.pe.Begin? && !rules.overlap ==> AllIdle(s))
    && (a.Cpu? && a.cpu.TimeOut? ==> rules.timeouts)
  }

  ghost function Next(rules: Rules): (State, Action) -> Option<State> {
    (s, a) => if Allowed(rules, s, a) then Some(Apply(s, a)) else None
  }

  lemma Extend(rules: Rules, s0: State, actions: seq<Action>, s: State, a: Action)
    returns (more: seq<Action>, s': State)
    requires Runs(Next(rules), s0, actions, s) && Allowed(rules, s, a)
    ensures more == actions + [a] && s' == Apply(s, a) && Runs(Next(rules), s0, more, s')
  {
    more, s' := actions + [a], Apply(s, a);
    ThenStep(Next(rules), s0, actions, s, a, s');
  }

  // ---- Signals in the application queue ------------------------------------------------------

  /** Number of signals among the first n operations. */
  function Signals(app: seq<AppOp>, n: nat): nat
    requires n <= |app|
  {
    if n == 0 then 0 else Signals(app, n - 1) + if app[n - 1].Signal? then 1 else 0
  }

  /** The values the session has sent, in order. */
  function SentValues(app: seq<AppOp>): seq<nat> {
    if app == [] then []
    else
      var rest := SentValues(app[..|app| - 1]);
      if app[|app| - 1].Signal? then rest + [app[|app| - 1].value] else rest
  }

  lemma {:induction false} SignalsMonotone(app: seq<AppOp>, m: nat, n: nat)
    requires m <= n <= |app|
    ensures Signals(app, m) <= Signals(app, n)
    decreases n
  {
    if m < n { SignalsMonotone(app, m, n - 1); }
  }

  lemma {:induction false} SignalsPrefix(a: seq<AppOp>, b: seq<AppOp>, n: nat)
    requires n <= |a| <= |b| && a == b[..|a|]
    ensures Signals(a, n) == Signals(b, n)
    decreases n
  {
    if n != 0 { SignalsPrefix(a, b, n - 1); }
  }

  /** The signal at position i carries the value one above the number of signals before it. */
  predicate Numbered(app: seq<AppOp>) {
    forall i :: 0 <= i < |app| && app[i].Signal? ==> app[i].value == Signals(app, i) + 1
  }

  lemma NumberedAppend(app: seq<AppOp>, op: AppOp)
    requires Numbered(app)
    requires op.Signal? ==> op.value == Signals(app, |app|) + 1
    ensures Numbered(app + [op])
    ensures Signals(app + [op], |app|) == Signals(app, |app|)
    ensures Signals(app + [op], |app| + 1) == Signals(app, |app|) + if op.Signal? then 1 else 0
  {
    var b := app + [op];
    SignalsPrefix(app, b, |app|);
    forall i | 0 <= i < |b| && b[i].Signal? ensures b[i].value == Signals(b, i) + 1 {
      if i < |app| { SignalsPrefix(app, b, i); }
    }
  }

  lemma {:induction false} NumberedValues(app: seq<AppOp>)
    requires Numbered(app)
    ensures SentValues(app) == seq(Signals(app, |app|), i => i + 1)
  {
    if app != [] {
      var front := app[..|app| - 1];
      forall i | 0 <= i <= |front| ensures Signals(front, i) == Signals(app, i) {
        SignalsPrefix(front, app, i);
      }
      NumberedValues(front);
    }
  }

  /** Once the event has reached the value of a signal, that signal has run. */
  lemma ReachedMeansRun(app: seq<AppOp>, done: nat, at: nat)
    requires Numbered(app) && done <= |app| && at < |app| && app[at].Signal?
    requires app[at].value <= Signals(app, done)
    ensures at < done
  {
    if done <= at { SignalsMonotone(app, done, at); }
  }

  // ---- The invariant ---------------------------------------------------------------------------

  /** What a fence record says holds, on which path it can arise, and for the query of the D3D11
      fallback that its wait covered everything before the release. */
  predicate FenceOk(sh: Shared, entry: nat, fence: Fence) {
    match fence
    case NoSignal => sh.path == NoSync
    case SignalFailed => sh.path == Carrier
    case WaitSkipped => OnDevice(sh.path)
    case WaitReturned => OnDevice(sh.path) && (sh.path == D3D11 ==> entry <= sh.appDone)
    case Value(v, at) => sh.path != NoSync && entry <= at < |sh.app| && sh.app[at] == Signal(v)
  }

  predicate HowOk(sh: Shared, value: nat, how: Encoded) {
    match how
    case AlreadyReached => value <= sh.eventValue
    case QueuedAt(pos) => pos < |sh.runtime| && sh.runtime[pos] == Wait(value)
  }

  predicate ReleaseOk(sh: Shared, r: Release) {
    && FenceOk(sh, r.entry, r.fence)
    && match r.sync
       case Unsynced =>
         && !r.fence.WaitReturned?
         && (r.fence.Value? ==> !r.gate.Passed? && (!r.gate.NoBuffer? ==> !sh.eventActive))
       case CpuWaited => r.fence.WaitReturned?
       case Fenced(how) => r.fence.Value? && r.gate.Passed? && HowOk(sh, r.fence.value, how)
  }

  predicate PcOk(sh: Shared, pc: Pc) {
    match pc
    case Idle => true
    case Entered(entry) => entry <= |sh.app|
    case Signalling(entry) => entry <= |sh.app| && sh.path != NoSync
    case InCpu(step, entry, _, _) =>
      && entry <= |sh.app| && OnDevice(sh.path)
      && (sh.path == D3D11 ==> step.Start? || step.EndQuery? || step.PollQuery?)
      && (step.PollQuery? ==> entry <= sh.cpu.queryAt)
    case InUnix(stage, entry, fence) =>
      FenceOk(sh, entry, fence) && (!stage.FirstGuard? && !stage.SecondGuard? ==> fence.Value?)
    case HostCall(r) => ReleaseOk(sh, r)
  }

  predicate QueuesOk(app: seq<AppOp>, appDone: nat, counter: nat, eventValue: nat) {
    && appDone <= |app|
    && Numbered(app)
    && counter == Signals(app, |app|)
    && eventValue == Signals(app, appDone)
  }

  predicate WaitsOk(runtime: seq<RuntimeOp>, done: nat, counter: nat, eventValue: nat) {
    && done <= |runtime|
    && (forall j :: 0 <= j < |runtime| && runtime[j].Wait? ==> runtime[j].value <= counter)
    && (forall j :: 0 <= j < done && runtime[j].Wait? ==> runtime[j].value <= eventValue)
  }

  /** A read names a release, and stands behind the wait committed for it. */
  predicate ReadOk(releases: seq<Release>, j: nat, op: RuntimeOp) {
    op.Read? ==>
      && op.release < |releases|
      && var sync := releases[op.release].sync;
         sync.Fenced? && sync.how.QueuedAt? ==> sync.how.pos < j
  }

  predicate ReadsOk(runtime: seq<RuntimeOp>, releases: seq<Release>) {
    forall j :: 0 <= j < |runtime| ==> ReadOk(releases, j, runtime[j])
  }

  predicate ReleasesOk(sh: Shared) {
    forall k :: 0 <= k < |sh.releases| ==> ReleaseOk(sh, sh.releases[k])
  }

  predicate SharedOk(sh: Shared) {
    && QueuesOk(sh.app, sh.appDone, sh.counter, sh.eventValue)
    && sh.cpu.queryAt <= |sh.app|
    && WaitsOk(sh.runtime, sh.runtimeDone, sh.counter, sh.eventValue)
    && ReadsOk(sh.runtime, sh.releases)
    && ReleasesOk(sh)
  }

  predicate Inv(s: State) {
    SharedOk(s.sh) && forall t :: t in s.threads ==> PcOk(s.sh, s.threads[t])
  }

  /** Logs only grow, nothing already done is undone, and the event only goes off. */
  predicate Grows(a: Shared, b: Shared) {
    && a.path == b.path && a.app <= b.app && a.appDone <= b.appDone && a.runtime <= b.runtime
    && a.eventValue <= b.eventValue && a.counter <= b.counter
    && a.cpu.queryAt <= b.cpu.queryAt && (b.eventActive ==> a.eventActive)
  }

  lemma ReleaseGrows(a: Shared, b: Shared, r: Release)
    requires Grows(a, b) && ReleaseOk(a, r)
    ensures ReleaseOk(b, r)
  {
  }

  lemma PcGrows(a: Shared, b: Shared, pc: Pc)
    requires Grows(a, b) && PcOk(a, pc)
    ensures PcOk(b, pc)
  {
    if pc.HostCall? { ReleaseGrows(a, b, pc.release); }
  }

  lemma ReleasesGrow(a: Shared, b: Shared)
    requires Grows(a, b) && ReleasesOk(a) && a.releases == b.releases
    ensures ReleasesOk(b)
  {
    forall k | 0 <= k < |b.releases| ensures ReleaseOk(b, b.releases[k]) { ReleaseGrows(a, b, a.releases[k]); }
  }

  lemma WaitsGrow(a: Shared, b: Shared)
    requires WaitsOk(a.runtime, a.runtimeDone, a.counter, a.eventValue) && Grows(a, b)
    ensures WaitsOk(a.runtime, a.runtimeDone, b.counter, b.eventValue)
  {
  }

  /** What a step that appends to the application's queue, or runs it, leaves to show. */
  lemma QueueChangeOk(a: Shared, b: Shared)
    requires SharedOk(a) && Grows(a, b) && QueuesOk(b.app, b.appDone, b.counter, b.eventValue)
    requires b.cpu.queryAt <= |b.app|
    requires (b.runtime, b.runtimeDone, b.releases) == (a.runtime, a.runtimeDone, a.releases)
    ensures SharedOk(b)
  {
    WaitsGrow(a, b);
    ReleasesGrow(a, b);
  }

  lemma OtherKeepsQueues(app: seq<AppOp>, op: AppOp, appDone: nat, counter: nat, eventValue: nat)
    requires QueuesOk(app, appDone, counter, eventValue) && !op.Signal?
    ensures QueuesOk(app + [op], appDone, counter, eventValue)
  {
    NumberedAppend(app, op);
    SignalsPrefix(app, app + [op], appDone);
  }

  lemma SignalKeepsQueues(app: seq<AppOp>, appDone: nat, counter: nat, eventValue: nat)
    requires QueuesOk(app, appDone, counter, eventValue)
    ensures QueuesOk(app + [Signal(counter + 1)], appDone, counter + 1, eventValue)
  {
    NumberedAppend(app, Signal(counter + 1));
    SignalsPrefix(app, app + [Signal(counter + 1)], appDone);
  }

  lemma GpuKeepsQueues(app: seq<AppOp>, appDone: nat, counter: nat, eventValue: nat)
    requires QueuesOk(app, appDone, counter, eventValue) && appDone < |app|
    ensures var value := if app[appDone].Signal? then app[appDone].value else eventValue;
            QueuesOk(app, appDone + 1, counter, value) && eventValue <= value
  {
  }

  /** A step of a thread keeps the shared invariant, and justifies the program point it reaches. */
  ghost predicate Justified(sh: Shared, to: (Shared, Pc)) {
    Grows(sh, to.0) && SharedOk(to.0) && PcOk(to.0, to.1)
  }

  lemma PeJustified(sh: Shared, pc: Pc, act: PeAct)
    requires SharedOk(sh) && PcOk(sh, pc) && PeEnabled(pc, act)
    ensures Justified(sh, PeStep(sh, pc, act))
  {
    match act
    case Begin =>
    case ChooseSync =>
    case LockedSignal(ok) =>
      if ok {
        SignalKeepsQueues(sh.app, sh.appDone, sh.counter, sh.eventValue);
        QueueChangeOk(sh, Signalled(sh, pc.entry, ok).0);
      }
    case HostRelease => HostReleaseOk(sh, pc.release);
  }

  lemma HostReleaseOk(sh: Shared, r: Release)
    requires SharedOk(sh) && ReleaseOk(sh, r)
    ensures SharedOk(sh.(releases := sh.releases + [r])) && Grows(sh, sh.(releases := sh.releases + [r]))
  {
    var sh' := sh.(releases := sh.releases + [r]);
    forall j | 0 <= j < |sh.runtime| ensures ReadOk(sh'.releases, j, sh.runtime[j]) {
      assert ReadOk(sh.releases, j, sh.runtime[j]);
    }
    forall k | 0 <= k < |sh'.releases| ensures ReleaseOk(sh', sh'.releases[k]) {
      ReleaseGrows(sh, sh', if k < |sh.releases| then sh.releases[k] else r);
    }
  }

  lemma CpuJustified(sh: Shared, pc: Pc, act: CpuAct)
    requires SharedOk(sh) && PcOk(sh, pc) && CpuEnabled(sh, pc, act)
    ensures Justified(sh, CpuStep(sh, pc, act))
  {
    var sh' := CpuStep(sh, pc, act).0;
    if act.SignalFence? && act.ok {
      OtherKeepsQueues(sh.app, CpuSignal(pc.value), sh.appDone, sh.counter, sh.eventValue);
    }
    QueueChangeOk(sh, sh');
  }

  lemma WaitsAppend(runtime: seq<RuntimeOp>, done: nat, counter: nat, eventValue: nat, op: RuntimeOp)
    requires WaitsOk(runtime, done, counter, eventValue) && (op.Wait? ==> op.value <= counter)
    ensures WaitsOk(runtime + [op], done, counter, eventValue)
  {
  }

  lemma ReadsAppend(runtime: seq<RuntimeOp>, releases: seq<Release>, op: RuntimeOp)
    requires ReadsOk(runtime, releases) && ReadOk(releases, |runtime|, op)
    ensures ReadsOk(runtime + [op], releases)
  {
    forall j | 0 <= j < |runtime| ensures ReadOk(releases, j, (runtime + [op])[j]) {
      assert ReadOk(releases, j, runtime[j]);
    }
  }

  lemma RuntimeGrows(sh: Shared, op: RuntimeOp)
    requires SharedOk(sh) && (op.Wait? ==> op.value <= sh.counter) && ReadOk(sh.releases, |sh.runtime|, op)
    ensures var sh' := sh.(runtime := sh.runtime + [op]); Grows(sh, sh') && SharedOk(sh')
  {
    WaitsAppend(sh.runtime, sh.runtimeDone, sh.counter, sh.eventValue, op);
    ReadsAppend(sh.runtime, sh.releases, op);
    ReleasesGrow(sh, sh.(runtime := sh.runtime + [op]));
  }

  lemma CommitOk(sh: Shared, v: nat, at: nat)
    requires SharedOk(sh) && at < |sh.app| && sh.app[at] == Signal(v)
    ensures var sh' := sh.(runtime := sh.runtime + [Wait(v)]); Grows(sh, sh') && SharedOk(sh')
  {
    SignalsMonotone(sh.app, at + 1, |sh.app|);
    assert v <= sh.counter;
    RuntimeGrows(sh, Wait(v));
  }

  lemma UnixJustified(sh: Shared, pc: Pc, act: UnixAct)
    requires SharedOk(sh) && PcOk(sh, pc) && UnixEnabled(sh, pc, act)
    ensures Justified(sh, UnixStep(sh, pc, act))
  {
    if act.CommitWait? && act.ok {
      CommitOk(sh, pc.fence.value, pc.fence.at);
    } else {
      QueueChangeOk(sh, UnixStep(sh, pc, act).0);
    }
  }

  lemma RenderOk(sh: Shared)
    requires SharedOk(sh)
    ensures Grows(sh, QueueStep(sh, SubmitRender)) && SharedOk(QueueStep(sh, SubmitRender))
  {
    OtherKeepsQueues(sh.app, Render, sh.appDone, sh.counter, sh.eventValue);
    QueueChangeOk(sh, QueueStep(sh, SubmitRender));
  }

  lemma GpuStepOk(sh: Shared)
    requires SharedOk(sh) && sh.appDone < |sh.app|
    ensures Grows(sh, AfterGpu(sh)) && SharedOk(AfterGpu(sh))
  {
    GpuKeepsQueues(sh.app, sh.appDone, sh.counter, sh.eventValue);
    QueueChangeOk(sh, AfterGpu(sh));
  }

  lemma RuntimeStepOk(sh: Shared)
    requires SharedOk(sh) && QueueEnabled(sh, RuntimeGpuStep)
    ensures var sh' := sh.(runtimeDone := sh.runtimeDone + 1); Grows(sh, sh') && SharedOk(sh')
  {
    ReleasesGrow(sh, sh.(runtimeDone := sh.runtimeDone + 1));
  }

  lemma SubmitReadOk(sh: Shared, r: nat)
    requires SharedOk(sh) && r < |sh.releases|
    ensures var sh' := sh.(runtime := sh.runtime + [Read(r)]); Grows(sh, sh') && SharedOk(sh')
  {
    assert ReleaseOk(sh, sh.releases[r]);
    RuntimeGrows(sh, Read(r));
  }

  lemma QueueStepOk(sh: Shared, act: QueueAct)
    requires SharedOk(sh) && QueueEnabled(sh, act)
    ensures Grows(sh, QueueStep(sh, act)) && SharedOk(QueueStep(sh, act))
  {
    match act
    case SubmitRender => RenderOk(sh);
    case AppGpuStep => GpuStepOk(sh);
    case SubmitRead(r) => SubmitReadOk(sh, r);
    case RuntimeGpuStep => RuntimeStepOk(sh);
  }

  lemma MovedKeepsInv(s: State, t: ThreadId, to: (Shared, Pc))
    requires Inv(s) && Justified(s.sh, to)
    ensures Inv(Moved(s, t, to))
  {
    var s' := Moved(s, t, to);
    forall u | u in s'.threads ensures PcOk(s'.sh, s'.threads[u]) {
      if u != t { PcGrows(s.sh, s'.sh, s.threads[u]); }
    }
  }

  /** Every action keeps the invariant. */
  lemma StepKeepsInv(s: State, a: Action)
    requires Inv(s) && Enabled(s, a)
    ensures Inv(Apply(s, a)) && Grows(s.sh, Apply(s, a).sh)
  {
    match a
    case Pe(t, act) =>
      PeJustified(s.sh, PcOf(s, t), act);
      MovedKeepsInv(s, t, PeStep(s.sh, PcOf(s, t), act));
    case Cpu(t, act) =>
      CpuJustified(s.sh, PcOf(s, t), act);
      MovedKeepsInv(s, t, CpuStep(s.sh, PcOf(s, t), act));
    case Unix(t, act) =>
      UnixJustified(s.sh, PcOf(s, t), act);
      MovedKeepsInv(s, t, UnixStep(s.sh, PcOf(s, t), act));
    case Queue(act) =>
      QueueStepOk(s.sh, act);
      forall u | u in s.threads ensures PcOk(QueueStep(s.sh, act), s.threads[u]) {
        PcGrows(s.sh, QueueStep(s.sh, act), s.threads[u]);
      }
  }

  lemma {:induction false} RunKeepsInv(rules: Rules, s1: State, actions: seq<Action>, s2: State)
    requires Inv(s1) && Runs(Next(rules), s1, actions, s2)
    ensures Inv(s2) && Grows(s1.sh, s2.sh)
    decreases |actions|
  {
    if actions != [] {
      StepKeepsInv(s1, actions[0]);
      RunKeepsInv(rules, Apply(s1, actions[0]), actions[1..], s2);
    }
  }

  // ---- Read after render -------------------------------------------------------------------------

  /** The release whose image read j of the runtime's queue reads. */
  predicate ReadsRelease(sh: Shared, j: nat, k: nat) {
    j < |sh.runtime| && sh.runtime[j] == Read(k) && k < |sh.releases|
  }

  /** Everything the application had enqueued before the release has executed. */
  predicate RenderedBefore(sh: Shared, r: Release) {
    r.entry <= sh.appDone
  }

  lemma OrderedReleaseRendered(sh: Shared, j: nat, k: nat)
    requires SharedOk(sh) && j < sh.runtimeDone && ReadsRelease(sh, j, k)
    requires sh.releases[k].sync.Fenced? || (sh.releases[k].sync.CpuWaited? && sh.path == D3D11)
    ensures RenderedBefore(sh, sh.releases[k])
  {
    var r := sh.releases[k];
    assert ReadOk(sh.releases, j, sh.runtime[j]) && ReleaseOk(sh, r);
    if r.sync.Fenced? {
      assert r.fence.value <= sh.eventValue;
      ReachedMeansRun(sh.app, sh.appDone, r.fence.at);
    }
  }

  /** Main safety result. In every state of every run, a read that has executed, of a release ordered
      by a fence or by D3D11's query, executed after everything enqueued before that release. It holds
      in the state right after the read, which is the moment that matters. */
  lemma ReadAfterRender(rules: Rules, s0: State, actions: seq<Action>, s: State, j: nat, k: nat)
    requires Init(s0) && Runs(Next(rules), s0, actions, s) && j < s.sh.runtimeDone && ReadsRelease(s.sh, j, k)
    requires s.sh.releases[k].sync.Fenced? || (s.sh.releases[k].sync.CpuWaited? && s.sh.path == D3D11)
    ensures RenderedBefore(s.sh, s.sh.releases[k])
  {
    RunKeepsInv(rules, s0, actions, s);
    OrderedReleaseRendered(s.sh, j, k);
  }

  // ---- When a release is not ordered ---------------------------------------------------------------

  /** Over any run: a release went to the host unordered if and only if the session's path has no
      ordering, its carrier signal failed, its CPU wait did not return in time, or it carried a value
      and one of the unix half's two reads of the event found it off, or it got no command buffer. */
  lemma UnsyncedExactly(rules: Rules, s0: State, actions: seq<Action>, s: State, k: nat)
    requires Init(s0) && Runs(Next(rules), s0, actions, s) && k < |s.sh.releases|
    ensures var r := s.sh.releases[k];
            r.sync.Unsynced? <==>
              || s0.sh.path == NoSync
              || (s0.sh.path == Carrier && r.fence.SignalFailed?)
              || (OnDevice(s0.sh.path) && r.fence.WaitSkipped?)
              || (r.fence.Value? && r.gate in {Shut, EventLost, NoBuffer})
  {
    RunKeepsInv(rules, s0, actions, s);
    assert ReleaseOk(s.sh, s.sh.releases[k]);
  }

  /** On the device paths, as long as the event has not been switched off, a release is unordered if
      and only if its CPU wait was skipped - its fence or query could not be made, signalled or waited
      for, or timed out - or its GPU wait found no command buffer. */
  lemma DeviceFenceOrdersReleases(rules: Rules, s0: State, actions: seq<Action>, s: State, k: nat)
    requires Init(s0) && OnDevice(s0.sh.path) && Runs(Next(rules), s0, actions, s)
    requires s.sh.eventActive && k < |s.sh.releases|
    ensures var r := s.sh.releases[k];
            r.sync.Unsynced? <==> r.fence.WaitSkipped? || (r.fence.Value? && r.gate.NoBuffer?)
  {
    RunKeepsInv(rules, s0, actions, s);
    assert ReleaseOk(s.sh, s.sh.releases[k]);
  }

  // ---- The runtime queue never wedges --------------------------------------------------------------

  lemma SignalsAreExactlyTheCount(rules: Rules, s0: State, actions: seq<Action>, s: State)
    requires Init(s0) && Runs(Next(rules), s0, actions, s)
    ensures SentValues(s.sh.app) == seq(s.sh.counter, i => i + 1)
  {
    RunKeepsInv(rules, s0, actions, s);
    NumberedValues(s.sh.app);
  }

  lemma {:induction false} SignalWithin(app: seq<AppOp>, m: nat, n: nat)
    returns (i: nat)
    requires Numbered(app) && m <= n <= |app| && Signals(app, m) < Signals(app, n)
    ensures m <= i < n && app[i] == Signal(Signals(app, n))
    decreases n
  {
    if app[n - 1].Signal? { i := n - 1; } else { i := SignalWithin(app, m, n - 1); }
  }

  /** A blocked wait has a signal of at least its value still ahead in the application queue. */
  lemma BlockedWaitHasPendingSignal(rules: Rules, s0: State, actions: seq<Action>, s: State)
    requires Init(s0) && Runs(Next(rules), s0, actions, s)
    requires s.sh.runtimeDone < |s.sh.runtime| && !QueueEnabled(s.sh, RuntimeGpuStep)
    ensures s.sh.runtime[s.sh.runtimeDone].Wait?
    ensures exists i :: s.sh.appDone <= i < |s.sh.app| && s.sh.app[i].Signal?
                     && s.sh.runtime[s.sh.runtimeDone].value <= s.sh.app[i].value
  {
    RunKeepsInv(rules, s0, actions, s);
    PendingSignal(s.sh.app, s.sh.appDone, s.sh.runtime[s.sh.runtimeDone].value);
  }

  lemma PendingSignal(app: seq<AppOp>, done: nat, value: nat)
    requires Numbered(app) && done <= |app| && Signals(app, done) < value <= Signals(app, |app|)
    ensures exists i :: done <= i < |app| && app[i].Signal? && value <= app[i].value
  {
    var i := SignalWithin(app, done, |app|);
  }

  predicate Drained(s: State) {
    s.sh.appDone == |s.sh.app| && s.sh.runtimeDone == |s.sh.runtime|
  }

  predicate GpuOnly(actions: seq<Action>) {
    forall i :: 0 <= i < |actions| ==> actions[i] in {Queue(AppGpuStep), Queue(RuntimeGpuStep)}
  }

  lemma {:induction false} DrainRun(rules: Rules, s: State) returns (actions: seq<Action>, s': State)
    requires Inv(s)
    ensures GpuOnly(actions) && Runs(Next(rules), s, actions, s') && Drained(s')
    decreases |s.sh.app| - s.sh.appDone, |s.sh.runtime| - s.sh.runtimeDone
  {
    if Drained(s) {
      return [], s;
    }
    var a := Queue(if s.sh.appDone < |s.sh.app| then AppGpuStep else RuntimeGpuStep);
    StepKeepsInv(s, a);
    var rest;
    rest, s' := DrainRun(rules, Apply(s, a));
    actions := [a] + rest;
    StepThen(Next(rules), s, a, Apply(s, a), rest, s');
  }

  /** No schedule wedges the GPU: from every reachable state the two queues can run dry on their own,
      without any further step of the bridge. */
  lemma QueuesNeverWedge(rules: Rules, s0: State, actions: seq<Action>, s: State)
    requires Init(s0) && Runs(Next(rules), s0, actions, s)
    ensures exists more, s' :: GpuOnly(more) && Runs(Next(rules), s, more, s') && Drained(s')
  {
    RunKeepsInv(rules, s0, actions, s);
    var more, s' := DrainRun(rules, s);
  }
}
