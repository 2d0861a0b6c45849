/** The release path as code over mutable fields. One thread's straight-line execution of
    xrReleaseSwapchainImage, PE half, unix half and host call, is a run of the machine in
    ReleaseFence, so everything proved there about all runs holds of it. */
module ReleaseCode {
  import opened Prelude
  import opened Machine
  import opened ReleaseFence
  import opened ReleaseOverlap
  import opened ReleaseEvent

  /** One release at a time; CPU waits may time out. */
  const SERIAL := Rules(false, true)

  type TimedRules = rules: Rules | rules.timeouts witness SERIAL

  /** The actions are thread t's or a queue's, and time out only if they may. */
  predicate Solo(t: ThreadId, timeouts: bool, actions: seq<Action>) {
    forall i :: 0 <= i < |actions| ==>
      actions[i].Queue? || (actions[i].t == t && (actions[i].Cpu? && actions[i].cpu.TimeOut? ==> timeouts))
  }

  lemma {:induction false} OthersStay(rules: Rules, s1: State, actions: seq<Action>, s2: State, t: ThreadId,
                                      timeouts: bool)
    requires Runs(Next(rules), s1, actions, s2) && Solo(t, timeouts, actions)
    ensures OnlyMoves(s1, t, s2) && s1.sh.app <= s2.sh.app
    decreases |actions|
  {
    if actions != [] {
      assert OnlyMoves(s1, t, Apply(s1, actions[0])) && s1.sh.app <= Apply(s1, actions[0]).sh.app;
      OthersStay(rules, Apply(s1, actions[0]), actions[1..], s2, t, timeouts);
    }
  }

  // ---- How far the application's queue gets --------------------------------------------------------

  /** Up to n operations of the application's queue run. */
  function Advance(sh: Shared, n: nat): Shared
    decreases n
  {
    if n == 0 || sh.appDone >= |sh.app| then sh else Advance(AfterGpu(sh), n - 1)
  }

  function Sum(runs: seq<nat>): nat {
    if runs == [] then 0 else Sum(runs[..|runs| - 1]) + runs[|runs| - 1]
  }

  lemma {:induction false} SumPrefix(runs: seq<nat>, k: nat)
    requires k <= |runs|
    ensures Sum(runs[..k]) <= Sum(runs)
  {
    if k == |runs| {
      assert runs[..k] == runs;
    } else {
      SumPrefix(runs[..|runs| - 1], k);
      assert runs[..|runs| - 1][..k] == runs[..k];
    }
  }

  lemma SumNext(runs: seq<nat>, k: nat)
    requires k < |runs|
    ensures Sum(runs[..k + 1]) == Sum(runs[..k]) + runs[k]
  {
    assert runs[..k + 1][..k] == runs[..k];
  }

  lemma {:induction false} AdvanceThen(sh: Shared, m: nat, n: nat)
    ensures Advance(sh, m + n) == Advance(Advance(sh, m), n)
    decreases m
  {
    if m != 0 && sh.appDone < |sh.app| { AdvanceThen(AfterGpu(sh), m - 1, n); }
  }

  /** Exactly that much runs, and nothing but the queue's effects changes. */
  lemma {:induction false} AdvanceDone(sh: Shared, n: nat)
    requires sh.appDone <= |sh.app|
    ensures var to := Advance(sh, n);
            && to.appDone == (if sh.appDone + n <= |sh.app| then sh.appDone + n else |sh.app|)
            && to == sh.(appDone := to.appDone, eventValue := to.eventValue, cpu := to.cpu)
            && to.cpu == sh.cpu.(completed := to.cpu.completed, signalled := to.cpu.signalled,
                                 pending := to.cpu.pending)
    decreases n
  {
    if n != 0 && sh.appDone < |sh.app| { AdvanceDone(AfterGpu(sh), n - 1); }
  }

  lemma {:induction false} AdvanceOk(sh: Shared, n: nat)
    requires SharedOk(sh)
    ensures SharedOk(Advance(sh, n))
    decreases n
  {
    if n != 0 && sh.appDone < |sh.app| {
      GpuStepOk(sh);
      assert Advance(sh, n) == Advance(AfterGpu(sh), n - 1);
      AdvanceOk(AfterGpu(sh), n - 1);
    }
  }

  /** The event reaches the value of a signal exactly by that signal running. */
  lemma ReachesExactly(sh: Shared, n: nat, at: nat, v: nat)
    requires SharedOk(sh) && at < |sh.app| && sh.app[at] == Signal(v)
    ensures v <= Advance(sh, n).eventValue <==> at < sh.appDone + n
  {
    AdvanceDone(sh, n);
    AdvanceOk(sh, n);
    var done := Advance(sh, n).appDone;
    if at < done { SignalsMonotone(sh.app, at + 1, done); } else { SignalsMonotone(sh.app, done, at); }
  }

  /** A wait that is registered for a signal is woken when that signal runs. */
  lemma {:induction false} AdvanceWakes(sh: Shared, n: nat, at: nat, v: nat)
    requires at < |sh.app| && sh.app[at] == CpuSignal(v)
    requires sh.cpu.signalled || (v in sh.cpu.pending && sh.appDone <= at < sh.appDone + n)
    ensures Advance(sh, n).cpu.signalled
    decreases n
  {
    if n != 0 && sh.appDone < |sh.app| { AdvanceWakes(AfterGpu(sh), n - 1, at, v); }
  }

  lemma {:induction false} CheckedApart(sh: Shared, n: nat)
    ensures Advance(sh.(checked := true), n) == Advance(sh, n).(checked := true)
    decreases n
  {
    if n != 0 && sh.appDone < |sh.app| { CheckedApart(AfterGpu(sh), n - 1); }
  }

  /** The queue has got n operations further. */
  predicate Polled(from: Shared, to: Shared, n: nat) {
    (to.appDone, to.eventValue, to.cpu) == (Advance(from, n).appDone, Advance(from, n).eventValue, Advance(from, n).cpu)
  }

  /** In none of the first `turns` looks has the event the value. */
  predicate ValueMissing(sh: Shared, runs: seq<nat>, turns: nat, v: nat)
    requires turns <= |runs|
  {
    forall k :: 0 <= k < turns ==> Advance(sh, Sum(runs[..k])).eventValue < v
  }

  /** A check that polls until the value is there, or for all of `runs`, finds it exactly if its signal
      runs in that time. */
  lemma PollingFindsExactly(sh: Shared, runs: seq<nat>, turns: nat, at: nat, v: nat)
    requires SharedOk(sh) && at < |sh.app| && sh.app[at] == Signal(v) && turns <= |runs|
    requires v <= Advance(sh, Sum(runs[..turns])).eventValue || turns == |runs|
    ensures v <= Advance(sh, Sum(runs[..turns])).eventValue <==> at < sh.appDone + Sum(runs)
  {
    ReachesExactly(sh, Sum(runs[..turns]), at, v);
    SumPrefix(runs, turns);
    assert turns == |runs| ==> runs[..turns] == runs;
  }

  // ---- What a lone thread's release comes to -------------------------------------------------------

  /** Whether the PE half's signal call is made and succeeds. */
  predicate Sends(path: Path, eventActive: bool, signalOk: bool) {
    signalOk && (path == Carrier || (OnDevice(path) && eventActive))
  }

  /** What the PE half leaves, by the path, the signal and the CPU wait. */
  function FenceOf(path: Path, sent: bool, waited: bool, counter: nat, at: nat): Fence {
    if sent then Value(counter + 1, at)
    else
      match path
      case NoSync => NoSignal
      case Carrier => SignalFailed
      case _ => if waited then WaitReturned else WaitSkipped
  }

  /** Whether a CPU wait returns in time. `made`: its fence or query exists; `ends`: how far the queue gets
      while it waits; `length`: what was submitted before. D3D12's own signal comes behind that, and a
      signal left over from an earlier wait may end it sooner. */
  predicate WaitResult(path: Path, waited: bool, made: bool, signalOk: bool, registerOk: bool, ends: nat, length: nat) {
    if path == D3D11 then waited <==> made && length <= ends
    else (waited ==> made && signalOk) && (made && signalOk && registerOk && length < ends ==> waited)
  }

  /** The release a lone thread hands to the host: `active` and `reached` are the event's state and
      value at the second guard, `pos` is where a wait would be queued, and `buffer` says whether there
      is a command buffer for it. */
  function Synced(pc: Pc, active: bool, reached: nat, pos: nat, buffer: bool): Release
    requires pc.InUnix?
  {
    if !pc.fence.Value? || !active then Unguarded(pc)
    else if pc.fence.value <= reached then Release(pc.entry, pc.fence, Passed, Fenced(AlreadyReached))
    else if buffer then Release(pc.entry, pc.fence, Passed, Fenced(QueuedAt(pos)))
    else Release(pc.entry, pc.fence, NoBuffer, Unsynced)
  }

  /** The runtime's queue afterwards. */
  function Queued(runtime: seq<RuntimeOp>, value: nat, active: bool, reached: nat, buffer: bool): seq<RuntimeOp> {
    if value != 0 && active && reached < value && buffer then runtime + [Wait(value)] else runtime
  }

  /** One xrReleaseSwapchainImage: who calls, what was rendered and executed since the last, and what the
      foreign calls answer. */
  datatype Call = Call(t: ThreadId, renders: nat, executed: nat, signalOk: bool, fenceOk: bool, cpuSignalOk: bool,
                       registerOk: bool, cpuRuns: seq<nat>, timeout: nat, runs: seq<nat>, buffer: bool)

  /** What was rendered for these calls. */
  function Renders(calls: seq<Call>): nat {
    if calls == [] then 0 else Renders(calls[..|calls| - 1]) + calls[|calls| - 1].renders
  }

  /** Each release comes behind everything rendered for its call and the calls before. */
  predicate EachFollowsItsRenders(releases: seq<Release>, calls: seq<Call>) {
    |releases| <= |calls| && forall k :: 0 <= k < |releases| ==> Renders(calls[..k + 1]) <= releases[k].entry
  }

  lemma FollowsItsRenders(releases: seq<Release>, calls: seq<Call>)
    requires 0 < |releases| <= |calls| && EachFollowsItsRenders(releases[..|releases| - 1], calls)
    requires Renders(calls[..|releases|]) <= releases[|releases| - 1].entry
    ensures EachFollowsItsRenders(releases, calls)
    ensures forall k :: 0 <= k < |releases| - 1 ==> releases[k] == releases[..|releases| - 1][k]
  {
    assert forall k :: 0 <= k < |releases| - 1 ==> releases[k] == releases[..|releases| - 1][k];
  }

  /** Whatever happens from here on, an image released in order so far is read after its rendering. */
  ghost predicate ReadInOrder(s1: State) {
    forall after, s, j: nat, k: nat ::
      Runs(Next(ANY), s1, after, s) && j < s.sh.runtimeDone && ReadsRelease(s.sh, j, k)
      && k < |s1.sh.releases| && !s1.sh.releases[k].sync.Unsynced? ==>
        RenderedBefore(s.sh, s1.sh.releases[k])
  }

  lemma CalmRunReadsInOrder(s0: State, actions: seq<Action>, s1: State)
    requires Init(s0) && Runs(Next(SERIAL), s0, actions, s1) && NoTimeOut(actions)
    ensures ReadInOrder(s1)
  {
    forall after, s, j: nat, k: nat |
      Runs(Next(ANY), s1, after, s) && j < s.sh.runtimeDone && ReadsRelease(s.sh, j, k)
      && k < |s1.sh.releases| && !s1.sh.releases[k].sync.Unsynced?
      ensures RenderedBefore(s.sh, s1.sh.releases[k])
    {
      OrderedBeforeFirstTimeOut(SERIAL, s0, actions, s1, ANY, after, s, j, k);
    }
  }

  class ReleaseSession {
    const path: Path
    ghost const rules: TimedRules
    var app: seq<AppOp>
    var appDone: nat
    var runtime: seq<RuntimeOp>
    var runtimeDone: nat
    var eventValue: nat
    var counter: nat
    var eventActive: bool
    var checked: bool
    var cpu: CpuSync
    ghost var releases: seq<Release>
    ghost var threads: map<ThreadId, Pc>

    ghost function Abs(): State
      reads this
    {
      State(Shared(path, app, appDone, runtime, runtimeDone, eventValue, counter, eventActive, checked, cpu, releases),
            threads)
    }

    ghost predicate MayBegin()
      reads this
    {
      rules.overlap || AllIdle(Abs())
    }

    ghost predicate Ran(before: State, actions: seq<Action>)
      reads this
    {
      Runs(Next(rules), before, actions, Abs())
    }

    constructor (path: Path, eventActive: bool, ghost rules: TimedRules)
      ensures Init(Abs()) && this.path == path && this.eventActive == eventActive && this.rules == rules
    {
      this.path, this.eventActive, this.rules := path, eventActive, rules;
      app, appDone, runtime, runtimeDone, eventValue, counter := [], 0, [], 0, 0, 0;
      checked, cpu, releases, threads := false, NO_CPU, [], map[];
    }

    // ---- The application's queue -----------------------------------------------------------------

    method AppQueueRuns()
      requires appDone < |app|
      modifies this`appDone, this`eventValue, this`cpu
      ensures Abs() == Apply(old(Abs()), Queue(AppGpuStep))
    {
      var op := app[appDone];
      if op.Signal? { eventValue := op.value; }
      if op.CpuSignal? { cpu := Completed(cpu, op.value); }
      appDone := appDone + 1;
    }

    /** n operations run, or as many as there are. */
    method AppQueueRunsSome(n: nat, ghost s0: State, ghost before: seq<Action>) returns (ghost actions: seq<Action>)
      requires Ran(s0, before) && appDone <= |app|
      modifies this`appDone, this`eventValue, this`cpu
      ensures Ran(s0, actions) && (GpuOnly(before) ==> GpuOnly(actions))
      ensures forall t, timeouts :: Solo(t, timeouts, before) ==> Solo(t, timeouts, actions)
      ensures Abs().sh == Advance(old(Abs().sh), n)
      ensures appDone == if old(appDone) + n <= |app| then old(appDone) + n else |app|
      ensures cpu.queryAt == old(cpu.queryAt)
    {
      AdvanceDone(Abs().sh, n);
      actions := before;
      for i := 0 to n
        invariant Ran(s0, actions) && appDone <= |app| && (GpuOnly(before) ==> GpuOnly(actions))
        invariant forall t, timeouts :: Solo(t, timeouts, before) ==> Solo(t, timeouts, actions)
        invariant Advance(Abs().sh, n - i) == Advance(old(Abs().sh), n)
      {
        if appDone == |app| { return; }
        ghost var s, s' := Abs(), Abs();
        AppQueueRuns();
        actions, s' := Extend(rules, s0, actions, s, Queue(AppGpuStep));
      }
    }

    // ---- The PE half -----------------------------------------------------------------------------

    /** The section under swapchain_lock; `ok` is the result of the foreign signal call. */
    method SignalUnderLock(t: ThreadId, ok: bool) returns (fenceValue: nat)
      requires PcOf(Abs(), t).Signalling?
      modifies this`app, this`counter, this`threads
      ensures Abs() == Apply(old(Abs()), Pe(t, LockedSignal(ok)))
      ensures fenceValue == if ok then old(counter) + 1 else 0
    {
      ghost var entry := threads[t].entry;
      fenceValue := 0;
      if ok {
        threads := threads[t := InUnix(FirstGuard, entry, Value(counter + 1, |app|))];
        app := app + [Signal(counter + 1)];
        counter := counter + 1;
        fenceValue := counter;
      } else {
        threads := threads[t := if OnDevice(path) then InCpu(Start, entry, 0, 0)
                                else InUnix(FirstGuard, entry, SignalFailed)];
      }
    }

    /** Create the fence and event, or the query, once. */
    method MakeFence(t: ThreadId, ok: bool) returns (made: bool)
      requires Enabled(Abs(), Cpu(t, CpuAct.MakeFence(ok)))
      modifies this`cpu, this`threads
      ensures Abs() == Apply(old(Abs()), Cpu(t, CpuAct.MakeFence(ok))) && made == (old(cpu.created) || ok)
    {
      made := cpu.created || ok;
      if made { cpu := cpu.(created := true); }
      ghost var pc := threads[t];
      threads := threads[t := if !made then Resumed(pc, false)
                              else pc.(step := if path == D3D12 then Count else EndQuery)];
    }

    /** The unlocked ++d3d12_cpu_fence_value: a read, ... */
    method ReadCpuCounter(t: ThreadId) returns (value: nat)
      requires Enabled(Abs(), Cpu(t, ReadCounter))
      modifies this`threads
      ensures Abs() == Apply(old(Abs()), Cpu(t, ReadCounter)) && PcOf(Abs(), t).value == value
    {
      value := cpu.counter + 1;
      threads := threads[t := threads[t].(step := Store, value := value)];
    }

    /** ... and a write. */
    method WriteCpuCounter(t: ThreadId, value: nat)
      requires Enabled(Abs(), Cpu(t, WriteCounter)) && PcOf(Abs(), t).value == value
      modifies this`cpu, this`threads
      ensures Abs() == Apply(old(Abs()), Cpu(t, WriteCounter))
    {
      cpu := cpu.(counter := value);
      threads := threads[t := threads[t].(step := Send)];
    }

    method SignalCpuFence(t: ThreadId, value: nat, ok: bool)
      requires Enabled(Abs(), Cpu(t, SignalFence(ok))) && PcOf(Abs(), t).value == value
      modifies this`app, this`threads
      ensures Abs() == Apply(old(Abs()), Cpu(t, SignalFence(ok)))
    {
      ghost var pc := threads[t];
      threads := threads[t := if ok then pc.(step := Check, at := |app|) else Resumed(pc, false)];
      if ok { app := app + [CpuSignal(value)]; }
    }

    method CpuFenceCompleted(t: ThreadId, value: nat) returns (done: bool)
      requires Enabled(Abs(), Cpu(t, CheckCompleted)) && PcOf(Abs(), t).value == value
      modifies this`threads
      ensures Abs() == Apply(old(Abs()), Cpu(t, CheckCompleted)) && done == (value <= cpu.completed)
    {
      done := value <= cpu.completed;
      threads := threads[t := if done then Resumed(threads[t], true) else threads[t].(step := Register)];
    }

    method RegisterEvent(t: ThreadId, value: nat, ok: bool)
      requires Enabled(Abs(), Cpu(t, CpuAct.SetEvent(ok))) && PcOf(Abs(), t).value == value
      modifies this`cpu, this`threads
      ensures Abs() == Apply(old(Abs()), Cpu(t, CpuAct.SetEvent(ok)))
    {
      if ok { cpu := Registered(cpu, value); }
      threads := threads[t := if ok then threads[t].(step := Blocked) else Resumed(threads[t], false)];
    }

    /** WaitForSingleObject on the auto-reset event; `runs` says how much of the queue runs in each
        unit of time. */
    method WaitForEvent(t: ThreadId, runs: seq<nat>, ghost s0: State, ghost before: seq<Action>)
      returns (woken: bool, ghost actions: seq<Action>, ghost turns: nat)
      requires PcOf(Abs(), t).InCpu? && PcOf(Abs(), t).step == Blocked && Ran(s0, before) && appDone <= |app|
      requires Solo(t, false, before)
      modifies this`appDone, this`eventValue, this`cpu, this`threads
      ensures Ran(s0, actions) && Solo(t, !woken, actions) && appDone <= |app|
      ensures PcOf(Abs(), t) == Resumed(old(PcOf(Abs(), t)), woken)
      // until the event is set, or for all of the time
      ensures turns <= |runs| && (!woken ==> turns == |runs|)
      ensures woken == Advance(old(Abs().sh), Sum(runs[..turns])).cpu.signalled
    {
      actions, turns := UntilSignalled(t, runs, s0, before);
      ghost var s, s' := Abs(), Abs();
      woken := EndWait(t);
      actions, s' := Extend(rules, s0, actions, s, Cpu(t, if woken then Wake else TimeOut));
    }

    method UntilSignalled(t: ThreadId, runs: seq<nat>, ghost s0: State, ghost before: seq<Action>)
      returns (ghost actions: seq<Action>, ghost turns: nat)
      requires Ran(s0, before) && appDone <= |app| && Solo(t, false, before)
      modifies this`appDone, this`eventValue, this`cpu
      ensures Ran(s0, actions) && Solo(t, false, actions) && appDone <= |app|
      ensures turns <= |runs| && (!cpu.signalled ==> turns == |runs|)
      ensures Abs().sh == Advance(old(Abs().sh), Sum(runs[..turns]))
    {
      actions, turns := before, 0;
      var waited := 0;
      assert runs[..0] == [];
      while !cpu.signalled && waited < |runs|
        invariant turns == waited <= |runs| && Ran(s0, actions) && appDone <= |app| && Solo(t, false, actions)
        invariant Abs().sh == Advance(old(Abs().sh), Sum(runs[..turns]))
      {
        SumNext(runs, waited);
        AdvanceThen(old(Abs().sh), Sum(runs[..waited]), runs[waited]);
        actions := AppQueueRunsSome(runs[waited], s0, actions);
        waited, turns := waited + 1, turns + 1;
      }
    }

    method EndWait(t: ThreadId) returns (woken: bool)
      requires PcOf(Abs(), t).InCpu? && PcOf(Abs(), t).step == Blocked
      modifies this`cpu, this`threads
      ensures woken == old(cpu.signalled)
      ensures Abs() == Apply(old(Abs()), Cpu(t, if woken then Wake else TimeOut))
    {
      woken := cpu.signalled;
      if woken { cpu := cpu.(signalled := false); }
      threads := threads[t := Resumed(threads[t], woken)];
    }

    /** d3d12_cpu_release_sync. */
    method CpuReleaseSync(t: ThreadId, fenceOk: bool, signalOk: bool, registerOk: bool, runs: seq<nat>,
                          ghost s0: State, ghost before: seq<Action>)
      returns (waited: bool, ghost actions: seq<Action>)
      requires PcOf(Abs(), t).InCpu? && PcOf(Abs(), t).step == Start && path == D3D12
      requires Ran(s0, before) && Solo(t, false, before) && appDone <= |app|
      modifies this`app, this`appDone, this`eventValue, this`cpu, this`threads
      ensures Ran(s0, actions) && Solo(t, !waited, actions) && appDone <= |app|
      ensures PcOf(Abs(), t) == Resumed(old(PcOf(Abs(), t)), waited)
      ensures waited ==> (old(cpu.created) || fenceOk) && signalOk
      ensures (old(cpu.created) || fenceOk) && signalOk && registerOk && |old(app)| < old(appDone) + Sum(runs) ==>
                waited
    {
      ghost var s, s' := Abs(), Abs();
      var made := MakeFence(t, fenceOk);
      actions, s' := Extend(rules, s0, before, s, Cpu(t, CpuAct.MakeFence(fenceOk)));
      if !made { return false, actions; }
      var value;
      value, actions := CountUp(t, s0, actions);
      waited, actions := SignalAndWait(t, value, signalOk, registerOk, runs, s0, actions);
    }

    method CountUp(t: ThreadId, ghost s0: State, ghost before: seq<Action>)
      returns (value: nat, ghost actions: seq<Action>)
      requires PcOf(Abs(), t).InCpu? && PcOf(Abs(), t).step == Count && Ran(s0, before)
      requires Solo(t, false, before)
      modifies this`cpu, this`threads
      ensures Ran(s0, actions) && Solo(t, false, actions)
      ensures cpu == old(cpu).(counter := old(cpu.counter) + 1) && value == cpu.counter
      ensures PcOf(Abs(), t) == old(PcOf(Abs(), t)).(step := Send, value := value)
    {
      ghost var s, s' := Abs(), Abs();
      value := ReadCpuCounter(t);
      actions, s' := Extend(rules, s0, before, s, Cpu(t, ReadCounter));
      s := Abs();
      WriteCpuCounter(t, value);
      actions, s' := Extend(rules, s0, actions, s, Cpu(t, WriteCounter));
    }

    method SignalAndWait(t: ThreadId, value: nat, signalOk: bool, registerOk: bool, runs: seq<nat>,
                         ghost s0: State, ghost before: seq<Action>)
      returns (waited: bool, ghost actions: seq<Action>)
      requires PcOf(Abs(), t).InCpu? && PcOf(Abs(), t).step == Send && PcOf(Abs(), t).value == value
      requires Ran(s0, before) && Solo(t, false, before) && appDone <= |app|
      modifies this`app, this`appDone, this`eventValue, this`cpu, this`threads
      ensures Ran(s0, actions) && Solo(t, !waited, actions) && appDone <= |app|
      ensures PcOf(Abs(), t) == Resumed(old(PcOf(Abs(), t)), waited) && (waited ==> signalOk)
      ensures signalOk && registerOk && |old(app)| < old(appDone) + Sum(runs) ==> waited
    {
      ghost var s, s' := Abs(), Abs();
      SignalCpuFence(t, value, signalOk);
      actions, s' := Extend(rules, s0, before, s, Cpu(t, SignalFence(signalOk)));
      if !signalOk { return false, actions; }
      waited, actions := WaitForValue(t, value, registerOk, runs, |old(app)|, s0, actions);
    }

    /** The value is that of the signal at `at`: with a registration, the wait succeeds if it runs in time. */
    method WaitForValue(t: ThreadId, value: nat, registerOk: bool, runs: seq<nat>, ghost at: nat,
                        ghost s0: State, ghost before: seq<Action>)
      returns (waited: bool, ghost actions: seq<Action>)
      requires PcOf(Abs(), t).InCpu? && PcOf(Abs(), t).step == Check && PcOf(Abs(), t).value == value
      requires at < |app| && app[at] == CpuSignal(value)
      requires Ran(s0, before) && Solo(t, false, before) && appDone <= |app|
      modifies this`appDone, this`eventValue, this`cpu, this`threads
      ensures Ran(s0, actions) && Solo(t, !waited, actions) && appDone <= |app|
      ensures PcOf(Abs(), t) == Resumed(old(PcOf(Abs(), t)), waited)
      ensures registerOk && old(appDone) <= at < old(appDone) + Sum(runs) ==> waited
    {
      ghost var s, s' := Abs(), Abs();
      var done := CpuFenceCompleted(t, value);
      actions, s' := Extend(rules, s0, before, s, Cpu(t, CheckCompleted));
      if done { return true, actions; }
      waited, actions := RegisterAndWait(t, value, registerOk, runs, at, s0, actions);
    }

    method RegisterAndWait(t: ThreadId, value: nat, registerOk: bool, runs: seq<nat>, ghost at: nat,
                           ghost s0: State, ghost before: seq<Action>)
      returns (waited: bool, ghost actions: seq<Action>)
      requires PcOf(Abs(), t).InCpu? && PcOf(Abs(), t).step == Register && PcOf(Abs(), t).value == value
      requires at < |app| && app[at] == CpuSignal(value)
      requires Ran(s0, before) && Solo(t, false, before) && appDone <= |app|
      modifies this`appDone, this`eventValue, this`cpu, this`threads
      ensures Ran(s0, actions) && Solo(t, !waited, actions) && appDone <= |app|
      ensures PcOf(Abs(), t) == Resumed(old(PcOf(Abs(), t)), waited)
      ensures registerOk && old(appDone) <= at < old(appDone) + Sum(runs) ==> waited
    {
      ghost var s, s' := Abs(), Abs();
      RegisterEvent(t, value, registerOk);
      actions, s' := Extend(rules, s0, before, s, Cpu(t, CpuAct.SetEvent(registerOk)));
      if !registerOk { return false, actions; }
      ghost var sh, turns := Abs().sh, 0;
      waited, actions, turns := WaitForEvent(t, runs, s0, actions);
      if !waited && sh.appDone <= at < sh.appDone + Sum(runs) {
        assert runs[..turns] == runs;
        AdvanceWakes(sh, Sum(runs), at, value);
      }
    }

    /** dmsubst_release_sync: everything submitted before it has run when it returns in time. */
    method QueryReleaseSync(t: ThreadId, queryOk: bool, runs: seq<nat>, ghost s0: State, ghost before: seq<Action>)
      returns (waited: bool, ghost actions: seq<Action>)
      requires PcOf(Abs(), t).InCpu? && PcOf(Abs(), t).step == Start && path == D3D11
      requires Ran(s0, before) && Solo(t, false, before) && appDone <= |app|
      modifies this`appDone, this`eventValue, this`cpu, this`threads
      ensures Ran(s0, actions) && Solo(t, false, actions) && appDone <= |app|
      ensures PcOf(Abs(), t) == Resumed(old(PcOf(Abs(), t)), waited)
      ensures waited ==> appDone == |app|
      ensures waited <==> (old(cpu.created) || queryOk) && |app| <= old(appDone) + Sum(runs)
    {
      ghost var s, s' := Abs(), Abs();
      var made := MakeFence(t, queryOk);
      actions, s' := Extend(rules, s0, before, s, Cpu(t, CpuAct.MakeFence(queryOk)));
      if !made { return false, actions; }
      s := Abs();
      EndTheQuery(t);
      actions, s' := Extend(rules, s0, actions, s, Cpu(t, IssueQuery));
      waited, actions := PollUntilDone(t, runs, s0, actions);
    }

    method EndTheQuery(t: ThreadId)
      requires Enabled(Abs(), Cpu(t, IssueQuery))
      modifies this`cpu, this`threads
      ensures Abs() == Apply(old(Abs()), Cpu(t, IssueQuery))
    {
      cpu := cpu.(queryAt := |app|);
      threads := threads[t := threads[t].(step := PollQuery)];
    }

    method PollUntilDone(t: ThreadId, runs: seq<nat>, ghost s0: State, ghost before: seq<Action>)
      returns (waited: bool, ghost actions: seq<Action>)
      requires PcOf(Abs(), t).InCpu? && PcOf(Abs(), t).step == PollQuery && Ran(s0, before)
      requires Solo(t, false, before)
      requires appDone <= |app| == cpu.queryAt
      modifies this`appDone, this`eventValue, this`cpu, this`threads
      ensures Ran(s0, actions) && Solo(t, false, actions) && appDone <= |app|
      ensures PcOf(Abs(), t) == Resumed(old(PcOf(Abs(), t)), waited) && (waited ==> appDone == |app|)
      ensures waited <==> |app| <= old(appDone) + Sum(runs)
    {
      actions := before;
      var polls := 0;
      var at := cpu.queryAt;
      assert runs[..0] == [];
      while appDone < at && polls < |runs|
        invariant polls <= |runs| && Ran(s0, actions) && appDone <= |app| && threads == old(threads)
        invariant Solo(t, false, actions)
        invariant cpu.queryAt == at
        invariant appDone == if old(appDone) + Sum(runs[..polls]) <= at then old(appDone) + Sum(runs[..polls]) else at
        decreases |runs| - polls
      {
        SumNext(runs, polls);
        actions := AppQueueRunsSome(runs[polls], s0, actions);
        polls := polls + 1;
      }
      waited := at <= appDone;
      SumPrefix(runs, polls);
      assert polls == |runs| ==> runs[..polls] == runs;
      ghost var s, s' := Abs(), Abs();
      threads := threads[t := Resumed(threads[t], waited)];
      actions, s' := Extend(rules, s0, actions, s, Cpu(t, if waited then QueryDone else QueryGivenUp));
    }

    method CpuFallback(t: ThreadId, fenceOk: bool, signalOk: bool, registerOk: bool, runs: seq<nat>,
                       ghost s0: State, ghost before: seq<Action>)
      returns (waited: bool, ghost actions: seq<Action>)
      requires PcOf(Abs(), t).InCpu? && PcOf(Abs(), t).step == Start && OnDevice(path)
      requires Ran(s0, before) && Solo(t, false, before) && appDone <= |app|
      modifies this`app, this`appDone, this`eventValue, this`cpu, this`threads
      ensures Ran(s0, actions) && Solo(t, path == D3D12 && !waited, actions) && appDone <= |app|
      ensures PcOf(Abs(), t) == Resumed(old(PcOf(Abs(), t)), waited)
      ensures WaitResult(path, waited, old(cpu.created) || fenceOk, signalOk, registerOk,
                         old(appDone) + Sum(runs), |old(app)|)
    {
      if path == D3D12 {
        waited, actions := CpuReleaseSync(t, fenceOk, signalOk, registerOk, runs, s0, before);
      } else {
        waited, actions := QueryReleaseSync(t, fenceOk, runs, s0, before);
      }
    }

    ghost method EnterAndChoose(t: ThreadId) returns (actions: seq<Action>)
      requires PcOf(Abs(), t).Idle? && MayBegin()
      modifies this`threads
      ensures Ran(old(Abs()), actions) && Solo(t, false, actions)
      ensures PcOf(Abs(), t) == Chosen(Abs().sh, |app|)
    {
      var s0, s := Abs(), Abs();
      actions, s := Extend(rules, s0, [], s0, Pe(t, Begin));
      actions, s := Extend(rules, s0, actions, s, Pe(t, ChooseSync));
      threads := s.threads;
      assert Abs() == s;
    }

    /** The PE half up to its signal, if any. */
    method SignalFirst(t: ThreadId, signalOk: bool) returns (value: nat, ghost actions: seq<Action>)
      requires PcOf(Abs(), t).Idle? && MayBegin() && appDone <= |app|
      modifies this`app, this`counter, this`threads
      ensures Ran(old(Abs()), actions) && Solo(t, false, actions) && appDone <= |app|
      ensures var sent := Sends(path, eventActive, signalOk);
              && value == (if sent then old(counter) + 1 else 0)
              && app == (if sent then old(app) + [Signal(value)] else old(app))
              && PcOf(Abs(), t) == if OnDevice(path) && !sent then InCpu(Start, |old(app)|, 0, 0)
                                   else InUnix(FirstGuard, |old(app)|,
                                               FenceOf(path, sent, false, old(counter), |old(app)|))
    {
      ghost var s0, s1 := Abs(), Abs();
      value := 0;
      actions := EnterAndChoose(t);
      if path == Carrier || (OnDevice(path) && eventActive) {
        s1 := Abs();
        value := SignalUnderLock(t, signalOk);
        actions, s1 := Extend(rules, s0, actions, s1, Pe(t, LockedSignal(signalOk)));
      }
    }

    /** The PE half of a release. The parameters are what the foreign calls answer. */
    method PeRelease(t: ThreadId, signalOk: bool, fenceOk: bool, cpuSignalOk: bool, registerOk: bool, runs: seq<nat>)
      returns (value: nat, waited: bool, ghost actions: seq<Action>)
      requires PcOf(Abs(), t).Idle? && MayBegin() && appDone <= |app|
      modifies this`app, this`appDone, this`eventValue, this`counter, this`cpu, this`threads
      ensures Ran(old(Abs()), actions) && Solo(t, path == D3D12 && value == 0 && !waited, actions) && appDone <= |app|
      ensures var sent := Sends(path, eventActive, signalOk);
              && PcOf(Abs(), t) == InUnix(FirstGuard, |old(app)|, FenceOf(path, sent, waited, old(counter), |old(app)|))
              && value == (if sent then old(counter) + 1 else 0)
              && (waited ==> OnDevice(path) && !sent)
              && (sent ==> app == old(app) + [Signal(value)] && appDone == old(appDone))
              && (OnDevice(path) && !sent ==>
                    WaitResult(path, waited, old(cpu.created) || fenceOk, cpuSignalOk, registerOk,
                               old(appDone) + Sum(runs), |old(app)|))
    {
      ghost var s0 := Abs();
      value, actions := SignalFirst(t, signalOk);
      waited := false;
      if OnDevice(path) && value == 0 {
        waited, actions := CpuFallback(t, fenceOk, cpuSignalOk, registerOk, runs, s0, actions);
      }
    }

    // ---- The unix half ---------------------------------------------------------------------------

    /** gpu_fence_value_reached: poll once a millisecond until the value is there or time is up; `runs`
        says how much of the foreign queue runs in each of those milliseconds. */
    method FenceValueReached(value: nat, timeout: nat, runs: seq<nat>)
      returns (reached: bool, ghost actions: seq<Action>, ghost turns: nat)
      requires |runs| == timeout && appDone <= |app|
      modifies this`appDone, this`eventValue, this`cpu
      ensures reached <==> value <= eventValue
      ensures GpuOnly(actions) && Ran(old(Abs()), actions) && appDone <= |app|
      // as many turns as it takes, and a failure takes them all
      ensures turns <= timeout && (!reached ==> turns == timeout)
      ensures ValueMissing(old(Abs().sh), runs, turns, value)
      ensures Abs().sh == Advance(old(Abs().sh), Sum(runs[..turns]))
    {
      var waited := 0;
      ghost var s0 := Abs();
      actions, turns := [], 0;
      assert runs[..0] == [];
      while eventValue < value
        invariant turns == waited <= timeout && appDone <= |app|
        invariant ValueMissing(old(Abs().sh), runs, turns, value)
        invariant GpuOnly(actions) && Ran(s0, actions)
        invariant Abs().sh == Advance(old(Abs().sh), Sum(runs[..turns]))
        decreases timeout - waited
      {
        if waited >= timeout { return false, actions, turns; }
        SumNext(runs, waited);
        AdvanceThen(old(Abs().sh), Sum(runs[..waited]), runs[waited]);
        actions := AppQueueRunsSome(runs[waited], s0, actions);
        waited, turns := waited + 1, turns + 1;
      }
      reached := true;
    }

    /** The first-release check: done once a session, and a failure switches the fence off. */
    method CheckFirstRelease(t: ThreadId, value: nat, timeout: nat, runs: seq<nat>)
      returns (ghost actions: seq<Action>, ghost turns: nat)
      requires AtStage(Abs(), t, Claim) && PcOf(Abs(), t).fence.Value? && PcOf(Abs(), t).fence.value == value
      requires |runs| == timeout && appDone <= |app|
      modifies this`checked, this`eventActive, this`appDone, this`eventValue, this`cpu, this`threads
      ensures checked && Ran(old(Abs()), actions) && Solo(t, false, actions) && appDone <= |app|
      ensures PcOf(Abs(), t) == PcOf(old(Abs()), t).(stage := SecondGuard)
      ensures eventActive == (old(eventActive) && value <= eventValue)
      ensures turns <= timeout && (value <= eventValue || turns == timeout)
      ensures Polled(old(Abs().sh), Abs().sh, Sum(runs[..turns]))
    {
      ghost var s0 := Abs();
      checked := true;
      threads := threads[t := threads[t].(stage := Poll)];
      ghost var s1 := Abs();
      OneStep(Next(rules), s0, Unix(t, SetChecked), s1);
      var reached; ghost var polled, verdict;
      reached, polled, turns := FenceValueReached(value, timeout, runs);
      CheckedApart(s0.sh, Sum(runs[..turns]));
      ghost var s2 := Abs();
      RunsThen(Next(rules), s0, [Unix(t, SetChecked)], s1, polled, s2);
      actions := [Unix(t, SetChecked)] + polled;
      assert Solo(t, false, actions) && Polled(s0.sh, s2.sh, Sum(runs[..turns]));
      verdict := ConcludeCheck(t, reached);
      RunsThen(Next(rules), s0, actions, s2, verdict, Abs());
      actions := actions + verdict;
    }

    method ConcludeCheck(t: ThreadId, reached: bool) returns (ghost actions: seq<Action>)
      requires AtStage(Abs(), t, Poll) && PcOf(Abs(), t).fence.Value?
      requires reached <==> PcOf(Abs(), t).fence.value <= eventValue
      modifies this`eventActive, this`threads
      ensures Ran(old(Abs()), actions) && Solo(t, false, actions)
      ensures PcOf(Abs(), t) == PcOf(old(Abs()), t).(stage := SecondGuard)
      ensures eventActive == (old(eventActive) && reached)
    {
      ghost var s0, s := Abs(), Abs();
      actions, s := Extend(rules, s0, [], s0, Unix(t, if reached then PollReached else PollTimeout));
      if !reached {
        actions, s := Extend(rules, s0, actions, s, Unix(t, DisableEvent));
        eventActive := false;
        threads := threads[t := threads[t].(stage := Disable)];
      }
      threads := threads[t := threads[t].(stage := SecondGuard)];
      assert Abs() == s;
    }

    method CompareToEvent(t: ThreadId, value: nat) returns (reached: bool)
      requires Enabled(Abs(), Unix(t, CompareValue)) && PcOf(Abs(), t).fence.value == value
      modifies this`threads
      ensures Abs() == Apply(old(Abs()), Unix(t, CompareValue)) && reached == (value <= eventValue)
    {
      reached := value <= eventValue;
      ghost var pc := threads[t];
      threads := threads[t := if reached then HostCall(Release(pc.entry, pc.fence, Passed, Fenced(AlreadyReached)))
                              else pc.(stage := Commit)];
    }

    method CommitWaitFor(t: ThreadId, value: nat, ok: bool)
      requires Enabled(Abs(), Unix(t, CommitWait(ok))) && PcOf(Abs(), t).fence.value == value
      modifies this`runtime, this`threads
      ensures Abs() == Apply(old(Abs()), Unix(t, CommitWait(ok)))
    {
      ghost var pc := threads[t];
      threads := threads[t := HostCall(if ok then Release(pc.entry, pc.fence, Passed, Fenced(QueuedAt(|runtime|)))
                                       else Release(pc.entry, pc.fence, NoBuffer, Unsynced))];
      if ok { runtime := runtime + [Wait(value)]; }
    }

    /** encode_gpu_wait, called with the event; `buffer` says whether the command buffer is allocated. */
    method EncodeGpuWait(t: ThreadId, value: nat, buffer: bool) returns (ghost actions: seq<Action>)
      requires AtStage(Abs(), t, Compare) && PcOf(Abs(), t).fence.Value? && PcOf(Abs(), t).fence.value == value
      modifies this`runtime, this`threads
      ensures Ran(old(Abs()), actions) && Solo(t, false, actions)
      ensures PcOf(Abs(), t) == HostCall(Synced(old(PcOf(Abs(), t)), true, eventValue, |old(runtime)|, buffer))
      ensures runtime == Queued(old(runtime), value, true, eventValue, buffer)
    {
      ghost var s0, s := Abs(), Abs();
      var reached := CompareToEvent(t, value);
      s := Abs();
      OneStep(Next(rules), s0, Unix(t, CompareValue), s);
      actions := [Unix(t, CompareValue)];
      if !reached {
        CommitWaitFor(t, value, buffer);
        ThenStep(Next(rules), s0, actions, s, Unix(t, CommitWait(buffer)), Abs());
        actions := actions + [Unix(t, CommitWait(buffer))];
      }
    }

    /** The second guard: the value, and a first read of the event. */
    method ReadGuard(t: ThreadId, value: nat) returns (on: bool)
      requires Enabled(Abs(), Unix(t, ReadSecondGuard))
      requires var fence := PcOf(Abs(), t).fence; if fence.Value? then 0 < value == fence.value else value == 0
      modifies this`threads
      ensures Abs() == Apply(old(Abs()), Unix(t, ReadSecondGuard)) && on == (value != 0 && eventActive)
    {
      on := value != 0 && eventActive;
      threads := threads[t := if on then threads[t].(stage := Argument) else HostCall(Unguarded(threads[t]))];
    }

    /** The second read, for the argument of encode_gpu_wait. */
    method ReadEventArgument(t: ThreadId) returns (on: bool)
      requires Enabled(Abs(), Unix(t, ReadArgument))
      modifies this`threads
      ensures Abs() == Apply(old(Abs()), Unix(t, ReadArgument)) && on == eventActive
    {
      on := eventActive;
      ghost var pc := threads[t];
      threads := threads[t := if on then pc.(stage := Compare)
                              else HostCall(Release(pc.entry, pc.fence, EventLost, Unsynced))];
    }

    method WaitGuarded(t: ThreadId, value: nat, buffer: bool) returns (ghost actions: seq<Action>)
      requires AtStage(Abs(), t, Argument) && PcOf(Abs(), t).fence.Value? && PcOf(Abs(), t).fence.value == value
      requires eventActive
      modifies this`runtime, this`threads
      ensures Ran(old(Abs()), actions) && Solo(t, false, actions)
      ensures PcOf(Abs(), t) == HostCall(Synced(old(PcOf(Abs(), t)), true, eventValue, |old(runtime)|, buffer))
      ensures runtime == Queued(old(runtime), value, true, eventValue, buffer)
    {
      ghost var s0, more := Abs(), [];
      var on := ReadEventArgument(t);
      ghost var s := Abs();
      OneStep(Next(rules), s0, Unix(t, ReadArgument), s);
      more := EncodeGpuWait(t, value, buffer);
      RunsThen(Next(rules), s0, [Unix(t, ReadArgument)], s, more, Abs());
      actions := [Unix(t, ReadArgument)] + more;
    }

    method SecondGuardAndWait(t: ThreadId, value: nat, buffer: bool) returns (ghost actions: seq<Action>)
      requires AtStage(Abs(), t, SecondGuard)
      requires var fence := PcOf(Abs(), t).fence; if fence.Value? then 0 < value == fence.value else value == 0
      modifies this`runtime, this`threads
      ensures Ran(old(Abs()), actions) && Solo(t, false, actions)
      ensures PcOf(Abs(), t) == HostCall(Synced(old(PcOf(Abs(), t)), eventActive, eventValue, |old(runtime)|, buffer))
      ensures runtime == Queued(old(runtime), value, eventActive, eventValue, buffer)
    {
      ghost var s0, s := Abs(), Abs();
      var on := ReadGuard(t, value);
      actions, s := Extend(rules, s0, [], s0, Unix(t, ReadSecondGuard));
      if on {
        ghost var more;
        s := Abs();
        more := WaitGuarded(t, value, buffer);
        RunsThen(Next(rules), s0, actions, s, more, Abs());
        actions := actions + more;
      }
    }

    /** wine_xrReleaseSwapchainImage up to the host call, run by one thread without interference. A wait
        goes out exactly if the release carries a value, the event survived the check and has not
        reached the value yet, and there is a command buffer. */
    method UnixRelease(t: ThreadId, value: nat, timeout: nat, runs: seq<nat>, buffer: bool)
      returns (ghost actions: seq<Action>, ghost turns: nat)
      requires AtStage(Abs(), t, FirstGuard) && |runs| == timeout && appDone <= |app|
      requires var fence := PcOf(Abs(), t).fence; if fence.Value? then 0 < value == fence.value else value == 0
      modifies this`checked, this`eventActive, this`appDone, this`eventValue, this`cpu, this`runtime, this`threads
      ensures Ran(old(Abs()), actions) && Solo(t, false, actions) && app == old(app)
      ensures PcOf(Abs(), t) == HostCall(Synced(old(PcOf(Abs(), t)), eventActive, eventValue, |old(runtime)|, buffer))
      ensures eventActive == (old(eventActive) && (value == 0 || old(checked) || value <= eventValue))
      // the first check gives up only after all of its time
      ensures turns <= timeout && (old(eventActive) && !eventActive ==> turns == timeout)
      ensures Polled(old(Abs().sh), Abs().sh, Sum(runs[..turns]))
      ensures runtime == Queued(old(runtime), value, eventActive, eventValue, buffer)
    {
      ghost var s0, s := Abs(), Abs();
      actions, s := Extend(rules, s0, [], s0, Unix(t, ReadFirstGuard));
      ghost var more;
      turns := 0;
      assert runs[..0] == [];
      if value != 0 && eventActive && !checked {
        threads := threads[t := threads[t].(stage := Claim)];
        assert Abs() == s;
        more, turns := CheckFirstRelease(t, value, timeout, runs);
        RunsThen(Next(rules), s0, actions, s, more, Abs());
        actions := actions + more;
      } else {
        threads := threads[t := threads[t].(stage := SecondGuard)];
        assert Abs() == s;
      }
      s := Abs();
      more := SecondGuardAndWait(t, value, buffer);
      RunsThen(Next(rules), s0, actions, s, more, Abs());
      actions := actions + more;
    }

    method HostCallReturns(t: ThreadId)
      requires PcOf(Abs(), t).HostCall?
      modifies this`releases, this`threads
      ensures Abs() == Apply(old(Abs()), Pe(t, HostRelease))
    {
      releases := releases + [threads[t].release];
      threads := threads[t := Idle];
    }

    /** The unix call of a release, up to its return. */
    method UnixAndHost(t: ThreadId, value: nat, timeout: nat, runs: seq<nat>, buffer: bool)
      returns (ghost actions: seq<Action>)
      requires AtStage(Abs(), t, FirstGuard) && |runs| == timeout && Inv(Abs())
      requires var fence := PcOf(Abs(), t).fence; if fence.Value? then 0 < value == fence.value else value == 0
      modifies this`checked, this`eventActive, this`appDone, this`eventValue, this`cpu, this`runtime, this`threads,
               this`releases
      ensures Ran(old(Abs()), actions) && Solo(t, false, actions) && Inv(Abs()) && PcOf(Abs(), t).Idle?
      ensures releases == old(releases) + [Synced(old(PcOf(Abs(), t)), eventActive, eventValue, |old(runtime)|, buffer)]
      ensures runtime == Queued(old(runtime), value, eventActive, eventValue, buffer)
      ensures var fence := old(PcOf(Abs(), t)).fence;
              eventActive == (old(eventActive) &&
                              (old(checked) || !fence.Value? || fence.at < old(appDone) + Sum(runs)))
    {
      ghost var s0, s, turns := Abs(), Abs(), 0;
      actions, turns := UnixRelease(t, value, timeout, runs, buffer);
      if value != 0 && s0.sh.eventActive && !s0.sh.checked {
        assert PcOk(s0.sh, PcOf(s0, t));
        PollingFindsExactly(s0.sh, runs, turns, PcOf(s0, t).fence.at, value);
      }
      s := Abs();
      HostCallReturns(t);
      actions, s := Extend(rules, s0, actions, s, Pe(t, HostRelease));
      RunKeepsInv(rules, s0, actions, s);
    }

    /** xrReleaseSwapchainImage, both halves and the host call, by one thread while no other runs. The
        host sees one more release; how it is ordered follows from the path, the signal call, the CPU
        wait and whether the event survived. */
    method ReleaseImage(t: ThreadId, signalOk: bool, fenceOk: bool, cpuSignalOk: bool, registerOk: bool,
                        cpuRuns: seq<nat>, timeout: nat, runs: seq<nat>, buffer: bool)
      returns (waited: bool, ghost actions: seq<Action>)
      requires PcOf(Abs(), t).Idle? && MayBegin() && |runs| == timeout && Inv(Abs())
      modifies this
      ensures Ran(old(Abs()), actions) && Inv(Abs()) && PcOf(Abs(), t).Idle? && OnlyMoves(old(Abs()), t, Abs())
      ensures |releases| == |old(releases)| + 1 && releases[..|old(releases)|] == old(releases) && old(app) <= app
      ensures Solo(t, releases[|old(releases)|].fence.WaitSkipped?, actions)
      ensures var r, sent := releases[|old(releases)|], Sends(path, old(eventActive), signalOk);
              && r.entry == |old(app)| && r.fence == FenceOf(path, sent, waited, old(counter), |old(app)|)
              && (r.sync.Fenced? <==> sent && eventActive && (buffer || r.fence.value <= eventValue))
              && (r.sync.CpuWaited? <==> waited)
              && runtime == Queued(old(runtime), if sent then old(counter) + 1 else 0, eventActive, eventValue, buffer)
              && (OnDevice(path) && !sent ==>
                    WaitResult(path, waited, old(cpu.created) || fenceOk, cpuSignalOk, registerOk,
                               old(appDone) + Sum(cpuRuns), |old(app)|))
      // the event survives the session's first check exactly if the release's own signal runs in its time
      ensures eventActive == (old(eventActive) && (old(checked) || !Sends(path, old(eventActive), signalOk)
                                                   || |old(app)| < old(appDone) + Sum(runs)))
    {
      ghost var s0 := Abs();
      var value;
      value, waited, actions := PeRelease(t, signalOk, fenceOk, cpuSignalOk, registerOk, cpuRuns);
      ghost var s1, more := Abs(), [];
      RunKeepsInv(rules, s0, actions, s1);
      more := UnixAndHost(t, value, timeout, runs, buffer);
      RunsThen(Next(rules), s0, actions, s1, more, Abs());
      actions := actions + more;
      OthersStay(rules, s0, actions, Abs(), t, true);
    }

    // ---- One call after another ------------------------------------------------------------------

    /** The application renders. */
    method SubmitRenders(n: nat) returns (ghost actions: seq<Action>)
      modifies this`app
      ensures Ran(old(Abs()), actions) && NoTimeOut(actions)
      ensures app == old(app) + seq(n, _ => AppOp.Render)
    {
      ghost var s0, s := Abs(), Abs();
      actions := [];
      for i := 0 to n
        invariant Ran(s0, actions) && NoTimeOut(actions) && app == old(app) + seq(i, _ => AppOp.Render)
      {
        actions, s := Extend(rules, s0, actions, Abs(), Queue(SubmitRender));
        app := app + [AppOp.Render];
      }
    }

    method Render(renders: nat, executed: nat) returns (ghost actions: seq<Action>)
      requires AllIdle(Abs()) && Inv(Abs())
      modifies this`app, this`appDone, this`eventValue, this`cpu
      ensures Ran(old(Abs()), actions) && NoTimeOut(actions) && AllIdle(Abs()) && Inv(Abs())
      ensures app == old(app) + seq(renders, _ => AppOp.Render)
      ensures appDone == if old(appDone) + executed <= |app| then old(appDone) + executed else |app|
    {
      ghost var s0, s, more := Abs(), Abs(), [];
      actions := SubmitRenders(renders);
      s := Abs();
      more := AppQueueRunsSome(executed, s, []);
      assert Solo(0, false, []);
      RunsThen(Next(rules), s0, actions, s, more, Abs());
      actions := actions + more;
      RunKeepsInv(rules, s0, actions, Abs());
      forall t ensures PcOf(Abs(), t).Idle? { assert PcOf(s0, t).Idle?; }
    }

    /** Rendering, some of it executed, and a release. */
    method RenderAndRelease(c: Call) returns (ghost actions: seq<Action>)
      requires AllIdle(Abs()) && |c.runs| == c.timeout && Inv(Abs())
      modifies this
      ensures Ran(old(Abs()), actions) && Inv(Abs()) && AllIdle(Abs())
      ensures |releases| == |old(releases)| + 1 && releases[..|old(releases)|] == old(releases)
      ensures !releases[|old(releases)|].fence.WaitSkipped? ==> NoTimeOut(actions)
      ensures releases[|old(releases)|].entry == |old(app)| + c.renders <= |app|
    {
      ghost var s0, s, more := Abs(), Abs(), [];
      actions := Render(c.renders, c.executed);
      s := Abs();
      var waited;
      waited, more := ReleaseImage(c.t, c.signalOk, c.fenceOk, c.cpuSignalOk, c.registerOk, c.cpuRuns,
                                   c.timeout, c.runs, c.buffer);
      RunsThen(Next(rules), s0, actions, s, more, Abs());
      actions := actions + more;
      forall t ensures PcOf(Abs(), t).Idle? { assert PcOf(s, t).Idle?; }
    }

    /** Calls by any threads, one after another, from a new session on: a run without overlap, so no release
        loses its event and each follows what was rendered for it; and if no CPU wait failed, every later
        read of an ordered release's image, amid whatever else happens then, follows its rendering. */
    method ReleaseImages(calls: seq<Call>) returns (ghost actions: seq<Action>)
      requires Init(Abs()) && !rules.overlap
      requires forall i :: 0 <= i < |calls| ==> |calls[i].runs| == calls[i].timeout
      modifies this
      ensures Ran(old(Abs()), actions) && AllIdle(Abs()) && |releases| == |calls|
      ensures forall k :: 0 <= k < |releases| ==> !LosesEvent(releases[k])
      ensures EachFollowsItsRenders(releases, calls)
      ensures (forall k :: 0 <= k < |releases| ==> !releases[k].fence.WaitSkipped?) ==>
                NoTimeOut(actions) && ReadInOrder(Abs())
    {
      ghost var s0, s, more := Abs(), Abs(), [];
      actions := [];
      assert AllIdle(s0);
      for i := 0 to |calls|
        invariant Ran(s0, actions) && Inv(Abs()) && AllIdle(Abs()) && |releases| == i
        invariant Renders(calls[..i]) <= |app| && EachFollowsItsRenders(releases, calls)
        invariant (forall k :: 0 <= k < |releases| ==> !releases[k].fence.WaitSkipped?) ==> NoTimeOut(actions)
      {
        s := Abs();
        more := RenderAndRelease(calls[i]);
        assert calls[..i + 1][..i] == calls[..i];
        FollowsItsRenders(releases, calls);
        RunsThen(Next(rules), s0, actions, s, more, Abs());
        actions := actions + more;
      }
      forall k | 0 <= k < |releases| ensures !LosesEvent(releases[k]) { NoEventLost(SERIAL, s0, actions, Abs(), k); }
      if NoTimeOut(actions) { CalmRunReadsInOrder(s0, actions, Abs()); }
    }
  }
}
