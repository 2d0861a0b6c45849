/** What the release path promises only while releases of one session do not overlap, and runs that
    show why. */
module ReleaseOverlap {
  import opened Prelude
  import opened Machine
  import opened ReleaseFence

  // ---- One release at a time ---------------------------------------------------------------------

  ghost predicate OthersIdle(s: State, t: ThreadId) {
    forall u :: u != t ==> PcOf(s, u).Idle?
  }

  /** Value of the last CPU signal among the first n operations; 0 without one. */
  function LastCpu(app: seq<AppOp>, n: nat): nat
    requires n <= |app|
  {
    if n == 0 then 0 else if app[n - 1].CpuSignal? then app[n - 1].value else LastCpu(app, n - 1)
  }

  lemma {:induction false} LastCpuPrefix(a: seq<AppOp>, b: seq<AppOp>, n: nat)
    requires n <= |a| && a <= b
    ensures LastCpu(a, n) == LastCpu(b, n)
  {
    if n != 0 && !a[n - 1].CpuSignal? { LastCpuPrefix(a, b, n - 1); }
  }

  /** CPU signals carry positive, increasing values up to the counter. */
  predicate CpuIncreasing(app: seq<AppOp>, counter: nat) {
    && (forall i :: 0 <= i < |app| && app[i].CpuSignal? ==> 0 < app[i].value <= counter)
    && (forall i, j :: 0 <= i < j < |app| && app[i].CpuSignal? && app[j].CpuSignal? ==> app[i].value < app[j].value)
  }

  lemma {:induction false} LastCpuBelow(app: seq<AppOp>, counter: nat, n: nat, at: nat)
    requires CpuIncreasing(app, counter) && n <= at < |app| && app[at].CpuSignal?
    ensures LastCpu(app, n) < app[at].value
  {
    if n != 0 && !app[n - 1].CpuSignal? { LastCpuBelow(app, counter, n - 1, at); }
  }

  predicate Quiet(cpu: CpuSync) {
    cpu.pending == {} && !cpu.signalled
  }

  predicate Sent(sh: Shared, entry: nat, v: nat, at: nat) {
    entry <= at < |sh.app| && sh.app[at] == CpuSignal(v)
  }

  /** A CPU wait that returned covered everything before the release. */
  predicate Waited(sh: Shared, entry: nat, fence: Fence) {
    fence.WaitReturned? ==> entry <= sh.appDone
  }

  /** The shared part, as long as waits do not time out. */
  predicate CalmOk(sh: Shared) {
    && sh.appDone <= |sh.app| && CpuIncreasing(sh.app, sh.cpu.counter)
    && sh.cpu.completed == LastCpu(sh.app, sh.appDone)
    && (forall k :: 0 <= k < |sh.releases| ==> Waited(sh, sh.releases[k].entry, sh.releases[k].fence))
  }

  /** What is known of the one thread that may be inside a release. */
  predicate BusyOk(sh: Shared, pc: Pc) {
    match pc
    case InCpu(step, entry, v, at) =>
      && entry <= |sh.app|
      && (match step
          case Store => v == sh.cpu.counter + 1
          case Send =>
            && v == sh.cpu.counter > 0
            && forall i :: 0 <= i < |sh.app| && sh.app[i].CpuSignal? ==> sh.app[i].value < v
          case Check => Sent(sh, entry, v, at)
          case Register => Sent(sh, entry, v, at)
          case Blocked => Sent(sh, entry, v, at)
          case _ => true)
      && if step.Blocked? then
           && sh.cpu.pending <= {v} && (sh.cpu.signalled ==> v <= sh.cpu.completed)
           && (forall p :: p in sh.cpu.pending ==> sh.cpu.completed < p)
         else Quiet(sh.cpu)
    case Entered(entry) => entry <= |sh.app| && Quiet(sh.cpu)
    case Signalling(entry) => entry <= |sh.app| && Quiet(sh.cpu)
    case InUnix(stage, entry, fence) =>
      && Quiet(sh.cpu) && Waited(sh, entry, fence)
      && (stage.Argument? || stage.Compare? || stage.Commit? ==> sh.eventActive)
    case HostCall(r) => Quiet(sh.cpu) && Waited(sh, r.entry, r.fence)
    case Idle => Quiet(sh.cpu)
  }

  ghost predicate SerialInv(s: State) {
    && (exists t :: OthersIdle(s, t))
    && CalmOk(s.sh)
    && (forall t :: OthersIdle(s, t) ==> BusyOk(s.sh, PcOf(s, t)))
  }

  ghost predicate Calm(to: (Shared, Pc)) {
    CalmOk(to.0) && BusyOk(to.0, to.1)
  }

  /** A completed value means its signal has run. */
  lemma CompletedMeansRun(sh: Shared, entry: nat, v: nat, at: nat)
    requires CalmOk(sh) && Sent(sh, entry, v, at) && v <= sh.cpu.completed
    ensures entry <= sh.appDone
  {
    if sh.appDone <= at { LastCpuBelow(sh.app, sh.cpu.counter, sh.appDone, at); }
  }

  lemma AppendKeepsCalm(sh: Shared, op: AppOp)
    requires CalmOk(sh)
    requires op.CpuSignal? ==> 0 < op.value <= sh.cpu.counter
    requires op.CpuSignal? ==> forall i :: 0 <= i < |sh.app| && sh.app[i].CpuSignal? ==> sh.app[i].value < op.value
    ensures CalmOk(sh.(app := sh.app + [op]))
  {
    LastCpuPrefix(sh.app, sh.app + [op], sh.appDone);
  }

  lemma PeCalm(sh: Shared, pc: Pc, act: PeAct)
    requires CalmOk(sh) && BusyOk(sh, pc) && PeEnabled(pc, act)
    ensures Calm(PeStep(sh, pc, act))
  {
    if act.LockedSignal? && act.ok { AppendKeepsCalm(sh, Signal(sh.counter + 1)); }
  }

  lemma CpuSendCalm(sh: Shared, pc: Pc, ok: bool)
    requires CalmOk(sh) && BusyOk(sh, pc) && CpuEnabled(sh, pc, SignalFence(ok))
    ensures Calm(CpuStep(sh, pc, SignalFence(ok)))
  {
    if ok { AppendKeepsCalm(sh, CpuSignal(pc.value)); }
  }

  lemma CpuCalm(sh: Shared, pc: Pc, act: CpuAct)
    requires CalmOk(sh) && BusyOk(sh, pc) && CpuEnabled(sh, pc, act) && !act.TimeOut?
    requires pc.step == PollQuery ==> pc.entry <= sh.cpu.queryAt
    ensures Calm(CpuStep(sh, pc, act))
  {
    if act.SignalFence? {
      CpuSendCalm(sh, pc, act.ok);
    } else if (act.CheckCompleted? && pc.value <= sh.cpu.completed) || act.Wake? {
      CompletedMeansRun(sh, pc.entry, pc.value, pc.at);
    }
  }

  lemma UnixCalm(sh: Shared, pc: Pc, act: UnixAct)
    requires CalmOk(sh) && BusyOk(sh, pc) && UnixEnabled(sh, pc, act)
    ensures Calm(UnixStep(sh, pc, act))
  {
  }

  lemma GpuCalm(sh: Shared, pc: Pc)
    requires CalmOk(sh) && BusyOk(sh, pc) && sh.appDone < |sh.app|
    ensures Calm((AfterGpu(sh), pc))
  {
    if sh.app[sh.appDone].CpuSignal? { LastCpuBelow(sh.app, sh.cpu.counter, sh.appDone, sh.appDone); }
  }

  lemma QueueCalm(sh: Shared, pc: Pc, act: QueueAct)
    requires CalmOk(sh) && BusyOk(sh, pc) && QueueEnabled(sh, act)
    ensures Calm((QueueStep(sh, act), pc))
  {
    match act
    case SubmitRender => AppendKeepsCalm(sh, Render);
    case AppGpuStep => GpuCalm(sh, pc);
    case _ =>
  }

  lemma MovedStaysSerial(s: State, t: ThreadId, to: (Shared, Pc))
    requires OthersIdle(s, t) && Calm(to)
    ensures SerialInv(Moved(s, t, to))
  {
    var s' := Moved(s, t, to);
    assert OthersIdle(s', t) by { forall u | u != t ensures PcOf(s', u).Idle? { assert PcOf(s, u).Idle?; } }
    forall u | OthersIdle(s', u) ensures BusyOk(s'.sh, PcOf(s', u)) {
      if u != t { assert PcOf(s', t).Idle? && PcOf(s', u) == PcOf(s, u); }
    }
  }

  /** The acting thread is the only one in a release. */
  lemma ActorIsAlone(rules: Rules, s: State, a: Action, t: ThreadId)
    requires !rules.overlap && Allowed(rules, s, a) && (exists u :: OthersIdle(s, u))
    requires (a.Pe? && a.t == t) || (a.Cpu? && a.t == t) || (a.Unix? && a.t == t)
    ensures OthersIdle(s, t)
  {
    var u :| OthersIdle(s, u);
    if u != t {
      assert PcOf(s, t).Idle?;
      assert AllIdle(s);
    }
  }

  lemma SerialStep(rules: Rules, s: State, a: Action)
    requires !rules.overlap && !rules.timeouts && Inv(s) && SerialInv(s) && Allowed(rules, s, a)
    ensures SerialInv(Apply(s, a))
  {
    match a
    case Pe(t, act) =>
      ActorIsAlone(rules, s, a, t);
      PeCalm(s.sh, PcOf(s, t), act);
      MovedStaysSerial(s, t, PeStep(s.sh, PcOf(s, t), act));
    case Cpu(t, act) =>
      ActorIsAlone(rules, s, a, t);
      assert PcOk(s.sh, PcOf(s, t));
      CpuCalm(s.sh, PcOf(s, t), act);
      MovedStaysSerial(s, t, CpuStep(s.sh, PcOf(s, t), act));
    case Unix(t, act) =>
      ActorIsAlone(rules, s, a, t);
      UnixCalm(s.sh, PcOf(s, t), act);
      MovedStaysSerial(s, t, UnixStep(s.sh, PcOf(s, t), act));
    case Queue(act) =>
      var u :| OthersIdle(s, u);
      QueueCalm(s.sh, PcOf(s, u), act);
      var s' := s.(sh := QueueStep(s.sh, act));
      assert OthersIdle(s', u) by { forall v | v != u ensures PcOf(s', v).Idle? { assert PcOf(s, v).Idle?; } }
      forall t | OthersIdle(s', t) ensures BusyOk(s'.sh, PcOf(s', t)) {
        assert OthersIdle(s, t) by { forall v | v != t ensures PcOf(s, v).Idle? { assert PcOf(s', v).Idle?; } }
        QueueCalm(s.sh, PcOf(s, t), act);
      }
  }

  lemma {:induction false} SerialRun(rules: Rules, s1: State, actions: seq<Action>, s2: State)
    requires !rules.overlap && !rules.timeouts && Inv(s1) && SerialInv(s1) && Runs(Next(rules), s1, actions, s2)
    ensures Inv(s2) && SerialInv(s2)
    decreases |actions|
  {
    if actions != [] {
      SerialStep(rules, s1, actions[0]);
      StepKeepsInv(s1, actions[0]);
      SerialRun(rules, Apply(s1, actions[0]), actions[1..], s2);
    }
  }

  lemma InitIsSerial(s: State)
    requires Init(s)
    ensures Inv(s) && SerialInv(s)
  {
    assert OthersIdle(s, 0);
  }

  /** Read after render for every kind of ordering, as long as releases of one session do not overlap
      and no CPU wait times out. */
  lemma SerialReadAfterRender(s0: State, actions: seq<Action>, s: State, j: nat, k: nat)
    requires Init(s0) && Runs(Next(Rules(false, false)), s0, actions, s)
    requires j < s.sh.runtimeDone && ReadsRelease(s.sh, j, k) && !s.sh.releases[k].sync.Unsynced?
    ensures RenderedBefore(s.sh, s.sh.releases[k])
  {
    InitIsSerial(s0);
    SerialRun(Rules(false, false), s0, actions, s);
    var r := s.sh.releases[k];
    assert ReleaseOk(s.sh, r) && Waited(s.sh, r.entry, r.fence);
    if r.sync.Fenced? { OrderedReleaseRendered(s.sh, j, k); }
  }

  // ---- Up to the first timeout --------------------------------------------------------------------

  predicate NoTimeOut(actions: seq<Action>) {
    forall i :: 0 <= i < |actions| ==> !(actions[i].Cpu? && actions[i].cpu.TimeOut?)
  }

  lemma {:induction false} WithoutTimeOut(rules: Rules, s1: State, actions: seq<Action>, s2: State)
    requires Runs(Next(rules), s1, actions, s2) && NoTimeOut(actions)
    ensures Runs(Next(rules.(timeouts := false)), s1, actions, s2)
    decreases |actions|
  {
    if actions != [] { WithoutTimeOut(rules, Apply(s1, actions[0]), actions[1..], s2); }
  }

  lemma {:induction false} ReleasesStay(rules: Rules, s1: State, actions: seq<Action>, s2: State)
    requires Runs(Next(rules), s1, actions, s2)
    ensures s1.sh.releases <= s2.sh.releases
    decreases |actions|
  {
    if actions != [] {
      var s := Apply(s1, actions[0]);
      assert s1.sh.releases <= s.sh.releases;
      ReleasesStay(rules, s, actions[1..], s2);
    }
  }

  /** A law of each run whose releases do not overlap: an ordered release that reached the host before
      the first timeout, its CPU wait included, is read after its rendering, whatever happens later. */
  lemma OrderedBeforeFirstTimeOut(rules: Rules, s0: State, before: seq<Action>, s1: State, later: Rules,
                                  after: seq<Action>, s: State, j: nat, k: nat)
    requires !rules.overlap && Init(s0) && Runs(Next(rules), s0, before, s1) && NoTimeOut(before)
    requires Runs(Next(later), s1, after, s) && k < |s1.sh.releases|
    requires j < s.sh.runtimeDone && ReadsRelease(s.sh, j, k) && !s1.sh.releases[k].sync.Unsynced?
    ensures s.sh.releases[k] == s1.sh.releases[k] && RenderedBefore(s.sh, s.sh.releases[k])
  {
    InitIsSerial(s0);
    WithoutTimeOut(rules, s0, before, s1);
    SerialRun(Rules(false, false), s0, before, s1);
    ReleasesStay(later, s1, after, s);
    RunKeepsInv(later, s1, after, s);
    var r := s1.sh.releases[k];
    assert ReleaseOk(s1.sh, r) && Waited(s1.sh, r.entry, r.fence);
    if r.sync.Fenced? { OrderedReleaseRendered(s.sh, j, k); }
  }

  // ---- Pieces of runs ----------------------------------------------------------------------------

  ghost predicate OnlyMoves(s: State, t: ThreadId, s': State) {
    forall u :: u != t ==> PcOf(s', u) == PcOf(s, u)
  }

  /** A release without a value, from the first guard to the host call. */
  lemma UpToHost(rules: Rules, s0: State, before: seq<Action>, s: State, t: ThreadId)
    returns (actions: seq<Action>, s': State)
    requires Runs(Next(rules), s0, before, s) && AtStage(s, t, FirstGuard) && !PcOf(s, t).fence.Value?
    ensures Runs(Next(rules), s0, actions, s') && OnlyMoves(s, t, s')
    ensures s'.sh == s.sh && PcOf(s', t) == HostCall(Unguarded(PcOf(s, t)))
  {
    actions, s' := Extend(rules, s0, before, s, Unix(t, ReadFirstGuard));
    actions, s' := Extend(rules, s0, actions, s', Unix(t, ReadSecondGuard));
  }

  /** The image of this release has been read before what was rendered before the release. */
  ghost predicate ReadEarly(s: State, r: Release) {
    exists j: nat, k: nat :: j < s.sh.runtimeDone && ReadsRelease(s.sh, j, k) && s.sh.releases[k] == r
                          && !RenderedBefore(s.sh, r)
  }

  /** The release in hand goes to the host and its image is read at once. */
  lemma HostAndRead(rules: Rules, s0: State, before: seq<Action>, s: State, t: ThreadId)
    returns (actions: seq<Action>, s': State)
    requires Runs(Next(rules), s0, before, s) && PcOf(s, t).HostCall? && s.sh.runtimeDone == |s.sh.runtime|
    requires s.sh.appDone < PcOf(s, t).release.entry
    ensures Runs(Next(rules), s0, actions, s') && ReadEarly(s', PcOf(s, t).release)
    ensures s'.sh.releases == s.sh.releases + [PcOf(s, t).release]
  {
    actions, s' := Extend(rules, s0, before, s, Pe(t, HostRelease));
    actions, s' := Extend(rules, s0, actions, s', Queue(SubmitRead(|s.sh.releases|)));
    actions, s' := Extend(rules, s0, actions, s', Queue(RuntimeGpuStep));
    assert ReadsRelease(s'.sh, |s.sh.runtime|, |s.sh.releases|);
  }

  // ---- CPU waits that return too early -------------------------------------------------------------

  predicate MayBlock(s: State, t: ThreadId) {
    s.sh.path == D3D12 && !s.sh.eventActive && PcOf(s, t).Idle? && s.sh.cpu.completed <= s.sh.cpu.counter
  }

  /** The fallback up to its counter. */
  lemma ReachCounter(rules: Rules, s: State, t: ThreadId) returns (actions: seq<Action>, s': State)
    requires MayBlock(s, t) && (!rules.overlap ==> AllIdle(s))
    ensures Runs(Next(rules), s, actions, s') && OnlyMoves(s, t, s')
    ensures s'.sh == s.sh.(cpu := s.sh.cpu.(created := true))
    ensures PcOf(s', t) == InCpu(Count, |s.sh.app|, 0, 0)
  {
    actions, s' := [], s;
    actions, s' := Extend(rules, s, actions, s', Pe(t, Begin));
    actions, s' := Extend(rules, s, actions, s', Pe(t, ChooseSync));
    actions, s' := Extend(rules, s, actions, s', Cpu(t, MakeFence(true)));
  }

  lemma CountUp(rules: Rules, s: State, t: ThreadId) returns (actions: seq<Action>, s': State)
    requires PcOf(s, t).InCpu? && PcOf(s, t).step == Count
    ensures Runs(Next(rules), s, actions, s') && OnlyMoves(s, t, s')
    ensures s'.sh == s.sh.(cpu := s.sh.cpu.(counter := s.sh.cpu.counter + 1))
    ensures PcOf(s', t) == PcOf(s, t).(step := Send, value := s.sh.cpu.counter + 1)
  {
    actions, s' := [], s;
    actions, s' := Extend(rules, s, actions, s', Cpu(t, ReadCounter));
    actions, s' := Extend(rules, s, actions, s', Cpu(t, WriteCounter));
  }

  /** ... and from there until the thread blocks. */
  lemma SendAndBlock(rules: Rules, s: State, t: ThreadId) returns (actions: seq<Action>, s': State)
    requires PcOf(s, t).InCpu? && PcOf(s, t).step == Send && s.sh.cpu.completed < PcOf(s, t).value
    ensures Runs(Next(rules), s, actions, s') && OnlyMoves(s, t, s')
    ensures var pc := PcOf(s, t);
            && s'.sh == s.sh.(app := s.sh.app + [CpuSignal(pc.value)],
                              cpu := s.sh.cpu.(pending := s.sh.cpu.pending + {pc.value}))
            && PcOf(s', t) == InCpu(Blocked, pc.entry, pc.value, |s.sh.app|)
  {
    actions, s' := [], s;
    actions, s' := Extend(rules, s, actions, s', Cpu(t, SignalFence(true)));
    actions, s' := Extend(rules, s, actions, s', Cpu(t, CheckCompleted));
    actions, s' := Extend(rules, s, actions, s', Cpu(t, SetEvent(true)));
  }

  lemma ReachSend(rules: Rules, s0: State, before: seq<Action>, s: State, t: ThreadId)
    returns (actions: seq<Action>, s': State)
    requires Runs(Next(rules), s0, before, s) && MayBlock(s, t) && (!rules.overlap ==> AllIdle(s))
    ensures Runs(Next(rules), s0, actions, s') && OnlyMoves(s, t, s')
    ensures s'.sh == s.sh.(cpu := s.sh.cpu.(created := true, counter := s.sh.cpu.counter + 1))
    ensures PcOf(s', t) == InCpu(Send, |s.sh.app|, s.sh.cpu.counter + 1, 0)
  {
    var reach, s1 := ReachCounter(rules, s, t);
    RunsThen(Next(rules), s0, before, s, reach, s1);
    var count;
    count, s' := CountUp(rules, s1, t);
    RunsThen(Next(rules), s0, before + reach, s1, count, s');
    actions := before + reach + count;
  }

  lemma BlockOnCpu(rules: Rules, s0: State, before: seq<Action>, s: State, t: ThreadId)
    returns (actions: seq<Action>, s': State)
    requires Runs(Next(rules), s0, before, s) && MayBlock(s, t) && (!rules.overlap ==> AllIdle(s))
    ensures Runs(Next(rules), s0, actions, s') && OnlyMoves(s, t, s')
    ensures var v := s.sh.cpu.counter + 1;
            && s'.sh == s.sh.(app := s.sh.app + [CpuSignal(v)],
                              cpu := s.sh.cpu.(created := true, counter := v, pending := s.sh.cpu.pending + {v}))
            && PcOf(s', t) == InCpu(Blocked, |s.sh.app|, v, |s.sh.app|)
  {
    var count, s1 := ReachSend(rules, s0, before, s, t);
    var send;
    send, s' := SendAndBlock(rules, s1, t);
    RunsThen(Next(rules), s0, count, s1, send, s');
    actions := count + send;
  }

  /** A thread released to the host as CPU-waited, whose image has been read too early. */
  ghost predicate EarlyCpuRead(s: State) {
    exists r: Release :: r.sync.CpuWaited? && ReadEarly(s, r)
  }

  /** Two threads blocked, with rendering between their signals. */
  lemma TwoBlocked(rules: Rules, s0: State) returns (actions: seq<Action>, s: State)
    requires Init(s0) && s0.sh.path == D3D12 && !s0.sh.eventActive && rules.overlap
    ensures Runs(Next(rules), s0, actions, s) && PcOf(s, 2) == InCpu(Blocked, 2, 2, 2)
    ensures s.sh == s0.sh.(app := [CpuSignal(1), Render, CpuSignal(2)], cpu := CpuSync(true, 2, 0, false, {1, 2}, 0))
  {
    var s1, s2;
    actions, s1 := BlockOnCpu(rules, s0, [], s0, 1);
    assert s1.sh == s0.sh.(app := [CpuSignal(1)], cpu := CpuSync(true, 1, 0, false, {1}, 0));
    actions, s2 := Extend(rules, s0, actions, s1, Queue(SubmitRender));
    assert PcOf(s2, 2) == PcOf(s1, 2) == PcOf(s0, 2);
    actions, s := BlockOnCpu(rules, s0, actions, s2, 2);
    assert s.sh.cpu.pending == {1, 2};
  }

  /** The first CPU signal runs, and wakes a thread that waits for a later one. */
  lemma FirstSignalWakes(rules: Rules, s0: State, before: seq<Action>, s: State, t: ThreadId)
    returns (actions: seq<Action>, s': State)
    requires Runs(Next(rules), s0, before, s) && PcOf(s, t).InCpu? && PcOf(s, t).step == Blocked
    requires s.sh.appDone == 0 < |s.sh.app| && s.sh.app[0] == CpuSignal(1)
    requires 1 in s.sh.cpu.pending || s.sh.cpu.signalled
    ensures Runs(Next(rules), s0, actions, s')
    ensures PcOf(s', t) == InUnix(FirstGuard, PcOf(s, t).entry, WaitReturned)
    ensures s'.sh.appDone == 1 && s'.sh.releases == s.sh.releases
    ensures s'.sh.runtime == s.sh.runtime && s'.sh.runtimeDone == s.sh.runtimeDone
  {
    var s1;
    actions, s1 := Extend(rules, s0, before, s, Queue(AppGpuStep));
    assert PcOf(s1, t) == PcOf(s, t);
    assert s1.sh.cpu == Completed(s.sh.cpu, 1);
    actions, s' := Extend(rules, s0, actions, s1, Cpu(t, Wake));
  }

  /** The auto-reset event is shared: the signal for the first thread's wait wakes the second one,
      whose own work has not run. */
  lemma OverlapWakesTheWrongThread(s0: State)
    requires Init(s0) && s0.sh.path == D3D12 && !s0.sh.eventActive
    ensures exists actions, s :: Runs(Next(Rules(true, false)), s0, actions, s) && EarlyCpuRead(s)
  {
    var rules := Rules(true, false);
    var actions, s1 := TwoBlocked(rules, s0);
    var s2, s3, s;
    actions, s2 := FirstSignalWakes(rules, s0, actions, s1, 2);
    actions, s3 := UpToHost(rules, s0, actions, s2, 2);
    actions, s := HostAndRead(rules, s0, actions, s3, 2);
  }

  /** A wait that times out, and its release. */
  lemma TimedOut(rules: Rules, s0: State) returns (actions: seq<Action>, s: State)
    requires Init(s0) && s0.sh.path == D3D12 && !s0.sh.eventActive && rules.timeouts
    ensures Runs(Next(rules), s0, actions, s) && AllIdle(s) && |s.sh.releases| == 1
    ensures s.sh == s0.sh.(app := [CpuSignal(1)], cpu := CpuSync(true, 1, 0, false, {1}, 0), releases := s.sh.releases)
  {
    var s1, s2, s3;
    assert AllIdle(s0);
    actions, s1 := BlockOnCpu(rules, s0, [], s0, 1);
    assert s1.sh == s0.sh.(app := [CpuSignal(1)], cpu := CpuSync(true, 1, 0, false, {1}, 0));
    actions, s2 := Extend(rules, s0, actions, s1, Cpu(1, TimeOut));
    assert OnlyMoves(s1, 1, s2);
    actions, s3 := UpToHost(rules, s0, actions, s2, 1);
    actions, s := Extend(rules, s0, actions, s3, Pe(1, HostRelease));
    forall t ensures PcOf(s, t).Idle? {
      if t != 1 { assert PcOf(s, t) == PcOf(s3, t) == PcOf(s2, t) == PcOf(s1, t) == PcOf(s0, t); }
    }
  }

  /** The late signal is kept by the event, and the next thread blocks behind new rendering. */
  lemma BlockedAgain(rules: Rules, s0: State, before: seq<Action>, s: State) returns (actions: seq<Action>, s': State)
    requires Runs(Next(rules), s0, before, s) && AllIdle(s) && s.sh.path == D3D12 && !s.sh.eventActive
    requires s.sh.app == [CpuSignal(1)] && s.sh.appDone == 0 && s.sh.cpu == CpuSync(true, 1, 0, false, {1}, 0)
    ensures Runs(Next(rules), s0, actions, s') && PcOf(s', 1) == InCpu(Blocked, 2, 2, 2)
    ensures s'.sh.cpu.signalled && s'.sh.appDone == 1
    ensures s'.sh.runtime == s.sh.runtime && s'.sh.runtimeDone == s.sh.runtimeDone
  {
    var s1, s2;
    actions, s1 := Extend(rules, s0, before, s, Queue(AppGpuStep));
    assert s1.sh.cpu == Completed(s.sh.cpu, 1) && 1 in s.sh.cpu.pending;
    actions, s2 := Extend(rules, s0, actions, s1, Queue(SubmitRender));
    forall t ensures PcOf(s2, t).Idle? { assert PcOf(s, t).Idle?; }
    actions, s' := BlockOnCpu(rules, s0, actions, s2, 1);
  }

  /** A wait that timed out stays registered: its signal, when it comes, is kept by the event and wakes
      the next wait at once. */
  lemma TimeoutWakesTheNextWait(s0: State)
    requires Init(s0) && s0.sh.path == D3D12 && !s0.sh.eventActive
    ensures exists actions, s :: Runs(Next(Rules(false, true)), s0, actions, s) && EarlyCpuRead(s)
  {
    var rules := Rules(false, true);
    var actions, s1 := TimedOut(rules, s0);
    var s2, s3, s4, s;
    actions, s2 := BlockedAgain(rules, s0, actions, s1);
    actions, s3 := Extend(rules, s0, actions, s2, Cpu(1, Wake));
    actions, s4 := UpToHost(rules, s0, actions, s3, 1);
    actions, s := HostAndRead(rules, s0, actions, s4, 1);
  }

  /** Every CPU-waited image is read in order, in every D3D12 run the rules admit. */
  ghost predicate CpuWaitsOrder(rules: Rules) {
    forall s0, actions, s :: Init(s0) && s0.sh.path == D3D12 && Runs(Next(rules), s0, actions, s) ==> !EarlyCpuRead(s)
  }

  /** The CPU fallback of D3D12 orders its releases if and only if releases of one session do not
      overlap and no wait times out. */
  lemma CpuWaitsOrderExactly(rules: Rules)
    ensures CpuWaitsOrder(rules) <==> !rules.overlap && !rules.timeouts
  {
    if !rules.overlap && !rules.timeouts {
      forall s0, actions, s | Init(s0) && s0.sh.path == D3D12 && Runs(Next(rules), s0, actions, s)
        ensures !EarlyCpuRead(s)
      {
        if EarlyCpuRead(s) {
          var r: Release :| r.sync.CpuWaited? && ReadEarly(s, r);
          var j: nat, k: nat :| j < s.sh.runtimeDone && ReadsRelease(s.sh, j, k) && s.sh.releases[k] == r
                                && !RenderedBefore(s.sh, r);
          SerialReadAfterRender(s0, actions, s, j, k);
        }
      }
    } else {
      var s0 := State(Shared(D3D12, [], 0, [], 0, 0, 0, false, false, NO_CPU, []), map[]);
      var small := if rules.overlap then Rules(true, false) else Rules(false, true);
      if rules.overlap { OverlapWakesTheWrongThread(s0); } else { TimeoutWakesTheNextWait(s0); }
      var actions, s :| Runs(Next(small), s0, actions, s) && EarlyCpuRead(s);
      RunsInLarger(Next(small), Next(rules), s0, actions, s);
    }
  }
}
