/** The unlocked reads of the shared event: what they promise exactly while releases do not overlap,
    and the releases that go out unordered. */
module ReleaseEvent {
  import opened Prelude
  import opened Machine
  import opened ReleaseFence
  import opened ReleaseOverlap

  // ---- After a failed first check ----------------------------------------------------------------

  predicate PastSecondGuard(pc: Pc) {
    pc.InUnix? && (pc.stage.Argument? || pc.stage.Compare? || pc.stage.Commit?)
  }

  predicate LosesEvent(r: Release) {
    r.gate.EventLost?
  }

  /** One thread at most is inside a release; past its guard the event is on, and no release has lost it. */
  ghost predicate GuardHolds(s: State) {
    && (exists t :: OthersIdle(s, t))
    && (forall t :: PastSecondGuard(PcOf(s, t)) ==> s.sh.eventActive)
    && (forall t :: PcOf(s, t).HostCall? ==> !LosesEvent(PcOf(s, t).release))
    && (forall k :: 0 <= k < |s.sh.releases| ==> !LosesEvent(s.sh.releases[k]))
  }

  lemma GuardStep(rules: Rules, s: State, a: Action)
    requires !rules.overlap && GuardHolds(s) && Allowed(rules, s, a)
    ensures GuardHolds(Apply(s, a))
  {
    var s' := Apply(s, a);
    if !a.Queue? {
      ActorIsAlone(rules, s, a, a.t);
      assert OthersIdle(s', a.t) by { forall u | u != a.t ensures PcOf(s', u).Idle? { assert PcOf(s, u).Idle?; } }
      assert PastSecondGuard(PcOf(s, a.t)) ==> s.sh.eventActive;
      forall u | PcOf(s', u).HostCall? ensures !LosesEvent(PcOf(s', u).release) { assert u == a.t; }
    } else {
      var t :| OthersIdle(s, t);
      assert OthersIdle(s', t) by { forall u | u != t ensures PcOf(s', u).Idle? { assert PcOf(s, u).Idle?; } }
      forall u | PastSecondGuard(PcOf(s', u)) ensures s'.sh.eventActive { assert PastSecondGuard(PcOf(s, u)); }
      forall u | PcOf(s', u).HostCall? ensures !LosesEvent(PcOf(s', u).release) { assert PcOf(s', u) == PcOf(s, u); }
    }
  }

  lemma {:induction false} GuardRun(rules: Rules, s1: State, actions: seq<Action>, s2: State)
    requires !rules.overlap && GuardHolds(s1) && Runs(Next(rules), s1, actions, s2)
    ensures GuardHolds(s2)
    decreases |actions|
  {
    if actions != [] {
      GuardStep(rules, s1, actions[0]);
      GuardRun(rules, Apply(s1, actions[0]), actions[1..], s2);
    }
  }

  /** While releases do not overlap, a session whose event is off (the first check failed, or there
      never was one) queues no wait. */
  lemma NoWaitAfterFailedCheck(rules: Rules, s0: State, actions: seq<Action>, s: State, t: ThreadId)
    requires !rules.overlap && Init(s0) && Runs(Next(rules), s0, actions, s) && !s.sh.eventActive
    ensures forall ok :: !Enabled(s, Unix(t, CommitWait(ok)))
  {
    assert OthersIdle(s0, 0);
    GuardRun(rules, s0, actions, s);
  }

  /** While releases do not overlap, a release that passed its guard keeps its event. */
  lemma NoEventLost(rules: Rules, s0: State, actions: seq<Action>, s: State, k: nat)
    requires !rules.overlap && Init(s0) && Runs(Next(rules), s0, actions, s) && k < |s.sh.releases|
    ensures !s.sh.releases[k].gate.EventLost?
  {
    assert OthersIdle(s0, 0);
    GuardRun(rules, s0, actions, s);
    assert !LosesEvent(s.sh.releases[k]);
  }

  // ---- Pieces of runs ----------------------------------------------------------------------------

  /** A release first signals the fence. */
  predicate SignalsFirst(sh: Shared) {
    sh.path == Carrier || (OnDevice(sh.path) && sh.eventActive)
  }

  /** A release up to the first guard. */
  lemma UpToGuard(rules: Rules, s0: State, before: seq<Action>, s: State, t: ThreadId)
    returns (actions: seq<Action>, s': State)
    requires Runs(Next(rules), s0, before, s)
    requires SignalsFirst(s.sh) && PcOf(s, t).Idle? && (rules.overlap || AllIdle(s))
    ensures Runs(Next(rules), s0, actions, s') && OnlyMoves(s, t, s')
    ensures s'.sh == s.sh.(app := s.sh.app + [Signal(s.sh.counter + 1)], counter := s.sh.counter + 1)
    ensures PcOf(s', t) == InUnix(FirstGuard, |s.sh.app|, Value(s.sh.counter + 1, |s.sh.app|))
  {
    actions, s' := Extend(rules, s0, before, s, Pe(t, Begin));
    actions, s' := Extend(rules, s0, actions, s', Pe(t, ChooseSync));
    actions, s' := Extend(rules, s0, actions, s', Pe(t, LockedSignal(true)));
  }

  /** ... whose first check has timed out, with the event not yet cleared; */
  lemma FailCheck(rules: Rules, s0: State, before: seq<Action>, s: State, t: ThreadId)
    returns (actions: seq<Action>, s': State)
    requires Runs(Next(rules), s0, before, s)
    requires AtStage(s, t, FirstGuard) && PcOf(s, t).fence.Value? && s.sh.eventActive && !s.sh.checked
    ensures Runs(Next(rules), s0, actions, s') && OnlyMoves(s, t, s')
    ensures s'.sh == s.sh.(checked := true) && PcOf(s', t) == PcOf(s, t).(stage := Disable)
  {
    actions, s' := Extend(rules, s0, before, s, Unix(t, ReadFirstGuard));
    actions, s' := Extend(rules, s0, actions, s', Unix(t, SetChecked));
    actions, s' := Extend(rules, s0, actions, s', Unix(t, PollTimeout));
  }

  /** ... or which skips the check, as it has been claimed, and has passed the second guard; */
  lemma PassGuards(rules: Rules, s0: State, before: seq<Action>, s: State, t: ThreadId)
    returns (actions: seq<Action>, s': State)
    requires Runs(Next(rules), s0, before, s)
    requires AtStage(s, t, FirstGuard) && PcOf(s, t).fence.Value? && s.sh.eventActive && s.sh.checked
    ensures Runs(Next(rules), s0, actions, s') && OnlyMoves(s, t, s')
    ensures s'.sh == s.sh && PcOf(s', t) == PcOf(s, t).(stage := Argument)
  {
    actions, s' := Extend(rules, s0, before, s, Unix(t, ReadFirstGuard));
    actions, s' := Extend(rules, s0, actions, s', Unix(t, ReadSecondGuard));
  }

  /** ... and from there up to its wait. */
  lemma UpToCommit(rules: Rules, s0: State, before: seq<Action>, s: State, t: ThreadId)
    returns (actions: seq<Action>, s': State)
    requires Runs(Next(rules), s0, before, s) && s.sh.eventActive
    requires AtStage(s, t, Argument) && PcOf(s, t).fence.Value? && s.sh.eventValue < PcOf(s, t).fence.value
    ensures Runs(Next(rules), s0, actions, s') && OnlyMoves(s, t, s')
    ensures s'.sh == s.sh && PcOf(s', t) == PcOf(s, t).(stage := Commit)
  {
    actions, s' := Extend(rules, s0, before, s, Unix(t, ReadArgument));
    actions, s' := Extend(rules, s0, actions, s', Unix(t, CompareValue));
  }

  // ---- Overlap is what breaks them ----------------------------------------------------------------

  /** After some rendering: thread 1 about to switch the event off, thread 2 past its second guard. */
  lemma BothReady(rules: Rules, s0: State) returns (actions: seq<Action>, s: State)
    requires rules.overlap && Init(s0) && s0.sh.path != NoSync && s0.sh.eventActive
    ensures Runs(Next(rules), s0, actions, s) && s.sh.eventActive && s.sh.eventValue == s.sh.appDone == 0
    ensures s.sh.releases == [] && s.sh.runtime == [] && s.sh.runtimeDone == 0
    ensures AtStage(s, 1, Disable) && PcOf(s, 2) == InUnix(Argument, 2, Value(2, 2))
  {
    var s1;
    actions, s1 := Extend(rules, s0, [], s0, Queue(SubmitRender));
    assert PcOf(s1, 1) == PcOf(s0, 1) && PcOf(s1, 2) == PcOf(s0, 2);
    var s2, s3, s4;
    actions, s2 := UpToGuard(rules, s0, actions, s1, 1);
    actions, s3 := FailCheck(rules, s0, actions, s2, 1);
    assert PcOf(s3, 2) == PcOf(s2, 2) == PcOf(s1, 2);
    actions, s4 := UpToGuard(rules, s0, actions, s3, 2);
    actions, s := PassGuards(rules, s0, actions, s4, 2);
    assert PcOf(s, 1) == PcOf(s4, 1) == PcOf(s3, 1);
  }

  /** Thread 1 switches the event off while thread 2 is about to commit its wait. */
  lemma LateWaitRun(rules: Rules, s0: State) returns (actions: seq<Action>, s: State)
    requires rules.overlap && Init(s0) && s0.sh.path != NoSync && s0.sh.eventActive
    ensures Runs(Next(rules), s0, actions, s) && !s.sh.eventActive && PcOf(s, 2) == InUnix(Commit, 2, Value(2, 2))
  {
    var s1, s2;
    actions, s1 := BothReady(rules, s0);
    actions, s2 := UpToCommit(rules, s0, actions, s1, 2);
    assert PcOf(s2, 1) == PcOf(s1, 1);
    actions, s := Extend(rules, s0, actions, s2, Unix(1, DisableEvent));
    assert PcOf(s, 2) == PcOf(s2, 2);
  }

  /** With overlap a wait can be committed after the check has failed. */
  lemma OverlapMayQueueLateWait(rules: Rules, s0: State)
    requires rules.overlap && Init(s0) && s0.sh.path != NoSync && s0.sh.eventActive
    ensures exists actions, s ::
              Runs(Next(rules), s0, actions, s) && !s.sh.eventActive && Enabled(s, Unix(2, CommitWait(true)))
  {
    var actions, s := LateWaitRun(rules, s0);
  }

  /** In every run the rules admit, no wait is committed with the event off. */
  ghost predicate NoLateWaits(rules: Rules) {
    forall s0, actions, s, t, ok ::
      Init(s0) && Runs(Next(rules), s0, actions, s) && Enabled(s, Unix(t, CommitWait(ok))) ==> s.sh.eventActive
  }

  /** In every run the rules admit, a release that passed its guard kept its event. */
  ghost predicate KeepsEvents(rules: Rules) {
    forall s0, actions, s, k: nat ::
      Init(s0) && Runs(Next(rules), s0, actions, s) && k < |s.sh.releases| ==> !LosesEvent(s.sh.releases[k])
  }

  function Started(path: Path, eventActive: bool): State {
    State(Shared(path, [], 0, [], 0, 0, 0, eventActive, false, NO_CPU, []), map[])
  }

  lemma NoLateWaitsExactly(rules: Rules)
    ensures NoLateWaits(rules) <==> !rules.overlap
  {
    if rules.overlap {
      var s0 := Started(Carrier, true);
      var actions, s := LateWaitRun(rules, s0);
      assert Enabled(s, Unix(2, CommitWait(true)));
    } else {
      forall s0, actions, s, t, ok |
        Init(s0) && Runs(Next(rules), s0, actions, s) && Enabled(s, Unix(t, CommitWait(ok)))
        ensures s.sh.eventActive
      {
        if !s.sh.eventActive { NoWaitAfterFailedCheck(rules, s0, actions, s, t); }
      }
    }
  }

  lemma KeepsEventsExactly(rules: Rules)
    ensures KeepsEvents(rules) <==> !rules.overlap
  {
    if rules.overlap {
      var s0 := Started(Carrier, true);
      var actions, s := LostRun(rules, s0);
      assert LosesEvent(s.sh.releases[0]);
    } else {
      forall s0, actions, s, k: nat | Init(s0) && Runs(Next(rules), s0, actions, s) && k < |s.sh.releases|
        ensures !LosesEvent(s.sh.releases[k])
      {
        NoEventLost(rules, s0, actions, s, k);
      }
    }
  }

  // ---- Releases that are unordered, and their images ----------------------------------------------

  /** Why a release is unordered; None if it is ordered. */
  datatype Cause = NoPath | CarrierFailed | WaitFailed | EventOff | EventGone | BufferMissing

  function CauseOf(r: Release): Option<Cause> {
    if !r.sync.Unsynced? then None
    else
      match r.fence
      case NoSignal => Some(NoPath)
      case SignalFailed => Some(CarrierFailed)
      case WaitSkipped => Some(WaitFailed)
      case WaitReturned => None
      case Value(_, _) =>
        match r.gate
        case Shut => Some(EventOff)
        case EventLost => Some(EventGone)
        case NoBuffer => Some(BufferMissing)
        case Passed => None
  }

  /** An image of a release with this cause has been read before what was rendered before that release. */
  ghost predicate ReadEarlyFor(s: State, c: Cause) {
    exists r :: CauseOf(r) == Some(c) && ReadEarly(s, r)
  }

  lemma Rendered(rules: Rules, s0: State) returns (actions: seq<Action>, s: State)
    requires Init(s0)
    ensures Runs(Next(rules), s0, actions, s) && s.sh == s0.sh.(app := [Render]) && AllIdle(s)
  {
    actions, s := Extend(rules, s0, [], s0, Queue(SubmitRender));
    assert forall t :: PcOf(s, t) == PcOf(s0, t);
  }

  /** From the call to the first guard, with every foreign call failing. */
  lemma EverythingFails(rules: Rules, s0: State, before: seq<Action>, s: State, t: ThreadId)
    returns (actions: seq<Action>, s': State)
    requires Runs(Next(rules), s0, before, s) && AllIdle(s) && !s.sh.cpu.created
    ensures Runs(Next(rules), s0, actions, s') && s'.sh == s.sh && AtStage(s', t, FirstGuard)
    ensures PcOf(s', t).entry == |s.sh.app|
    ensures PcOf(s', t).fence == match s.sh.path case NoSync => NoSignal
                                                 case Carrier => SignalFailed
                                                 case _ => WaitSkipped
  {
    actions, s' := Extend(rules, s0, before, s, Pe(t, Begin));
    actions, s' := Extend(rules, s0, actions, s', Pe(t, ChooseSync));
    if PcOf(s', t).Signalling? { actions, s' := Extend(rules, s0, actions, s', Pe(t, LockedSignal(false))); }
    if PcOf(s', t).InCpu? { actions, s' := Extend(rules, s0, actions, s', Cpu(t, MakeFence(false))); }
  }

  /** No path, a failed carrier signal, or a skipped CPU wait, by the path. */
  lemma FailedRun(rules: Rules, s0: State) returns (actions: seq<Action>, s: State)
    requires Init(s0)
    ensures Runs(Next(rules), s0, actions, s)
    ensures ReadEarlyFor(s, match s0.sh.path case NoSync => NoPath case Carrier => CarrierFailed case _ => WaitFailed)
  {
    var s1, s2, s3;
    actions, s1 := Rendered(rules, s0);
    actions, s2 := EverythingFails(rules, s0, actions, s1, 1);
    actions, s3 := UpToHost(rules, s0, actions, s2, 1);
    actions, s := HostAndRead(rules, s0, actions, s3, 1);
  }

  /** The event is off from the start, or switched off by this release's own check. */
  lemma ShutRun(rules: Rules, s0: State) returns (actions: seq<Action>, s: State)
    requires Init(s0) && SignalsFirst(s0.sh)
    ensures Runs(Next(rules), s0, actions, s) && ReadEarlyFor(s, EventOff)
  {
    var s1, s2, s3;
    actions, s1 := Rendered(rules, s0);
    actions, s2 := UpToGuard(rules, s0, actions, s1, 1);
    if s0.sh.eventActive {
      actions, s3 := FailCheck(rules, s0, actions, s2, 1);
      actions, s3 := Extend(rules, s0, actions, s3, Unix(1, DisableEvent));
    } else {
      actions, s3 := Extend(rules, s0, actions, s2, Unix(1, ReadFirstGuard));
    }
    actions, s3 := Extend(rules, s0, actions, s3, Unix(1, ReadSecondGuard));
    actions, s := HostAndRead(rules, s0, actions, s3, 1);
  }

  /** The event vanishes between the guard and the argument of encode_gpu_wait. */
  lemma LostRun(rules: Rules, s0: State) returns (actions: seq<Action>, s: State)
    requires rules.overlap && Init(s0) && s0.sh.path != NoSync && s0.sh.eventActive
    ensures Runs(Next(rules), s0, actions, s) && ReadEarlyFor(s, EventGone)
    ensures |s.sh.releases| == 1 && LosesEvent(s.sh.releases[0])
  {
    var s1, s2;
    actions, s1 := BothReady(rules, s0);
    actions, s2 := Extend(rules, s0, actions, s1, Unix(1, DisableEvent));
    assert PcOf(s2, 2) == PcOf(s1, 2);
    actions, s2 := Extend(rules, s0, actions, s2, Unix(2, ReadArgument));
    actions, s := HostAndRead(rules, s0, actions, s2, 2);
  }

  /** A release whose check finds its value, ... */
  lemma PassCheck(rules: Rules, s0: State, before: seq<Action>, s: State, t: ThreadId)
    returns (actions: seq<Action>, s': State)
    requires Runs(Next(rules), s0, before, s) && s.sh.eventActive && !s.sh.checked
    requires AtStage(s, t, FirstGuard) && PcOf(s, t).fence.Value? && PcOf(s, t).fence.value <= s.sh.eventValue
    ensures Runs(Next(rules), s0, actions, s') && OnlyMoves(s, t, s')
    ensures s'.sh == s.sh.(checked := true) && PcOf(s', t) == PcOf(s, t).(stage := SecondGuard)
  {
    actions, s' := Extend(rules, s0, before, s, Unix(t, ReadFirstGuard));
    actions, s' := Extend(rules, s0, actions, s', Unix(t, SetChecked));
    actions, s' := Extend(rules, s0, actions, s', Unix(t, PollReached));
  }

  /** ... and which needs no wait for it. */
  lemma FinishReached(rules: Rules, s0: State, before: seq<Action>, s: State, t: ThreadId)
    returns (actions: seq<Action>, s': State)
    requires Runs(Next(rules), s0, before, s) && s.sh.eventActive
    requires AtStage(s, t, SecondGuard) && PcOf(s, t).fence.Value? && PcOf(s, t).fence.value <= s.sh.eventValue
    ensures Runs(Next(rules), s0, actions, s') && OnlyMoves(s, t, s') && PcOf(s', t).Idle?
    ensures s'.sh == s.sh.(releases := s'.sh.releases)
  {
    actions, s' := Extend(rules, s0, before, s, Unix(t, ReadSecondGuard));
    actions, s' := Extend(rules, s0, actions, s', Unix(t, ReadArgument));
    actions, s' := Extend(rules, s0, actions, s', Unix(t, CompareValue));
    actions, s' := Extend(rules, s0, actions, s', Pe(t, HostRelease));
  }

  /** A first release, whose signal runs before it is checked. */
  lemma FirstRelease(rules: Rules, s0: State) returns (actions: seq<Action>, s: State)
    requires Init(s0) && s0.sh.path != NoSync && s0.sh.eventActive
    ensures Runs(Next(rules), s0, actions, s) && AllIdle(s)
    ensures s.sh == s0.sh.(app := [Signal(1)], appDone := 1, eventValue := 1, counter := 1, checked := true,
                           releases := s.sh.releases)
  {
    assert AllIdle(s0);
    var s1, s2, s3;
    actions, s1 := UpToGuard(rules, s0, [], s0, 1);
    actions, s2 := Extend(rules, s0, actions, s1, Queue(AppGpuStep));
    assert OnlyMoves(s1, 1, s2) && PcOf(s2, 1) == PcOf(s1, 1);
    assert s2.sh == s0.sh.(app := [Signal(1)], appDone := 1, eventValue := 1, counter := 1);
    actions, s3 := PassCheck(rules, s0, actions, s2, 1);
    actions, s := FinishReached(rules, s0, actions, s3, 1);
    forall t ensures PcOf(s, t).Idle? {
      if t != 1 { assert PcOf(s, t) == PcOf(s3, t) == PcOf(s2, t) == PcOf(s1, t) == PcOf(s0, t); }
    }
  }

  /** A later release, behind new rendering, up to its wait. */
  lemma LaterRelease(rules: Rules, s0: State, before: seq<Action>, s: State) returns (actions: seq<Action>, s': State)
    requires Runs(Next(rules), s0, before, s) && AllIdle(s) && s.sh.eventActive && s.sh.checked && SignalsFirst(s.sh)
    requires s.sh.eventValue <= s.sh.counter
    ensures Runs(Next(rules), s0, actions, s') && s'.sh.appDone == s.sh.appDone && s'.sh.releases == s.sh.releases
    ensures s'.sh.runtime == s.sh.runtime && s'.sh.runtimeDone == s.sh.runtimeDone
    ensures PcOf(s', 1) == InUnix(Commit, |s.sh.app| + 1, Value(s.sh.counter + 1, |s.sh.app| + 1))
  {
    var s1, s2, s3;
    actions, s1 := Extend(rules, s0, before, s, Queue(SubmitRender));
    forall t ensures PcOf(s1, t).Idle? { assert PcOf(s, t).Idle?; }
    actions, s2 := UpToGuard(rules, s0, actions, s1, 1);
    actions, s3 := PassGuards(rules, s0, actions, s2, 1);
    actions, s' := UpToCommit(rules, s0, actions, s3, 1);
  }

  /** ... and finds no command buffer. */
  lemma BufferRun(rules: Rules, s0: State) returns (actions: seq<Action>, s: State)
    requires Init(s0) && s0.sh.path != NoSync && s0.sh.eventActive
    ensures Runs(Next(rules), s0, actions, s) && ReadEarlyFor(s, BufferMissing)
  {
    var s1, s2, s3;
    actions, s1 := FirstRelease(rules, s0);
    actions, s2 := LaterRelease(rules, s0, actions, s1);
    actions, s3 := Extend(rules, s0, actions, s2, Unix(1, CommitWait(false)));
    actions, s := HostAndRead(rules, s0, actions, s3, 1);
  }

  /** What can go wrong in a session that starts like this. */
  predicate MayCause(rules: Rules, start: Shared, c: Cause) {
    match c
    case NoPath => start.path == NoSync
    case CarrierFailed => start.path == Carrier
    case WaitFailed => OnDevice(start.path)
    case EventOff => SignalsFirst(start)
    case EventGone => rules.overlap && start.path != NoSync && start.eventActive
    case BufferMissing => start.path != NoSync && start.eventActive
  }

  lemma CauseRun(rules: Rules, s0: State, c: Cause) returns (actions: seq<Action>, s: State)
    requires Init(s0) && MayCause(rules, s0.sh, c)
    ensures Runs(Next(rules), s0, actions, s) && ReadEarlyFor(s, c)
  {
    match c
    case EventOff => actions, s := ShutRun(rules, s0);
    case EventGone => actions, s := LostRun(rules, s0);
    case BufferMissing => actions, s := BufferRun(rules, s0);
    case _ => actions, s := FailedRun(rules, s0);
  }

  // A session that starts without an event never gets one.

  predicate WithoutEvent(path: Path, r: Release) {
    r.gate.Shut? && (OnDevice(path) ==> !r.fence.Value?)
  }

  predicate PcWithoutEvent(path: Path, pc: Pc) {
    match pc
    case Signalling(_) => !OnDevice(path)
    case InUnix(_, _, fence) => !PastSecondGuard(pc) && (OnDevice(path) ==> !fence.Value?)
    case HostCall(r) => WithoutEvent(path, r)
    case _ => true
  }

  predicate EventOffOk(s: State) {
    && !s.sh.eventActive
    && (forall k :: 0 <= k < |s.sh.releases| ==> WithoutEvent(s.sh.path, s.sh.releases[k]))
    && (forall t :: t in s.threads ==> PcWithoutEvent(s.sh.path, s.threads[t]))
  }

  lemma EventOffStep(s: State, a: Action)
    requires EventOffOk(s) && Enabled(s, a)
    ensures EventOffOk(Apply(s, a))
  {
  }

  lemma {:induction false} EventOffRun(rules: Rules, s1: State, actions: seq<Action>, s2: State)
    requires EventOffOk(s1) && Runs(Next(rules), s1, actions, s2)
    ensures EventOffOk(s2)
    decreases |actions|
  {
    if actions != [] {
      EventOffStep(s1, actions[0]);
      EventOffRun(rules, Apply(s1, actions[0]), actions[1..], s2);
    }
  }

  /** Every unordered release of every run has a cause, no other release has one, and it is one the start
      admits. */
  lemma CauseIsPossible(rules: Rules, s0: State, actions: seq<Action>, s: State, k: nat)
    requires Init(s0) && Runs(Next(rules), s0, actions, s) && k < |s.sh.releases|
    ensures var r := s.sh.releases[k];
            && (r.sync.Unsynced? <==> CauseOf(r).Some?)
            && (CauseOf(r).Some? ==> MayCause(rules, s0.sh, CauseOf(r).value))
  {
    RunKeepsInv(rules, s0, actions, s);
    assert ReleaseOk(s.sh, s.sh.releases[k]);
    if !s0.sh.eventActive {
      EventOffRun(rules, s0, actions, s);
      assert WithoutEvent(s.sh.path, s.sh.releases[k]);
    }
    if !rules.overlap { NoEventLost(rules, s0, actions, s, k); }
  }

  /** Some run from this start reads an image early for this cause. */
  ghost predicate MayReadEarly(rules: Rules, s0: State, c: Cause) {
    exists actions, s :: Runs(Next(rules), s0, actions, s) && ReadEarlyFor(s, c)
  }

  /** For every start and all rules: an image can be read early for this cause if and only if the
      session's path, its event and the rules admit the cause. */
  lemma EarlyReadsExactly(rules: Rules, s0: State, c: Cause)
    requires Init(s0)
    ensures MayReadEarly(rules, s0, c) <==> MayCause(rules, s0.sh, c)
  {
    if MayCause(rules, s0.sh, c) {
      var actions, s := CauseRun(rules, s0, c);
      assert MayReadEarly(rules, s0, c);
    } else if MayReadEarly(rules, s0, c) {
      var actions, s :| Runs(Next(rules), s0, actions, s) && ReadEarlyFor(s, c);
      var r :| CauseOf(r) == Some(c) && ReadEarly(s, r);
      var j: nat, k: nat :| j < s.sh.runtimeDone && ReadsRelease(s.sh, j, k) && s.sh.releases[k] == r
                            && !RenderedBefore(s.sh, r);
      CauseIsPossible(rules, s0, actions, s, k);
    }
  }
}
