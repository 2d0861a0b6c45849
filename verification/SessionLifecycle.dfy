/** Sessions and instances under primary_session_lock, as a concurrent transition system.

    Each section between EnterCriticalSection and LeaveCriticalSection is one action, each call
    into the unix half is one, and each teardown is one; any thread may act between any two.
    Instance records stay readable after xrDestroyInstance has freed them. The unix half has one
    dispatch table, which belongs to the live instance; `live` is whose it is. */
module SessionLifecycle {
  import opened Prelude
  import opened Machine

  type ThreadId = nat
  type InstanceId = nat
  type SessionId = nat

  /** hostDestroyed: the unix half of its xrDestroyInstance has run. */
  datatype Instance = Instance(destroying: bool, hostDestroyed: bool)

  /** Who is responsible for a session wrapper: bookkeeping that no action reads. */
  datatype Holder = Thread(t: ThreadId) | Published | Gone

  /** A wrapper exists from the moment its host session does. */
  datatype Wrapper = Wrapper(
    instance: InstanceId,
    returned: bool,        // the application got the handle
    destroyBegun: bool,    // the application called xrDestroySession on it
    abandoned: nat,        // host destroy calls made by the creating thread
    destroyed: nat,        // host destroy calls made by xrDestroySession
    teardowns: nat,
    holder: Holder)

  datatype Pc =
    | Idle
    | Checked(i: InstanceId)                       // xrCreateSession, past the first locked check
    | Publishing(w: SessionId)                     // host session created
    | Abandoning(w: SessionId)
    | DestroyingHost(w: SessionId)                 // xrDestroySession, past its locked step
    | TearingDown(w: SessionId)
    | DestroyingInstance(i: InstanceId, doomed: Option<SessionId>)
    | TearingDownDoomed(doomed: Option<SessionId>)

  datatype State = State(
    primary: Option<SessionId>,
    live: Option<InstanceId>,                      // g_instance_live, and whose slots the table holds
    instances: map<InstanceId, Instance>,
    wrappers: map<SessionId, Wrapper>,
    threads: map<ThreadId, Pc>)

  datatype Action =
    | CreateInstance(i: InstanceId)
    | BeginCreate(t: ThreadId, i: InstanceId)
    | GiveUp(t: ThreadId)                          // missing binding or requirements call, or no memory
    | CreateHost(t: ThreadId, w: SessionId, ok: bool)
    | Publish(t: ThreadId)
    | Abandon(t: ThreadId)
    | BeginDestroy(t: ThreadId, w: SessionId)
    | DestroyHost(t: ThreadId)
    | Teardown(t: ThreadId)
    | BeginDestroyInstance(t: ThreadId, i: InstanceId)
    | DestroyHostInstance(t: ThreadId)
    | TeardownDoomed(t: ThreadId)

  function PcOf(s: State, t: ThreadId): Pc {
    if t in s.threads then s.threads[t] else Idle
  }

  /** What the program needs to take the action, without the application's side of the bargain. */
  predicate Possible(s: State, a: Action) {
    match a
    case CreateInstance(i) => i !in s.instances && s.live.None?
    case BeginCreate(t, i) => PcOf(s, t).Idle? && i in s.instances
    case GiveUp(t) => PcOf(s, t).Checked?
    case CreateHost(t, w, ok) => PcOf(s, t).Checked? && w !in s.wrappers && (ok ==> s.live.Some?)
    case Publish(t) => PcOf(s, t).Publishing?
    case Abandon(t) => PcOf(s, t).Abandoning?
    case BeginDestroy(t, w) => PcOf(s, t).Idle? && w in s.wrappers && s.wrappers[w].returned
    case DestroyHost(t) => PcOf(s, t).DestroyingHost?
    case Teardown(t) => PcOf(s, t).TearingDown?
    case BeginDestroyInstance(t, i) => PcOf(s, t).Idle? && i in s.instances
    case DestroyHostInstance(t) => PcOf(s, t).DestroyingInstance?
    case TeardownDoomed(t) => PcOf(s, t).TearingDownDoomed?
  }

  /** The application destroys each handle at most once, and a session handle dies with its
      instance. xrCreateSession may race with everything. */
  predicate AppSerialises(s: State, a: Action)
    requires Possible(s, a)
  {
    match a
    case BeginDestroy(_, w) =>
      && !s.wrappers[w].destroyBegun
      && (s.wrappers[w].instance in s.instances ==> !s.instances[s.wrappers[w].instance].destroying)
    case BeginDestroyInstance(_, i) => !s.instances[i].destroying
    case _ => true
  }

  predicate Enabled(s: State, a: Action) {
    Possible(s, a) && AppSerialises(s, a)
  }

  predicate Destroying(s: State, i: InstanceId) {
    i in s.instances && s.instances[i].destroying
  }

  predicate BelongsTo(s: State, w: SessionId, i: InstanceId) {
    w in s.wrappers && s.wrappers[w].instance == i
  }

  function Goto(s: State, t: ThreadId, pc: Pc): State {
    s.(threads := s.threads[t := pc])
  }

  function Put(s: State, w: SessionId, wrapper: Wrapper): State {
    s.(wrappers := s.wrappers[w := wrapper])
  }

  function BegunCreate(s: State, t: ThreadId, i: InstanceId): State {
    Goto(s, t, if s.primary.Some? || Destroying(s, i) then Idle else Checked(i))
  }

  function CreatedHost(s: State, t: ThreadId, w: SessionId, ok: bool): State
    requires PcOf(s, t).Checked?
  {
    if ok then
      Goto(Put(s, w, Wrapper(PcOf(s, t).i, false, false, 0, 0, 0, Thread(t))), t, Publishing(w))
    else
      Goto(s, t, Idle)
  }

  /** Publish under the lock after checking again, or keep the session to abandon it. */
  function DonePublish(s: State, t: ThreadId): State
    requires PcOf(s, t).Publishing?
  {
    var w := PcOf(s, t).w;
    if w !in s.wrappers then s
    else if s.primary.Some? || Destroying(s, s.wrappers[w].instance) then Goto(s, t, Abandoning(w))
    else
      Goto(Put(s, w, s.wrappers[w].(returned := true, holder := Published)).(primary := Some(w)), t, Idle)
  }

  function Abandoned(s: State, t: ThreadId): State
    requires PcOf(s, t).Abandoning?
  {
    var w := PcOf(s, t).w;
    if w !in s.wrappers then s
    else Goto(Put(s, w, s.wrappers[w].(abandoned := s.wrappers[w].abandoned + 1)), t, TearingDown(w))
  }

  function BegunDestroy(s: State, t: ThreadId, w: SessionId): State
    requires w in s.wrappers
  {
    var taken := if s.primary == Some(w) then s.(primary := None) else s;
    Goto(Put(taken, w, s.wrappers[w].(destroyBegun := true, holder := Thread(t))), t, DestroyingHost(w))
  }

  function DestroyedHost(s: State, t: ThreadId): State
    requires PcOf(s, t).DestroyingHost?
  {
    var w := PcOf(s, t).w;
    if w !in s.wrappers then s
    else Goto(Put(s, w, s.wrappers[w].(destroyed := s.wrappers[w].destroyed + 1)), t, TearingDown(w))
  }

  function TornDown(s: State, w: SessionId): State {
    if w !in s.wrappers then s
    else Put(s, w, s.wrappers[w].(teardowns := s.wrappers[w].teardowns + 1, holder := Gone))
  }

  /** Set destroying and take the instance's published session, if any, in one locked step. */
  function BegunDestroyInstance(s: State, t: ThreadId, i: InstanceId): State
    requires i in s.instances
  {
    var marked := s.(instances := s.instances[i := s.instances[i].(destroying := true)]);
    if s.primary.Some? && BelongsTo(s, s.primary.value, i) then
      var w := s.primary.value;
      Goto(Put(marked, w, s.wrappers[w].(holder := Thread(t))).(primary := None), t, DestroyingInstance(i, Some(w)))
    else
      Goto(marked, t, DestroyingInstance(i, None))
  }

  function Apply(s: State, a: Action): State
    requires Possible(s, a)
  {
    match a
    case CreateInstance(i) => s.(live := Some(i), instances := s.instances[i := Instance(false, false)])
    case BeginCreate(t, i) => BegunCreate(s, t, i)
    case GiveUp(t) => Goto(s, t, Idle)
    case CreateHost(t, w, ok) => CreatedHost(s, t, w, ok)
    case Publish(t) => DonePublish(s, t)
    case Abandon(t) => Abandoned(s, t)
    case BeginDestroy(t, w) => BegunDestroy(s, t, w)
    case DestroyHost(t) => DestroyedHost(s, t)
    case Teardown(t) => Goto(TornDown(s, PcOf(s, t).w), t, Idle)
    case BeginDestroyInstance(t, i) => BegunDestroyInstance(s, t, i)
    case DestroyHostInstance(t) =>
      var i := PcOf(s, t).i;
      var s' :=
        if i in s.instances then s.(instances := s.instances[i := s.instances[i].(hostDestroyed := true)]) else s;
      Goto(s'.(live := None), t, TearingDownDoomed(PcOf(s, t).doomed))
    case TeardownDoomed(t) =>
      var doomed := PcOf(s, t).doomed;
      Goto(if doomed.Some? then TornDown(s, doomed.value) else s, t, Idle)
  }

  const INITIAL := State(None, None, map[], map[], map[])

  /** Steps of the bridge, with or without the application keeping its side. */
  predicate Allowed(serialised: bool, s: State, a: Action) {
    Possible(s, a) && (serialised ==> AppSerialises(s, a))
  }

  function Next(serialised: bool): (State, Action) -> Option<State> {
    (s, a) => if Allowed(serialised, s, a) then Some(Apply(s, a)) else None
  }

  lemma Extend(serialised: bool, actions: seq<Action>, s: State, a: Action) returns (more: seq<Action>, s': State)
    requires Runs(Next(serialised), INITIAL, actions, s) && Allowed(serialised, s, a)
    ensures more == actions + [a] && s' == Apply(s, a) && Runs(Next(serialised), INITIAL, more, s')
  {
    more, s' := actions + [a], Apply(s, a);
    ThenStep(Next(serialised), INITIAL, actions, s, a, s');
  }

  // ---- The invariant ---------------------------------------------------------------------------

  predicate Holds(pc: Pc, w: SessionId) {
    match pc
    case Publishing(v) => v == w
    case Abandoning(v) => v == w
    case DestroyingHost(v) => v == w
    case TearingDown(v) => v == w
    case DestroyingInstance(_, doomed) => doomed == Some(w)
    case TearingDownDoomed(doomed) => doomed == Some(w)
    case _ => false
  }

  /** A wrapper that some thread holds, at that thread's program point. */
  predicate HeldOk(r: Wrapper, instance: Instance, pc: Pc) {
    && r.teardowns == 0
    && match pc
       case Publishing(_) => !r.returned && !r.destroyBegun && r.abandoned == 0 && r.destroyed == 0
       case Abandoning(_) => !r.returned && !r.destroyBegun && r.abandoned == 0 && r.destroyed == 0
       case DestroyingHost(_) => r.returned && r.destroyBegun && r.abandoned == 0 && r.destroyed == 0
       case TearingDown(_) =>
         if r.returned then r.destroyBegun && r.abandoned == 0 && r.destroyed == 1
         else r.abandoned == 1 && r.destroyed == 0
       case DestroyingInstance(i, _) =>
         r.returned && r.abandoned == 0 && r.destroyed == 0 && instance.destroying && r.instance == i
       case TearingDownDoomed(_) =>
         r.returned && r.abandoned == 0 && r.destroyed == 0 && instance.destroying && instance.hostDestroyed
       case _ => false
  }

  /** The host session of a wrapper nobody holds any more got exactly one destroy call, from its
      creator, from xrDestroySession, or through its instance. */
  predicate GoneOk(r: Wrapper, instance: Instance) {
    && r.teardowns == 1
    && (if !r.returned then r.abandoned == 1 && r.destroyed == 0
        else r.abandoned == 0 && (if r.destroyed == 0 then instance.hostDestroyed else r.destroyed == 1))
    && (r.returned ==> r.destroyBegun || instance.destroying)
  }

  predicate PublishedOk(r: Wrapper, instance: Instance) {
    && r.returned && !r.destroyBegun && r.abandoned == 0 && r.destroyed == 0 && r.teardowns == 0
    && !instance.destroying
  }

  predicate WrapperOk(s: State, w: SessionId)
    requires w in s.wrappers
  {
    var r := s.wrappers[w];
    && r.instance in s.instances
    && match r.holder
       case Thread(t) => Holds(PcOf(s, t), w) && HeldOk(r, s.instances[r.instance], PcOf(s, t))
       case Published => s.primary == Some(w) && PublishedOk(r, s.instances[r.instance])
       case Gone => GoneOk(r, s.instances[r.instance])
  }

  ghost predicate PcOk(s: State, t: ThreadId, pc: Pc) {
    && (forall w :: Holds(pc, w) ==> w in s.wrappers && s.wrappers[w].holder == Thread(t))
    && (pc.Checked? ==> pc.i in s.instances)
    && (pc.DestroyingInstance? ==> Destroying(s, pc.i))
  }

  ghost predicate Inv(s: State) {
    && (forall w :: w in s.wrappers ==> WrapperOk(s, w))
    && (forall t :: t in s.threads ==> PcOk(s, t, s.threads[t]))
    && (s.primary.Some? ==> s.primary.value in s.wrappers && s.wrappers[s.primary.value].holder.Published?)
    && (forall i :: i in s.instances && s.instances[i].hostDestroyed ==> s.instances[i].destroying)
  }

  lemma Held(s: State, t: ThreadId, w: SessionId)
    requires Inv(s) && Holds(PcOf(s, t), w)
    ensures w in s.wrappers && s.wrappers[w].holder == Thread(t)
    ensures s.wrappers[w].instance in s.instances
    ensures HeldOk(s.wrappers[w], s.instances[s.wrappers[w].instance], PcOf(s, t))
  {
  }

  /** Actions on instances and on threads that hold nothing. */
  lemma PlainStep(s: State, a: Action)
    requires Inv(s) && Enabled(s, a)
    requires a.CreateInstance? || a.BeginCreate? || a.GiveUp?
    ensures Inv(Apply(s, a))
  {
  }

  lemma CreateHostStep(s: State, t: ThreadId, w: SessionId, ok: bool)
    requires Inv(s) && Enabled(s, CreateHost(t, w, ok))
    ensures Inv(CreatedHost(s, t, w, ok))
  {
  }

  lemma PublishStep(s: State, t: ThreadId)
    requires Inv(s) && Enabled(s, Publish(t))
    ensures Inv(DonePublish(s, t))
  {
  }

  lemma AbandonStep(s: State, t: ThreadId)
    requires Inv(s) && Enabled(s, Abandon(t))
    ensures Inv(Abandoned(s, t))
  {
    var s' := Abandoned(s, t);
    Held(s, t, PcOf(s, t).w);
    forall v | v in s'.wrappers ensures WrapperOk(s', v) { assert WrapperOk(s, v); }
  }

  lemma DestroyHostStep(s: State, t: ThreadId)
    requires Inv(s) && Enabled(s, DestroyHost(t))
    ensures Inv(DestroyedHost(s, t))
  {
  }

  lemma BeginDestroyStep(s: State, t: ThreadId, w: SessionId)
    requires Inv(s) && Enabled(s, BeginDestroy(t, w))
    ensures Inv(BegunDestroy(s, t, w))
  {
  }

  lemma TeardownStep(s: State, t: ThreadId)
    requires Inv(s) && Enabled(s, Teardown(t))
    ensures Inv(Apply(s, Teardown(t)))
  {
  }

  lemma TeardownDoomedStep(s: State, t: ThreadId)
    requires Inv(s) && Enabled(s, TeardownDoomed(t))
    ensures Inv(Apply(s, TeardownDoomed(t)))
  {
  }

  /** Marking an instance spoils nothing that is already on its way out. */
  lemma MarkingKeeps(r: Wrapper, instance: Instance, pc: Pc)
    ensures HeldOk(r, instance, pc) ==> HeldOk(r, instance.(destroying := true), pc)
    ensures GoneOk(r, instance) ==> GoneOk(r, instance.(destroying := true))
  {
  }

  lemma BeginDestroyInstanceWrapper(s: State, t: ThreadId, i: InstanceId, v: SessionId)
    requires Inv(s) && Enabled(s, BeginDestroyInstance(t, i)) && v in s.wrappers
    ensures v in BegunDestroyInstance(s, t, i).wrappers && WrapperOk(BegunDestroyInstance(s, t, i), v)
  {
    assert WrapperOk(s, v);
    var r := s.wrappers[v];
    MarkingKeeps(r, s.instances[r.instance], if r.holder.Thread? then PcOf(s, r.holder.t) else Idle);
  }

  lemma BeginDestroyInstanceStep(s: State, t: ThreadId, i: InstanceId)
    requires Inv(s) && Enabled(s, BeginDestroyInstance(t, i))
    ensures Inv(BegunDestroyInstance(s, t, i))
  {
    var s' := BegunDestroyInstance(s, t, i);
    forall v | v in s'.wrappers ensures WrapperOk(s', v) { BeginDestroyInstanceWrapper(s, t, i, v); }
    forall u | u in s'.threads ensures PcOk(s', u, s'.threads[u]) {
      if u != t { assert PcOk(s, u, s.threads[u]); }
    }
  }

  lemma DestroyHostInstanceStep(s: State, t: ThreadId)
    requires Inv(s) && Enabled(s, DestroyHostInstance(t))
    ensures Inv(Apply(s, DestroyHostInstance(t)))
  {
  }

  lemma StepKeepsInv(s: State, a: Action)
    requires Inv(s) && Enabled(s, a)
    ensures Inv(Apply(s, a))
  {
    match a
    case CreateHost(t, w, ok) => CreateHostStep(s, t, w, ok);
    case Publish(t) => PublishStep(s, t);
    case Abandon(t) => AbandonStep(s, t);
    case DestroyHost(t) => DestroyHostStep(s, t);
    case BeginDestroy(t, w) => BeginDestroyStep(s, t, w);
    case Teardown(t) => TeardownStep(s, t);
    case TeardownDoomed(t) => TeardownDoomedStep(s, t);
    case BeginDestroyInstance(t, i) => BeginDestroyInstanceStep(s, t, i);
    case DestroyHostInstance(t) => DestroyHostInstanceStep(s, t);
    case _ => PlainStep(s, a);
  }

  lemma {:induction false} RunKeepsInv(s1: State, actions: seq<Action>, s2: State)
    requires Inv(s1) && Runs(Next(true), s1, actions, s2)
    ensures Inv(s2)
    decreases |actions|
  {
    if actions != [] {
      StepKeepsInv(s1, actions[0]);
      RunKeepsInv(Apply(s1, actions[0]), actions[1..], s2);
    }
  }

  // ---- What it means -----------------------------------------------------------------------------

  /** A published session is fully created, not torn down, not being destroyed, and its instance is
      not marked destroying. */
  lemma PublishedSessionIsSound(actions: seq<Action>, s: State)
    requires Runs(Next(true), INITIAL, actions, s) && s.primary.Some?
    ensures var w := s.primary.value;
            && w in s.wrappers && s.wrappers[w].instance in s.instances
            && PublishedOk(s.wrappers[w], s.instances[s.wrappers[w].instance])
            && (forall t :: !Holds(PcOf(s, t), w))
  {
    RunKeepsInv(INITIAL, actions, s);
    var w := s.primary.value;
    assert WrapperOk(s, w);
    forall t ensures !Holds(PcOf(s, t), w) {
      if t in s.threads { assert PcOk(s, t, s.threads[t]); }
    }
  }

  lemma DestroyingStays(s: State, a: Action, i: InstanceId)
    requires Enabled(s, a) && Destroying(s, i)
    ensures Destroying(Apply(s, a), i)
  {
  }

  lemma {:induction false} DestroyingStaysOverRun(s1: State, actions: seq<Action>, s2: State, i: InstanceId)
    requires Runs(Next(true), s1, actions, s2) && Destroying(s1, i)
    ensures Destroying(s2, i)
    decreases |actions|
  {
    if actions != [] {
      DestroyingStays(s1, actions[0], i);
      DestroyingStaysOverRun(Apply(s1, actions[0]), actions[1..], s2, i);
    }
  }

  /** Once xrDestroyInstance has taken its locked step, no session of that instance is ever
      published again, whatever runs afterwards. */
  lemma NothingPublishedAfterDestroy(before: seq<Action>, s: State, t: ThreadId, i: InstanceId,
                                     after: seq<Action>, s': State)
    requires Runs(Next(true), INITIAL, before, s) && Enabled(s, BeginDestroyInstance(t, i))
    requires Runs(Next(true), Apply(s, BeginDestroyInstance(t, i)), after, s')
    ensures s'.primary.Some? ==> !BelongsTo(s', s'.primary.value, i)
  {
    var a := BeginDestroyInstance(t, i);
    StepThen(Next(true), s, a, Apply(s, a), after, s');
    RunsThen(Next(true), INITIAL, before, s, [a] + after, s');
    DestroyingStaysOverRun(Apply(s, a), after, s', i);
    if s'.primary.Some? { PublishedSessionIsSound(before + ([a] + after), s'); }
  }

  /** Every host session ever created was published, or got exactly one destroy call from the
      thread that created it, or that thread is still on its way to one of the two; and no wrapper
      is torn down twice. */
  lemma NoSessionIsLost(actions: seq<Action>, s: State, w: SessionId)
    requires Runs(Next(true), INITIAL, actions, s) && w in s.wrappers
    ensures s.wrappers[w].teardowns <= 1
    ensures var r := s.wrappers[w];
            || (r.returned && r.abandoned == 0)
            || (!r.returned && r.abandoned == 1)
            || (r.holder.Thread? && r.abandoned == 0
                && (PcOf(s, r.holder.t) == Publishing(w) || PcOf(s, r.holder.t) == Abandoning(w)))
  {
    RunKeepsInv(INITIAL, actions, s);
    assert WrapperOk(s, w);
  }

  /** When every call has returned, each wrapper is the published one, untouched, or has been torn
      down exactly once after its host session was destroyed exactly once. */
  lemma QuietMeansAccountedFor(actions: seq<Action>, s: State, w: SessionId)
    requires Runs(Next(true), INITIAL, actions, s) && w in s.wrappers
    requires forall t :: t in s.threads ==> s.threads[t].Idle?
    ensures s.wrappers[w].instance in s.instances
    ensures if s.primary == Some(w) then s.wrappers[w].teardowns == 0
            else GoneOk(s.wrappers[w], s.instances[s.wrappers[w].instance])
  {
    RunKeepsInv(INITIAL, actions, s);
    assert WrapperOk(s, w);
    if s.primary == Some(w) { assert s.wrappers[w].holder.Published?; }
  }

  // ---- Runs that show the limits -----------------------------------------------------------------

  /** Session 0 of instance 0, created by thread 1, with its host session. */
  lemma CreatedRun(serialised: bool) returns (actions: seq<Action>, s: State)
    ensures Runs(Next(serialised), INITIAL, actions, s)
    ensures s == State(None, Some(0), map[0 := Instance(false, false)],
                       map[0 := Wrapper(0, false, false, 0, 0, 0, Thread(1))], map[1 := Publishing(0)])
  {
    actions, s := Extend(serialised, [], INITIAL, CreateInstance(0));
    actions, s := Extend(serialised, actions, s, BeginCreate(1, 0));
    actions, s := Extend(serialised, actions, s, CreateHost(1, 0, true));
  }

  /** ... and published. */
  lemma PublishedRun(serialised: bool) returns (actions: seq<Action>, s: State)
    ensures Runs(Next(serialised), INITIAL, actions, s)
    ensures s == State(Some(0), Some(0), map[0 := Instance(false, false)],
                       map[0 := Wrapper(0, true, false, 0, 0, 0, Published)], map[1 := Idle])
  {
    actions, s := CreatedRun(serialised);
    actions, s := Extend(serialised, actions, s, Publish(1));
  }

  /** xrDestroyInstance has taken the published session, and xrDestroySession destroys it meanwhile. */
  lemma LateDestroyRun() returns (actions: seq<Action>, s: State)
    ensures Runs(Next(false), INITIAL, actions, s)
    ensures PcOf(s, 1) == DestroyingInstance(0, Some(0)) && 0 in s.wrappers && s.wrappers[0].teardowns == 1
  {
    var s1;
    actions, s1 := PublishedRun(false);
    actions, s := Extend(false, actions, s1, BeginDestroyInstance(1, 0));
    assert BelongsTo(s1, 0, 0) && PcOf(s, 1) == DestroyingInstance(0, Some(0));
    actions, s := Extend(false, actions, s, BeginDestroy(2, 0));
    actions, s := Extend(false, actions, s, DestroyHost(2));
    actions, s := Extend(false, actions, s, Teardown(2));
  }

  /** The application's side of the bargain is needed: a run in which it destroys a session whose
      instance it is destroying, and both calls tear the session down. */
  lemma OverlappingDestroysTearDownTwice()
    ensures exists actions, s ::
              Runs(Next(false), INITIAL, actions, s) && 0 in s.wrappers && s.wrappers[0].teardowns == 2
  {
    var actions, s := LateDestroyRun();
    actions, s := Extend(false, actions, s, DestroyHostInstance(1));
    actions, s := Extend(false, actions, s, TeardownDoomed(1));
  }

  // ---- Whose dispatch table a call finds -----------------------------------------------------------

  /** The table belongs to the one instance whose xrDestroyInstance has not reached the unix half, and
      at most one thread is about to reach it. */
  ghost predicate LiveOk(s: State) {
    OwnerOk(s) && DestroyersOk(s)
  }

  predicate OwnerOk(s: State) {
    && (s.live.Some? ==> s.live.value in s.instances)
    && (forall i :: i in s.instances ==> (s.live == Some(i) <==> !s.instances[i].hostDestroyed))
  }

  ghost predicate DestroyersOk(s: State) {
    && (forall t :: PcOf(s, t).DestroyingInstance? ==> PcOf(s, t).i in s.instances && s.live == Some(PcOf(s, t).i))
    && (forall t, u :: PcOf(s, t).DestroyingInstance? && PcOf(s, u).DestroyingInstance? ==> t == u)
  }

  /** A thread about to destroy an instance has just marked it, or was about to before, in which case no
      other instance can be marked or destroyed. */
  lemma DestroyerAfter(s: State, a: Action, t: ThreadId)
    requires Inv(s) && LiveOk(s) && Enabled(s, a) && PcOf(Apply(s, a), t).DestroyingInstance?
    ensures if a.BeginDestroyInstance? then t == a.t && PcOf(Apply(s, a), t).i == a.i && s.live == Some(a.i)
            else PcOf(s, t) == PcOf(Apply(s, a), t) && !a.DestroyHostInstance? && !a.CreateInstance?
  {
    if PcOf(s, t).DestroyingInstance? { assert PcOk(s, t, s.threads[t]); }
  }

  lemma OwnerStep(s: State, a: Action)
    requires LiveOk(s) && Enabled(s, a)
    ensures OwnerOk(Apply(s, a))
  {
  }

  lemma DestroyersStep(s: State, a: Action)
    requires Inv(s) && LiveOk(s) && Enabled(s, a)
    ensures DestroyersOk(Apply(s, a))
  {
    var s' := Apply(s, a);
    forall t | PcOf(s', t).DestroyingInstance?
      ensures PcOf(s', t).i in s'.instances && s'.live == Some(PcOf(s', t).i)
    {
      DestroyerAfter(s, a, t);
    }
    forall t, u | PcOf(s', t).DestroyingInstance? && PcOf(s', u).DestroyingInstance? ensures t == u {
      DestroyerAfter(s, a, t);
      DestroyerAfter(s, a, u);
    }
  }

  lemma {:induction false} LiveRun(s1: State, actions: seq<Action>, s2: State)
    requires Inv(s1) && LiveOk(s1) && Runs(Next(true), s1, actions, s2)
    ensures Inv(s2) && LiveOk(s2)
    decreases |actions|
  {
    if actions != [] {
      StepKeepsInv(s1, actions[0]);
      OwnerStep(s1, actions[0]);
      DestroyersStep(s1, actions[0]);
      LiveRun(Apply(s1, actions[0]), actions[1..], s2);
    }
  }

  /** The thread is about to destroy the host session of w through the dispatch table. */
  predicate DestroysSession(pc: Pc, w: SessionId) {
    pc == Abandoning(w) || pc == DestroyingHost(w)
  }

  /** Over every run: a thread about to destroy a host session, abandoning it or in xrDestroySession,
      finds its own instance's table if and only if the unix half of that instance's
      xrDestroyInstance has not run - in particular as long as the instance is not marked. */
  lemma SessionDestroyFindsItsTable(actions: seq<Action>, s: State, t: ThreadId, w: SessionId)
    requires Runs(Next(true), INITIAL, actions, s) && DestroysSession(PcOf(s, t), w)
    ensures w in s.wrappers && s.wrappers[w].instance in s.instances
    ensures var i := s.wrappers[w].instance;
            && (s.live == Some(i) <==> !s.instances[i].hostDestroyed)
            && (!Destroying(s, i) ==> s.live == Some(i))
  {
    LiveRun(INITIAL, actions, s);
    Held(s, t, w);
  }

  /** xrDestroyInstance always clears its own instance's table. */
  lemma InstanceDestroyFindsItsTable(actions: seq<Action>, s: State, t: ThreadId)
    requires Runs(Next(true), INITIAL, actions, s) && PcOf(s, t).DestroyingInstance?
    ensures s.live == Some(PcOf(s, t).i)
  {
    LiveRun(INITIAL, actions, s);
  }

  /** Thread 1 abandons session 0 after thread 2's xrDestroyInstance has run in the unix half. */
  lemma LateAbandonRun() returns (actions: seq<Action>, s: State)
    ensures Runs(Next(true), INITIAL, actions, s) && PcOf(s, 1) == Abandoning(0) && s.live.None?
    ensures s.instances == map[0 := Instance(true, true)] && BelongsTo(s, 0, 0)
  {
    actions, s := CreatedRun(true);
    actions, s := Extend(true, actions, s, BeginDestroyInstance(2, 0));
    actions, s := Extend(true, actions, s, DestroyHostInstance(2));
    actions, s := Extend(true, actions, s, Publish(1));
  }

  /** Otherwise the table can be empty, with every handle destroyed once and only xrCreateSession racing
      with xrDestroyInstance, ... */
  lemma AbandonMayFindNoSlot()
    ensures exists actions, s :: Runs(Next(true), INITIAL, actions, s) && PcOf(s, 1) == Abandoning(0) && s.live.None?
  {
    var actions, s := LateAbandonRun();
  }

  /** ... or, if the application has created its next instance meanwhile, hold that one's slots. */
  lemma AbandonMayFindAnothersTable()
    ensures exists actions, s :: Runs(Next(true), INITIAL, actions, s) && PcOf(s, 1) == Abandoning(0)
                              && BelongsTo(s, 0, 0) && s.live == Some(1)
  {
    var actions, s := LateAbandonRun();
    actions, s := Extend(true, actions, s, CreateInstance(1));
  }

  // ---- The locked sections as code ----------------------------------------------------------------

  datatype CreateCheck = GoOn | LimitReached | InstanceLost

  /** The globals of the PE half. The ghost parts are the unix half's, who is where and who holds what. */
  class Bridge {
    var primary: Option<SessionId>
    var instances: map<InstanceId, Instance>
    ghost var live: Option<InstanceId>
    ghost var wrappers: map<SessionId, Wrapper>
    ghost var threads: map<ThreadId, Pc>

    ghost function Abs(): State
      reads this
    {
      State(primary, live, instances, wrappers, threads)
    }

    /** First section of xrCreateSession. */
    method CheckCreate(t: ThreadId, i: InstanceId) returns (result: CreateCheck)
      requires Enabled(Abs(), BeginCreate(t, i))
      modifies this`threads
      ensures Abs() == Apply(old(Abs()), BeginCreate(t, i))
      ensures result == GoOn <==> PcOf(Abs(), t) == Checked(i)
      ensures result == LimitReached <==> primary.Some?
      ensures result == InstanceLost <==> primary.None? && instances[i].destroying
    {
      threads := threads[t := Idle];
      if primary.Some? { return LimitReached; }
      if instances[i].destroying { return InstanceLost; }
      threads := threads[t := Checked(i)];
      result := GoOn;
    }

    /** Last section of xrCreateSession: publish, or tell the caller to abandon. */
    method PublishOrAbandon(t: ThreadId, w: SessionId, i: InstanceId) returns (published: bool)
      requires Inv(Abs()) && PcOf(Abs(), t) == Publishing(w)
      requires w in wrappers && wrappers[w].instance == i && i in instances
      modifies this`primary, this`wrappers, this`threads
      ensures Abs() == Apply(old(Abs()), Publish(t)) && Inv(Abs())
      ensures published <==> old(primary).None? && !instances[i].destroying
      ensures primary == if published then Some(w) else old(primary)
    {
      PublishStep(Abs(), t);
      if instances[i].destroying || primary.Some? {
        published := false;
        threads := threads[t := Abandoning(w)];
      } else {
        published := true;
        primary := Some(w);
        wrappers := wrappers[w := wrappers[w].(returned := true, holder := Published)];
        threads := threads[t := Idle];
      }
    }

    /** The locked section of xrDestroySession. */
    method Unpublish(t: ThreadId, w: SessionId)
      requires Inv(Abs()) && Enabled(Abs(), BeginDestroy(t, w))
      modifies this`primary, this`wrappers, this`threads
      ensures Abs() == Apply(old(Abs()), BeginDestroy(t, w)) && Inv(Abs())
      ensures primary == if old(primary) == Some(w) then None else old(primary)
    {
      BeginDestroyStep(Abs(), t, w);
      if primary == Some(w) { primary := None; }
      wrappers := wrappers[w := wrappers[w].(destroyBegun := true, holder := Thread(t))];
      threads := threads[t := DestroyingHost(w)];
    }

    /** The locked section of xrDestroyInstance; `owner` is the instance of the published session. */
    method MarkDestroying(t: ThreadId, i: InstanceId, owner: InstanceId) returns (doomed: Option<SessionId>)
      requires Inv(Abs()) && Enabled(Abs(), BeginDestroyInstance(t, i))
      requires primary.Some? ==> BelongsTo(Abs(), primary.value, owner)
      modifies this
      ensures Abs() == Apply(old(Abs()), BeginDestroyInstance(t, i)) && Inv(Abs())
      ensures doomed == if old(primary).Some? && owner == i then old(primary) else None
      ensures primary == if doomed.Some? then None else old(primary)
      ensures instances == old(instances)[i := old(instances)[i].(destroying := true)]
    {
      BeginDestroyInstanceStep(Abs(), t, i);
      instances := instances[i := instances[i].(destroying := true)];
      doomed := None;
      if primary.Some? && owner == i {
        doomed := primary;
        wrappers := wrappers[doomed.value := wrappers[doomed.value].(holder := Thread(t))];
        primary := None;
      }
      threads := threads[t := DestroyingInstance(i, doomed)];
    }
  }
}
