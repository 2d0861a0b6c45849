/** Conversion between XrTime and the Win32 performance counter, pivoting through CLOCK_MONOTONIC with
    two offsets that are sampled once. */
module TimeConversion {
  import opened Prelude

  const NS_PER_SECOND := 1_000_000_000
  const TICKS_PER_SECOND := 10_000_000
  const NS_PER_TICK := 100   // NS_PER_SECOND / TICKS_PER_SECOND

  /** C division of a long long by the length of a tick: toward zero. */
  function TruncTicks(ns: int): int {
    if ns >= 0 then ns / 100 else -((-ns) / 100)
  }

  predicate Int64(x: int) {
    -0x8000_0000_0000_0000 <= x <= 0x7fff_ffff_ffff_ffff
  }

  /** qpc_monotonic_offset and xrtime_monotonic_offset, before and after their first use. */
  datatype Offsets = Offsets(qpc: Option<int>, xr: Option<int>)

  /** Clock readings during one call: for the QPC offset, and two of CLOCK_MONOTONIC in nanoseconds. */
  datatype Clock = Clock(qpc: int, seconds: nat, nanoseconds: nat, seed: int, now: int)

  datatype Call = TimeToCounter(time: int, clock: Clock) | CounterToTime(counter: int, clock: Clock)

  datatype Answer = TimeInvalid | Converted(value: int)

  type ThreadId = nat

  /** A conversion reads the two offsets one after the other, each under its own lock: the first one
      it has got is kept in between. */
  datatype Pc = Idle | Half(call: Call, first: int)

  datatype Record = Record(call: Call, answer: Answer)

  /** `done`: every conversion that has returned, by any thread, in order. */
  datatype State = State(offsets: Offsets, threads: map<ThreadId, Pc>, done: seq<Record>)

  datatype Action = Begin(t: ThreadId, call: Call) | Finish(t: ThreadId)

  function QpcOffset(o: Offsets, c: Clock): int {
    if o.qpc.Some? then o.qpc.value
    else c.qpc - (c.seconds * TICKS_PER_SECOND + c.nanoseconds / NS_PER_TICK)
  }

  function XrOffset(o: Offsets, seed: int, c: Clock): int {
    if o.xr.Some? then o.xr.value else seed - c.now
  }

  function ToCounter(time: int, qpc: int, xr: int): int {
    TruncTicks(time - xr) + qpc
  }

  function ToTime(counter: int, qpc: int, xr: int): int {
    (counter - qpc) * NS_PER_TICK + xr
  }

  predicate Refused(call: Call) {
    match call
    case TimeToCounter(time, _) => time <= 0
    case CounterToTime(counter, _) => counter <= 0
  }

  function PcOf(s: State, t: ThreadId): Pc {
    if t in s.threads then s.threads[t] else Idle
  }

  predicate Enabled(s: State, a: Action) {
    if a.Begin? then PcOf(s, a.t).Idle? else PcOf(s, a.t).Half?
  }

  /** Entry check and first offset: XrTime's when converting a time, the counter's otherwise. */
  function Begun(s: State, t: ThreadId, call: Call): State {
    if Refused(call) then s.(done := s.done + [Record(call, TimeInvalid)])
    else
      match call
      case TimeToCounter(time, c) =>
        var xr := XrOffset(s.offsets, time, c);
        s.(offsets := s.offsets.(xr := Some(xr)), threads := s.threads[t := Half(call, xr)])
      case CounterToTime(_, c) =>
        var qpc := QpcOffset(s.offsets, c);
        s.(offsets := s.offsets.(qpc := Some(qpc)), threads := s.threads[t := Half(call, qpc)])
  }

  /** Second offset and result. */
  function Finished(s: State, t: ThreadId): State
    requires PcOf(s, t).Half?
  {
    var call, first := PcOf(s, t).call, PcOf(s, t).first;
    match call
    case TimeToCounter(time, c) =>
      var qpc := QpcOffset(s.offsets, c);
      State(s.offsets.(qpc := Some(qpc)), s.threads[t := Idle],
            s.done + [Record(call, Converted(ToCounter(time, qpc, first)))])
    case CounterToTime(counter, c) =>
      var xr := XrOffset(s.offsets, c.seed, c);
      State(s.offsets.(xr := Some(xr)), s.threads[t := Idle],
            s.done + [Record(call, Converted(ToTime(counter, first, xr)))])
  }

  function Apply(s: State, a: Action): State
    requires Enabled(s, a)
  {
    match a
    case Begin(t, call) => Begun(s, t, call)
    case Finish(t) => Finished(s, t)
  }

  const FRESH := State(Offsets(None, None), map[], [])

  /** The actions, each enabled in its turn, lead from the start to s. */
  ghost predicate Reaches(actions: seq<Action>, s: State)
    decreases |actions|
  {
    if actions == [] then s == FRESH
    else
      var a := actions[|actions| - 1];
      exists before :: Reaches(actions[..|actions| - 1], before) && Enabled(before, a) && s == Apply(before, a)
  }

  // ---- The offsets are fixed by their first use ---------------------------------------------------

  /** An offset that is set keeps its value. */
  predicate Keeps(o1: Offsets, o2: Offsets) {
    (o1.qpc.Some? ==> o2.qpc == o1.qpc) && (o1.xr.Some? ==> o2.xr == o1.xr)
  }

  /** A returned conversion was refused for its input, or used these offsets. */
  predicate Uses(o: Offsets, r: Record) {
    && (r.answer.TimeInvalid? <==> Refused(r.call))
    && (r.answer.Converted? ==>
          && o.qpc.Some? && o.xr.Some?
          && r.answer.value == match r.call
                               case TimeToCounter(time, _) => ToCounter(time, o.qpc.value, o.xr.value)
                               case CounterToTime(counter, _) => ToTime(counter, o.qpc.value, o.xr.value))
  }

  predicate PcOk(o: Offsets, pc: Pc) {
    pc.Half? ==> !Refused(pc.call) && Some(pc.first) == if pc.call.TimeToCounter? then o.xr else o.qpc
  }

  predicate Inv(s: State) {
    && (forall t :: t in s.threads ==> PcOk(s.offsets, s.threads[t]))
    && (forall i :: 0 <= i < |s.done| ==> Uses(s.offsets, s.done[i]))
  }

  lemma StepKeepsInv(s: State, a: Action)
    requires Inv(s) && Enabled(s, a)
    ensures Inv(Apply(s, a)) && Keeps(s.offsets, Apply(s, a).offsets) && s.done <= Apply(s, a).done
  {
  }

  /** Main result: whatever the interleaving, every conversion that has returned used the offsets in
      force now, though racing first calls may set them in either order. */
  lemma {:induction false} ConversionsUseFinalOffsets(actions: seq<Action>, s: State)
    requires Reaches(actions, s)
    ensures Inv(s)
  {
    if actions != [] {
      var front, a := actions[..|actions| - 1], actions[|actions| - 1];
      var before :| Reaches(front, before) && Enabled(before, a) && s == Apply(before, a);
      ConversionsUseFinalOffsets(front, before);
      StepKeepsInv(before, a);
    }
  }

  lemma {:induction false} Deterministic(actions: seq<Action>, s1: State, s2: State)
    requires Reaches(actions, s1) && Reaches(actions, s2)
    ensures s1 == s2
  {
    if actions != [] {
      var front, a := actions[..|actions| - 1], actions[|actions| - 1];
      var b1 :| Reaches(front, b1) && Enabled(b1, a) && s1 == Apply(b1, a);
      var b2 :| Reaches(front, b2) && Enabled(b2, a) && s2 == Apply(b2, a);
      Deterministic(front, b1, b2);
    }
  }

  /** An offset never changes once it is set. */
  lemma {:induction false} OffsetsAreFixed(actions: seq<Action>, s: State, early: nat, e: State)
    requires Reaches(actions, s) && early <= |actions| && Reaches(actions[..early], e)
    ensures Keeps(e.offsets, s.offsets)
    decreases |actions|
  {
    if early == |actions| {
      assert actions[..early] == actions;
      Deterministic(actions, s, e);
    } else {
      var front, a := actions[..|actions| - 1], actions[|actions| - 1];
      var before :| Reaches(front, before) && Enabled(before, a) && s == Apply(before, a);
      assert front[..early] == actions[..early];
      OffsetsAreFixed(front, before, early, e);
    }
  }

  // ---- Round trips ----------------------------------------------------------------------------------

  lemma TruncExact(n: int)
    ensures TruncTicks(n * NS_PER_TICK) == n
  {
  }

  lemma TruncNear(n: int)
    ensures -NS_PER_TICK < n - TruncTicks(n) * NS_PER_TICK < NS_PER_TICK
    ensures n >= 0 ==> TruncTicks(n) * NS_PER_TICK <= n
    ensures n <= 0 ==> n <= TruncTicks(n) * NS_PER_TICK
  {
  }

  lemma TruncMonotone(m: int, n: int)
    requires m <= n
    ensures TruncTicks(m) <= TruncTicks(n)
  {
  }

  /** Counter to time to counter, by any threads with anything in between: exact if and only if the
      time in the middle is positive; otherwise the way back is refused. */
  lemma CounterRoundTrip(actions: seq<Action>, s: State, i: nat, j: nat)
    requires Reaches(actions, s) && i < |s.done| && j < |s.done|
    requires s.done[i].call.CounterToTime? && s.done[j].call.TimeToCounter?
    requires s.done[i].answer == Converted(s.done[j].call.time)
    ensures s.done[j].answer == Converted(s.done[i].call.counter) <==> s.done[j].call.time > 0
    ensures s.done[j].call.time <= 0 ==> s.done[j].answer == TimeInvalid
  {
    ConversionsUseFinalOffsets(actions, s);
    assert Uses(s.offsets, s.done[i]) && Uses(s.offsets, s.done[j]);
    TruncExact(s.done[i].call.counter - s.offsets.qpc.value);
  }

  /** Time to counter to time: less than one tick (100 ns) off when the counter is positive, before or
      after the monotonic clock's epoch, and refused otherwise. */
  lemma TimeRoundTrip(actions: seq<Action>, s: State, i: nat, j: nat)
    requires Reaches(actions, s) && i < |s.done| && j < |s.done|
    requires s.done[i].call.TimeToCounter? && s.done[j].call.CounterToTime?
    requires s.done[i].answer == Converted(s.done[j].call.counter)
    ensures s.done[j].answer.Converted? <==> s.done[j].call.counter > 0
    ensures s.done[j].call.counter > 0 ==>
              -NS_PER_TICK < s.done[j].answer.value - s.done[i].call.time < NS_PER_TICK
  {
    ConversionsUseFinalOffsets(actions, s);
    assert Uses(s.offsets, s.done[i]) && Uses(s.offsets, s.done[j]);
    TruncNear(s.done[i].call.time - s.offsets.xr.value);
  }

  /** Both directions are monotone, in whatever order the conversions return; counters are even
      strictly so. */
  lemma ConversionsAreMonotone(actions: seq<Action>, s: State, i: nat, j: nat)
    requires Reaches(actions, s) && i < |s.done| && j < |s.done|
    requires s.done[i].answer.Converted? && s.done[j].answer.Converted?
    ensures var a, b := s.done[i].call, s.done[j].call;
            && (a.TimeToCounter? && b.TimeToCounter? && a.time <= b.time ==>
                  s.done[i].answer.value <= s.done[j].answer.value)
            && (a.CounterToTime? && b.CounterToTime? && a.counter < b.counter ==>
                  s.done[i].answer.value + NS_PER_TICK <= s.done[j].answer.value)
  {
    ConversionsUseFinalOffsets(actions, s);
    assert Uses(s.offsets, s.done[i]) && Uses(s.offsets, s.done[j]);
    var a, b, xr := s.done[i].call, s.done[j].call, s.offsets.xr.value;
    if a.TimeToCounter? && b.TimeToCounter? && a.time <= b.time { TruncMonotone(a.time - xr, b.time - xr); }
  }

  // ---- What the offsets are -----------------------------------------------------------------------------

  /** The XrTime that a first call takes for the moment of its clock readings. */
  function Seed(call: Call): int {
    match call
    case TimeToCounter(time, _) => time
    case CounterToTime(_, c) => c.seed
  }

  lemma OneMore(actions: seq<Action>, s: State, a: Action)
    requires Reaches(actions, s) && Enabled(s, a)
    ensures Reaches(actions + [a], Apply(s, a))
  {
    var all := actions + [a];
    assert all[..|all| - 1] == actions && all[|all| - 1] == a;
    assert Reaches(all[..|all| - 1], s);
  }

  lemma FirstCall(t: ThreadId, call: Call)
    requires !Refused(call)
    ensures var e := Apply(Apply(FRESH, Begin(t, call)), Finish(t));
            && Reaches([Begin(t, call), Finish(t)], e)
            && e.offsets == Offsets(Some(QpcOffset(FRESH.offsets, call.clock)),
                                    Some(XrOffset(FRESH.offsets, Seed(call), call.clock)))
  {
    OneMore([], FRESH, Begin(t, call));
    OneMore([] + [Begin(t, call)], Apply(FRESH, Begin(t, call)), Finish(t));
    assert [] + [Begin(t, call)] + [Finish(t)] == [Begin(t, call), Finish(t)];
  }

  /** When one call makes both clock readings of a run, and they agree, they fix the conversion: its seed
      stands for the counter it read, and d ticks later for d more, in both directions, whoever asks. */
  lemma FirstCallFixesTheClock(actions: seq<Action>, s: State, t: ThreadId, call: Call, j: nat, d: nat)
    requires Reaches(actions, s) && |actions| >= 2 && actions[..2] == [Begin(t, call), Finish(t)] && !Refused(call)
    requires call.clock.now == call.clock.seconds * NS_PER_SECOND + call.clock.nanoseconds
    requires j < |s.done|
    ensures var asked, c := s.done[j].call, call.clock;
            && (asked.TimeToCounter? && asked.time == Seed(call) + NS_PER_TICK * d > 0 ==>
                  s.done[j].answer == Converted(c.qpc + d))
            && (asked.CounterToTime? && asked.counter == c.qpc + d > 0 ==>
                  s.done[j].answer == Converted(Seed(call) + NS_PER_TICK * d - c.nanoseconds % NS_PER_TICK))
  {
    FirstCall(t, call);
    OffsetsAreFixed(actions, s, 2, Apply(Apply(FRESH, Begin(t, call)), Finish(t)));
    ConversionsUseFinalOffsets(actions, s);
    assert Uses(s.offsets, s.done[j]);
  }

  // ---- Staying inside int64 ----------------------------------------------------------------------------

  /** All that the two offset initialisers would compute from these readings fits a long long. */
  predicate InitialisersFit(seed: int, c: Clock) {
    var ticks := c.seconds * TICKS_PER_SECOND;
    && Int64(ticks) && Int64(ticks + c.nanoseconds / NS_PER_TICK)
    && Int64(c.qpc - (ticks + c.nanoseconds / NS_PER_TICK)) && Int64(seed - c.now)
  }

  /** All that one conversion computes fits a long long. */
  predicate Fits(o: Offsets, call: Call)
    requires o.qpc.Some? && o.xr.Some?
  {
    var xr, qpc := o.xr.value, o.qpc.value;
    match call
    case TimeToCounter(time, c) =>
      InitialisersFit(time, c) && Int64(time - xr) && Int64(TruncTicks(time - xr)) && Int64(ToCounter(time, qpc, xr))
    case CounterToTime(counter, c) =>
      && InitialisersFit(c.seed, c)
      && Int64(counter - qpc) && Int64((counter - qpc) * NS_PER_TICK) && Int64(ToTime(counter, qpc, xr))
  }

  /** Clock readings of a machine up for less than some ninety years, in both units. */
  predicate Plausible(c: Clock) {
    && 0 <= c.qpc < 0x60_0000_0000_0000 && c.seconds < 0x8000_0000 && c.nanoseconds < NS_PER_SECOND
    && 0 <= c.seed < 0x2000_0000_0000_0000 && 0 <= c.now < 0x2000_0000_0000_0000
  }

  predicate InRange(call: Call) {
    && Plausible(call.clock)
    && match call
       case TimeToCounter(time, _) => time < 0x2000_0000_0000_0000
       case CounterToTime(counter, _) => counter < 0x60_0000_0000_0000
  }

  predicate OffsetsInRange(o: Offsets) {
    && (o.qpc.Some? ==> -0x60_0000_0000_0000 <= o.qpc.value <= 0x60_0000_0000_0000)
    && (o.xr.Some? ==> -0x2000_0000_0000_0000 <= o.xr.value <= 0x2000_0000_0000_0000)
  }

  predicate AllInRange(actions: seq<Action>) {
    forall i :: 0 <= i < |actions| && actions[i].Begin? ==> InRange(actions[i].call)
  }

  predicate StateInRange(s: State) {
    && OffsetsInRange(s.offsets)
    && (forall t :: t in s.threads && s.threads[t].Half? ==> InRange(s.threads[t].call))
    && (forall i :: 0 <= i < |s.done| ==> InRange(s.done[i].call))
  }

  lemma StepInRange(s: State, a: Action)
    requires StateInRange(s) && Enabled(s, a) && (a.Begin? ==> InRange(a.call))
    ensures StateInRange(Apply(s, a))
  {
  }

  lemma {:induction false} HistoryInRange(actions: seq<Action>, s: State)
    requires Reaches(actions, s) && AllInRange(actions)
    ensures StateInRange(s)
  {
    if actions != [] {
      var front, a := actions[..|actions| - 1], actions[|actions| - 1];
      var before :| Reaches(front, before) && Enabled(before, a) && s == Apply(before, a);
      HistoryInRange(front, before);
      StepInRange(before, a);
    }
  }

  /** With inputs and clock readings in range, no conversion of any history overflows, so the
      unbounded arithmetic above is the program's. */
  lemma NoConversionOverflows(actions: seq<Action>, s: State, i: nat)
    requires Reaches(actions, s) && AllInRange(actions) && i < |s.done| && s.done[i].answer.Converted?
    ensures s.offsets.qpc.Some? && s.offsets.xr.Some? && Fits(s.offsets, s.done[i].call)
  {
    HistoryInRange(actions, s);
    ConversionsUseFinalOffsets(actions, s);
    assert Uses(s.offsets, s.done[i]);
    match s.done[i].call
    case TimeToCounter(time, _) => TruncNear(time - s.offsets.xr.value);
    case CounterToTime(_, _) =>
  }

  // ---- The code -----------------------------------------------------------------------------------------

  class Converter {
    var qpcOffset: Option<int>      // guarded by pthread_once
    var xrOffset: Option<int>       // guarded by xrtime_offset_lock
    ghost var threads: map<ThreadId, Pc>
    ghost var done: seq<Record>

    ghost function Abs(): State
      reads this
    {
      State(Offsets(qpcOffset, xrOffset), threads, done)
    }

    constructor ()
      ensures Abs() == FRESH
    {
      qpcOffset, xrOffset, threads, done := None, None, map[], [];
    }

    method QpcToMonotonicOffset(c: Clock) returns (offset: int)
      modifies this`qpcOffset
      ensures offset == QpcOffset(old(Abs()).offsets, c) && qpcOffset == Some(offset)
    {
      if qpcOffset.None? {
        var monotonicQpc := c.seconds * TICKS_PER_SECOND + TruncTicks(c.nanoseconds);
        qpcOffset := Some(c.qpc - monotonicQpc);
      }
      offset := qpcOffset.value;
    }

    method XrTimeToMonotonicOffset(seed: int, c: Clock) returns (offset: int)
      modifies this`xrOffset
      ensures offset == XrOffset(old(Abs()).offsets, seed, c) && xrOffset == Some(offset)
    {
      if xrOffset.None? { xrOffset := Some(seed - c.now); }
      offset := xrOffset.value;
    }

    /** wine_xrConvertTimeToWin32PerformanceCounterKHR, as two steps of the machine. */
    method ConvertTimeToCounter(t: ThreadId, time: int, c: Clock) returns (answer: Answer)
      requires PcOf(Abs(), t).Idle?
      modifies this
      ensures var begun := Apply(old(Abs()), Begin(t, TimeToCounter(time, c)));
              Abs() == if time <= 0 then begun else Apply(begun, Finish(t))
      ensures done == old(done) + [Record(TimeToCounter(time, c), answer)]
    {
      ghost var call := TimeToCounter(time, c);
      if time <= 0 {
        done := done + [Record(call, TimeInvalid)];
        return TimeInvalid;
      }
      var xr := XrTimeToMonotonicOffset(time, c);
      var monotonicTicks := TruncTicks(time - xr);
      threads := threads[t := Half(call, xr)];
      var qpc := QpcToMonotonicOffset(c);
      answer := Converted(monotonicTicks + qpc);
      threads := threads[t := Idle];
      done := done + [Record(call, answer)];
    }

    /** wine_xrConvertWin32PerformanceCounterToTimeKHR. */
    method ConvertCounterToTime(t: ThreadId, counter: int, c: Clock) returns (answer: Answer)
      requires PcOf(Abs(), t).Idle?
      modifies this
      ensures var begun := Apply(old(Abs()), Begin(t, CounterToTime(counter, c)));
              Abs() == if counter <= 0 then begun else Apply(begun, Finish(t))
      ensures done == old(done) + [Record(CounterToTime(counter, c), answer)]
    {
      ghost var call := CounterToTime(counter, c);
      if counter <= 0 {
        done := done + [Record(call, TimeInvalid)];
        return TimeInvalid;
      }
      var qpc := QpcToMonotonicOffset(c);
      var monotonicNs := (counter - qpc) * NS_PER_TICK;
      threads := threads[t := Half(call, qpc)];
      var xr := XrTimeToMonotonicOffset(c.seed, c);
      answer := Converted(monotonicNs + xr);
      threads := threads[t := Idle];
      done := done + [Record(call, answer)];
    }
  }
}
