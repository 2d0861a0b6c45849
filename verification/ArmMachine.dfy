/** The thread-local arm: how one texture creation per arm comes back as the runtime's image.

    A history is a sequence of operations by any threads, in the order they happened; what a hook
    does depends on the thread's own arm and on one atomic counter. The properties are stated on
    the history alone, without looking into the arm. */
module ArmMachine {
  import opened Prelude

  type ThreadId = nat

  const TWO_32 := 0x1_0000_0000
  const TWO_64 := 0x1_0000_0000_0000_0000

  datatype TextureType = Type2D | Type2DArray | OtherType(raw: nat)

  /** The parts of an MTLTextureDescriptor, or of a texture, that the hooks compare. */
  datatype Shape = Shape(width: nat, height: nat, samples: nat, mips: nat, kind: TextureType, layers: nat, format: nat)

  datatype Texture = Texture(id: nat, shape: Shape)

  datatype Flags = Flags(probe: bool, event: bool, eventShared: bool, capture: bool)

  datatype Arm = Arm(
    armed: bool, probe: bool, tex: Option<Texture>, captured: bool, isView: bool,
    seen: nat,               // unsigned int
    globalAtArm: nat,        // uint64_t
    wantEvent: bool, eventShared: bool, event: Option<nat>, eventsSeen: nat,
    capture: bool, created: Option<nat>)

  const UNARMED := Arm(false, false, None, false, false, 0, 0, false, false, None, 0, false, None)

  datatype State = State(arms: map<ThreadId, Arm>, textures: nat)   // textures: g_n_textures

  /** Foreign results are part of the operation: whether making a view succeeds and is forced, the
      object the original selector returns, and the shared event the device would make. */
  datatype Op =
    | DoArm(t: ThreadId, flags: Flags, tex: Option<Texture>)
    | DoDisarm(t: ThreadId)
    | CreateTexture(t: ThreadId, desc: Shape, onDevice: bool, viewOk: bool, forceView: bool, original: Option<nat>)
    | CreateSharedEvent(t: ThreadId, original: Option<nat>)
    | CreateEvent(t: ThreadId, original: Option<nat>, shared: Option<nat>)

  /** What the caller of a hooked selector gets. */
  datatype Outcome =
    | Substituted(tex: Texture, asView: bool)
    | FellThrough(original: Option<nat>)
    | Event(event: Option<nat>)
    | Nothing

  function ArmOf(s: State, t: ThreadId): Arm {
    if t in s.arms then s.arms[t] else UNARMED
  }

  function Layers(s: Shape): nat {
    if s.kind == Type2DArray then s.layers else 1
  }

  predicate Fits(desc: Shape, tex: Shape) {
    && desc.width == tex.width && desc.height == tex.height && desc.samples == tex.samples
    && desc.mips == tex.mips && Layers(desc) == Layers(tex)
    && (desc.kind == Type2D || desc.kind == Type2DArray)
  }

  /** make_substitute: the texture itself, a view of it, or nothing. */
  function MakeSubstitute(tex: Texture, desc: Shape, viewOk: bool, forceView: bool): Outcome {
    if !Fits(desc, tex.shape) then Nothing
    else if desc.format == tex.shape.format && desc.kind == tex.shape.kind && !forceView then Substituted(tex, false)
    else if viewOk then Substituted(tex, true)
    else Nothing
  }

  /** on_texture_create and, when it returns nil, the original selector. */
  function TextureHook(arm: Arm, op: Op): (Arm, Outcome)
    requires op.CreateTexture?
  {
    if !arm.armed then (arm, FellThrough(op.original))
    else
      var counted := arm.(seen := (arm.seen + 1) % TWO_32);
      var sub := if arm.probe || arm.tex.None? || arm.captured then Nothing
                 else MakeSubstitute(arm.tex.value, op.desc, op.viewOk, op.forceView);
      if sub.Substituted? then (counted.(captured := true, isView := sub.asView), sub)
      else if op.onDevice && arm.capture && arm.created.None? && op.original.Some? then
        (counted.(created := op.original), FellThrough(op.original))
      else (counted, FellThrough(op.original))
  }

  /** on_event_create. */
  function SeeEvent(arm: Arm, event: Option<nat>): Arm {
    if arm.armed && arm.wantEvent then
      arm.(eventsSeen := (arm.eventsSeen + 1) % TWO_32,
           event := if arm.event.None? then event else arm.event)
    else arm
  }

  /** The event a creation hands out: newEvent turns into a shared event once per arm. */
  function EventFor(arm: Arm, op: Op): Option<nat>
    requires op.CreateSharedEvent? || op.CreateEvent?
  {
    if op.CreateEvent? && arm.armed && arm.eventShared && arm.event.None? && op.shared.Some? then op.shared
    else op.original
  }

  function Armed(flags: Flags, tex: Option<Texture>, textures: nat): Arm {
    UNARMED.(armed := true, probe := flags.probe, wantEvent := flags.event || flags.eventShared,
             eventShared := flags.eventShared, capture := flags.capture, tex := tex, globalAtArm := textures)
  }

  function Step(s: State, op: Op): (State, Outcome) {
    var arm := ArmOf(s, op.t);
    match op
    case DoArm(t, flags, tex) => (s.(arms := s.arms[t := Armed(flags, tex, s.textures)]), Nothing)
    case DoDisarm(t) => (s.(arms := s.arms[t := UNARMED]), Nothing)
    case CreateTexture(t, _, _, _, _, _) =>
      var (arm', outcome) := TextureHook(arm, op);
      (State(s.arms[t := arm'], (s.textures + 1) % TWO_64), outcome)
    case CreateSharedEvent(t, _) =>
      var event := EventFor(arm, op);
      (s.(arms := s.arms[t := SeeEvent(arm, event)]), Event(event))
    case CreateEvent(t, _, _) =>
      var event := EventFor(arm, op);
      (s.(arms := s.arms[t := SeeEvent(arm, event)]), Event(event))
  }

  /** What DISARM reports. */
  datatype Report = Report(captured: bool, seen: nat, globalSeen: nat, isView: bool,
                           event: Option<nat>, created: Option<nat>)

  function ReportOf(arm: Arm, textures: nat): Report {
    Report(arm.captured, if arm.wantEvent then arm.eventsSeen else arm.seen,
           ((textures - arm.globalAtArm) % TWO_64) % TWO_32, arm.isView, arm.event, arm.created)
  }

  // ---- Histories ---------------------------------------------------------------------------------

  function After(s0: State, h: seq<Op>): State {
    if h == [] then s0 else Step(After(s0, h[..|h| - 1]), h[|h| - 1]).0
  }

  /** Outcome of the i-th operation. */
  function OutcomeAt(s0: State, h: seq<Op>, i: nat): Outcome
    requires i < |h|
  {
    Step(After(s0, h[..i]), h[i]).1
  }

  predicate Init(s: State) {
    s.arms == map[] && s.textures < TWO_64
  }

  predicate Bracket(op: Op, t: ThreadId) {
    (op.DoArm? || op.DoDisarm?) && op.t == t
  }

  /** Where the thread's current window starts: right after its last ARM or DISARM. */
  function WindowStart(h: seq<Op>, t: ThreadId): (w: nat)
    ensures w <= |h|
    ensures forall i :: w <= i < |h| ==> !Bracket(h[i], t)
    ensures w > 0 ==> Bracket(h[w - 1], t)
  {
    if h == [] then 0
    else if Bracket(h[|h| - 1], t) then |h|
    else WindowStart(h[..|h| - 1], t)
  }

  /** The thread is armed: its last ARM or DISARM was an ARM. */
  predicate IsArmed(h: seq<Op>, t: ThreadId) {
    WindowStart(h, t) > 0 && h[WindowStart(h, t) - 1].DoArm?
  }

  function ArmingOp(h: seq<Op>, t: ThreadId): Op
    requires IsArmed(h, t)
  {
    h[WindowStart(h, t) - 1]
  }

  /** What a thread's current window contains: its own texture creations and everybody else's, its
      event creations, how many creations were substituted and whether by a view, the first event it
      was handed, and the first texture it made itself on the device. */
  datatype Window = Window(own: nat, others: nat, events: nat, subs: nat, asView: bool, first: Option<nat>,
                           created: Option<nat>)

  const NEW_WINDOW := Window(0, 0, 0, 0, false, None, None)

  function OneMore(w: Window, op: Op, outcome: Outcome, t: ThreadId): Window {
    if op.t != t then w.(others := w.others + if op.CreateTexture? then 1 else 0)
    else
      match outcome
      case Nothing => w
      case Event(event) => w.(events := w.events + 1, first := if w.first.None? then event else w.first)
      case Substituted(_, asView) => w.(own := w.own + 1, subs := w.subs + 1, asView := w.asView || asView)
      case FellThrough(original) =>
        w.(own := w.own + 1,
           created := if w.created.None? && op.CreateTexture? && op.onDevice then original else w.created)
  }

  function WindowOf(s0: State, h: seq<Op>, t: ThreadId): Window
    decreases |h|
  {
    if h == [] || Bracket(h[|h| - 1], t) then NEW_WINDOW
    else OneMore(WindowOf(s0, h[..|h| - 1], t), h[|h| - 1], OutcomeAt(s0, h, |h| - 1), t)
  }

  lemma WindowSnoc(h: seq<Op>, op: Op, t: ThreadId)
    ensures WindowStart(h + [op], t) == if Bracket(op, t) then |h| + 1 else WindowStart(h, t)
  {
  }

  lemma OutcomeSnoc(s0: State, h: seq<Op>, op: Op, i: nat)
    requires i <= |h|
    ensures OutcomeAt(s0, h + [op], i) == if i < |h| then OutcomeAt(s0, h, i) else Step(After(s0, h), op).1
    ensures After(s0, h + [op]) == Step(After(s0, h), op).0
  {
    assert (h + [op])[..|h|] == h;
    assert (h + [op])[..i] == h[..i];
  }

  /** How an arm relates to the operation that armed it, if any, and to its window. */
  predicate Matches(arm: Arm, textures: nat, arming: Option<Op>, w: Window) {
    && textures < TWO_64
    && w.subs == (if arm.captured then 1 else 0) && arm.isView == w.asView && (arm.isView ==> arm.captured)
    && arm.event == (if arm.wantEvent then w.first else None)
    && arm.created == (if arm.capture then w.created else None)
    && match arming
       case None => arm == UNARMED
       case Some(op) =>
         && op.DoArm? && arm.armed && (arm.probe ==> !arm.captured)
         && arm.tex == op.tex && arm.probe == op.flags.probe && arm.capture == op.flags.capture
         && arm.wantEvent == (op.flags.event || op.flags.eventShared) && arm.eventShared == op.flags.eventShared
         && arm.seen == w.own % TWO_32
         && arm.eventsSeen == (if arm.wantEvent then w.events % TWO_32 else 0)
         && arm.globalAtArm < TWO_64
         && textures == (arm.globalAtArm + w.own + w.others) % TWO_64
  }

  function Arming(h: seq<Op>, t: ThreadId): Option<Op> {
    if IsArmed(h, t) then Some(ArmingOp(h, t)) else None
  }

  predicate ArmTracks(s0: State, h: seq<Op>, t: ThreadId) {
    var s := After(s0, h);
    Matches(ArmOf(s, t), s.textures, Arming(h, t), WindowOf(s0, h, t))
  }

  lemma AddOneMod(a: nat, n: nat)
    requires n == TWO_64 || n == TWO_32
    ensures (a % n + 1) % n == (a + 1) % n
  {
  }

  lemma OthersMatch(s: State, op: Op, t: ThreadId, arming: Option<Op>, w: Window)
    requires op.t != t && Matches(ArmOf(s, t), s.textures, arming, w)
    ensures var (s', outcome) := Step(s, op);
            Matches(ArmOf(s', t), s'.textures, arming, OneMore(w, op, outcome, t))
  {
    assert ArmOf(Step(s, op).0, t) == ArmOf(s, t);
    AddOneMod(ArmOf(s, t).globalAtArm + w.own + w.others, TWO_64);
  }

  lemma CreationMatches(s: State, op: Op, arming: Option<Op>, w: Window)
    requires op.CreateTexture? && Matches(ArmOf(s, op.t), s.textures, arming, w)
    ensures var (s', outcome) := Step(s, op);
            Matches(ArmOf(s', op.t), s'.textures, arming, OneMore(w, op, outcome, op.t))
  {
    AddOneMod(w.own, TWO_32);
    AddOneMod(ArmOf(s, op.t).globalAtArm + w.own + w.others, TWO_64);
  }

  lemma EventMatches(s: State, op: Op, arming: Option<Op>, w: Window)
    requires (op.CreateEvent? || op.CreateSharedEvent?) && Matches(ArmOf(s, op.t), s.textures, arming, w)
    ensures var (s', outcome) := Step(s, op);
            Matches(ArmOf(s', op.t), s'.textures, arming, OneMore(w, op, outcome, op.t))
  {
    AddOneMod(w.events, TWO_32);
  }

  lemma MatchesSnoc(s0: State, h: seq<Op>, op: Op, t: ThreadId)
    ensures WindowOf(s0, h + [op], t) ==
            if Bracket(op, t) then NEW_WINDOW else OneMore(WindowOf(s0, h, t), op, Step(After(s0, h), op).1, t)
    ensures Arming(h + [op], t) == if !Bracket(op, t) then Arming(h, t) else if op.DoArm? then Some(op) else None
  {
    WindowSnoc(h, op, t);
    OutcomeSnoc(s0, h, op, |h|);
    assert (h + [op])[..|h|] == h;
  }

  lemma SnocTracks(s0: State, h: seq<Op>, op: Op, t: ThreadId)
    requires ArmTracks(s0, h, t)
    ensures ArmTracks(s0, h + [op], t)
  {
    var s, w := After(s0, h), WindowOf(s0, h, t);
    MatchesSnoc(s0, h, op, t);
    OutcomeSnoc(s0, h, op, |h|);
    if op.t != t {
      OthersMatch(s, op, t, Arming(h, t), w);
    } else if op.CreateTexture? {
      CreationMatches(s, op, Arming(h, t), w);
    } else if op.CreateEvent? || op.CreateSharedEvent? {
      EventMatches(s, op, Arming(h, t), w);
    }
  }

  lemma {:induction false} AlwaysTracks(s0: State, h: seq<Op>, t: ThreadId)
    requires Init(s0)
    ensures ArmTracks(s0, h, t)
  {
    if h != [] {
      AlwaysTracks(s0, h[..|h| - 1], t);
      SnocTracks(s0, h[..|h| - 1], h[|h| - 1], t);
      assert h[..|h| - 1] + [h[|h| - 1]] == h;
    }
  }

  // ---- Properties of every history ---------------------------------------------------------------

  /** A thread that is not armed never receives a substitute. */
  lemma UnarmedThreadsAreUntouched(s0: State, h: seq<Op>, i: nat)
    requires Init(s0) && i < |h| && h[i].CreateTexture? && !IsArmed(h[..i], h[i].t)
    ensures OutcomeAt(s0, h, i) == FellThrough(h[i].original)
  {
    AlwaysTracks(s0, h[..i], h[i].t);
  }

  /** Each arm substitutes at most one creation. */
  lemma AtMostOneSubstitution(s0: State, h: seq<Op>, t: ThreadId)
    requires Init(s0)
    ensures WindowOf(s0, h, t).subs <= 1
  {
    AlwaysTracks(s0, h, t);
  }

  /** A substitute is the armed texture, or a view of it, and only for a 2D or 2D-array creation of its
      size, mip count, sample count and layer count, on an arm that is not a probe. It is the texture
      itself exactly if format and type agree too and no view is forced. */
  lemma SubstitutesFit(s0: State, h: seq<Op>, i: nat)
    requires Init(s0) && i < |h| && OutcomeAt(s0, h, i).Substituted?
    ensures h[i].CreateTexture? && IsArmed(h[..i], h[i].t)
    ensures var arming, outcome := ArmingOp(h[..i], h[i].t), OutcomeAt(s0, h, i);
            var desc, shape := h[i].desc, outcome.tex.shape;
            && !arming.flags.probe && arming.tex == Some(outcome.tex)
            && desc.width == shape.width && desc.height == shape.height
            && desc.samples == shape.samples && desc.mips == shape.mips
            && (if desc.kind.Type2DArray? then desc.layers else 1) ==
               (if shape.kind.Type2DArray? then shape.layers else 1)
            && !desc.kind.OtherType?
            && (outcome.asView <==> desc.format != shape.format || desc.kind != shape.kind || h[i].forceView)
  {
    AlwaysTracks(s0, h[..i], h[i].t);
  }

  /** On an arm that is not a probe, a creation is substituted exactly if none was before, it agrees
      with the armed texture in all that, and the view it may need can be made. Any other creation
      falls through to the original selector. */
  lemma FirstFitIsTaken(s0: State, h: seq<Op>, i: nat)
    requires Init(s0) && i < |h| && h[i].CreateTexture? && IsArmed(h[..i], h[i].t)
    requires !ArmingOp(h[..i], h[i].t).flags.probe && ArmingOp(h[..i], h[i].t).tex.Some?
    ensures var desc, shape := h[i].desc, ArmingOp(h[..i], h[i].t).tex.value.shape;
            OutcomeAt(s0, h, i).Substituted? <==>
              && WindowOf(s0, h[..i], h[i].t).subs == 0
              && desc.width == shape.width && desc.height == shape.height
              && desc.samples == shape.samples && desc.mips == shape.mips
              && (if desc.kind.Type2DArray? then desc.layers else 1) ==
                 (if shape.kind.Type2DArray? then shape.layers else 1)
              && !desc.kind.OtherType?
              && (h[i].viewOk || (desc.format == shape.format && desc.kind == shape.kind && !h[i].forceView))
    ensures !OutcomeAt(s0, h, i).Substituted? ==> OutcomeAt(s0, h, i) == FellThrough(h[i].original)
  {
    AlwaysTracks(s0, h[..i], h[i].t);
  }

  /** newEvent hands out a shared event exactly on an arm that asks for one, when no event has been
      handed out in its window yet and the device can make one. Every other creation gets the original
      event. */
  lemma SharedEventExactly(s0: State, h: seq<Op>, i: nat)
    requires Init(s0) && i < |h| && (h[i].CreateEvent? || h[i].CreateSharedEvent?)
    ensures OutcomeAt(s0, h, i) == Event(
              if h[i].CreateEvent? && IsArmed(h[..i], h[i].t) && ArmingOp(h[..i], h[i].t).flags.eventShared
                 && WindowOf(s0, h[..i], h[i].t).first.None? && h[i].shared.Some?
              then h[i].shared else h[i].original)
  {
    AlwaysTracks(s0, h[..i], h[i].t);
  }

  /** What DISARM reports of objects: whether a creation was substituted and by a view, for an event arm
      the first event of its window, for a capturing one the first texture the thread made itself. */
  lemma EventCapture(s0: State, h: seq<Op>, t: ThreadId)
    requires Init(s0) && IsArmed(h, t)
    ensures var flags, w := ArmingOp(h, t).flags, WindowOf(s0, h, t);
            var report := ReportOf(ArmOf(After(s0, h), t), After(s0, h).textures);
            && (report.captured <==> w.subs == 1) && (report.isView <==> w.asView)
            && report.event == (if flags.event || flags.eventShared then w.first else None)
            && report.created == (if flags.capture then w.created else None)
  {
    AlwaysTracks(s0, h, t);
  }

  lemma GlobalSeen(g: nat, n: nat)
    requires g < TWO_64
    ensures (((g + n) % TWO_64 - g) % TWO_64) % TWO_32 == n % TWO_32
  {
  }

  lemma SmallMod(n: nat, own: nat)
    requires own <= n < TWO_32
    ensures n % TWO_32 == n && own % TWO_32 == own
  {
  }

  lemma MatchingReport(arm: Arm, textures: nat, arming: Op, w: Window)
    requires Matches(arm, textures, Some(arming), w)
    ensures var r := ReportOf(arm, textures);
            && r.seen == (if arm.wantEvent then w.events else w.own) % TWO_32
            && r.globalSeen == (w.own + w.others) % TWO_32
            && (!arm.wantEvent && w.own + w.others < TWO_32 ==> r.globalSeen - r.seen == w.others)
  {
    GlobalSeen(arm.globalAtArm, w.own + w.others);
    if w.own + w.others < TWO_32 { SmallMod(w.own + w.others, w.own); }
  }

  /** What DISARM counts: on the arming thread its texture creations, or its event creations on an event
      arm; globally all texture creations since ARM. Without an event the two differ by the creations of
      other threads: as 32-bit numbers always, and exactly below 2^32 creations. */
  lemma ReportCountsOtherThreads(s0: State, h: seq<Op>, t: ThreadId)
    requires Init(s0) && IsArmed(h, t)
    ensures var r, w := ReportOf(ArmOf(After(s0, h), t), After(s0, h).textures), WindowOf(s0, h, t);
            var forEvent := ArmingOp(h, t).flags.event || ArmingOp(h, t).flags.eventShared;
            && r.seen == (if forEvent then w.events else w.own) % TWO_32
            && r.globalSeen == (w.own + w.others) % TWO_32
            && (!forEvent && w.own + w.others < TWO_32 ==> r.globalSeen - r.seen == w.others)
  {
    AlwaysTracks(s0, h, t);
    MatchingReport(ArmOf(After(s0, h), t), After(s0, h).textures, ArmingOp(h, t), WindowOf(s0, h, t));
  }

  // ---- The PE creator ------------------------------------------------------------------------------

  /** create_substituted_texture and its D3D12 twin: the flags it arms with, and whether it succeeds
      given D3D's own result and DISARM's report. */
  function CreatorFlags(control: bool): Flags {
    Flags(control, false, false, control)
  }

  predicate CreatorSucceeds(hr: bool, captured: bool, control: bool) {
    hr && (control || captured)
  }

  predicate NoBracket(h: seq<Op>, t: ThreadId) {
    forall i :: 0 <= i < |h| ==> !Bracket(h[i], t)
  }

  lemma {:induction false} WindowAfterArm(before: seq<Op>, arming: Op, during: seq<Op>)
    requires arming.DoArm? && NoBracket(during, arming.t)
    ensures WindowStart(before + [arming] + during, arming.t) == |before| + 1
  {
    var h := before + [arming] + during;
    if during == [] {
      assert h == before + [arming];
      WindowSnoc(before, arming, arming.t);
    } else {
      var front := during[..|during| - 1];
      WindowAfterArm(before, arming, front);
      assert h[..|h| - 1] == before + [arming] + front;
    }
  }

  /** Whatever other threads do meanwhile, the creator succeeds exactly if D3D did and, outside
      control mode, one creation made during the call got the runtime's texture. In control mode none
      did, and the report names the first texture the thread made itself instead. No event is captured. */
  lemma CreatorSucceedsOnlyIfSubstituted(s0: State, before: seq<Op>, t: ThreadId, tex: Texture, control: bool,
                                         during: seq<Op>, hr: bool)
    requires Init(s0) && NoBracket(during, t)
    ensures var h := before + [DoArm(t, CreatorFlags(control), Some(tex))] + during;
            var report := ReportOf(ArmOf(After(s0, h), t), After(s0, h).textures);
            && (CreatorSucceeds(hr, report.captured, control) <==> hr && (control || WindowOf(s0, h, t).subs == 1))
            && report.created == (if control then WindowOf(s0, h, t).created else None) && report.event.None?
            && (control ==> WindowOf(s0, h, t).subs == 0)
            && (forall i :: |before| < i < |h| && h[i].t == t && OutcomeAt(s0, h, i).Substituted? ==>
                  OutcomeAt(s0, h, i).tex == tex && Fits(h[i].desc, tex.shape))
  {
    var arming := DoArm(t, CreatorFlags(control), Some(tex));
    var h := before + [arming] + during;
    WindowAfterArm(before, arming, during);
    AlwaysTracks(s0, h, t);
    EventCapture(s0, h, t);
    forall i | |before| < i < |h| && h[i].t == t && OutcomeAt(s0, h, i).Substituted?
      ensures OutcomeAt(s0, h, i).tex == tex && Fits(h[i].desc, tex.shape)
    {
      var early := during[..i - |before| - 1];
      assert h[..i] == before + [arming] + early;
      WindowAfterArm(before, arming, early);
      SubstitutesFit(s0, h, i);
    }
  }

  // ---- The hooks as code ---------------------------------------------------------------------------

  class Hooks {
    var textures: nat              // atomic g_n_textures
    var arms: map<ThreadId, Arm>   // the thread-local t_arm of each thread

    ghost function Abs(): State
      reads this
    {
      State(arms, textures)
    }

    constructor ()
      ensures Init(Abs())
    {
      textures, arms := 0, map[];
    }

    /** DMSUBST_OP_ARM. */
    method ArmThread(t: ThreadId, flags: Flags, tex: Option<Texture>)
      modifies this`arms
      ensures Abs() == Step(old(Abs()), DoArm(t, flags, tex)).0
    {
      var arm := UNARMED.(armed := true);
      arm := arm.(probe := flags.probe);
      arm := arm.(wantEvent := flags.event || flags.eventShared, eventShared := flags.eventShared);
      arm := arm.(capture := flags.capture, tex := tex, globalAtArm := textures);
      arms := arms[t := arm];
    }

    /** DMSUBST_OP_DISARM. */
    method DisarmThread(t: ThreadId) returns (report: Report)
      modifies this`arms
      ensures Abs() == Step(old(Abs()), DoDisarm(t)).0
      ensures report == ReportOf(ArmOf(old(Abs()), t), textures)
    {
      var arm := if t in arms then arms[t] else UNARMED;
      var seen := arm.seen;
      if arm.wantEvent { seen := arm.eventsSeen; }
      report := Report(arm.captured, seen, ((textures - arm.globalAtArm) % TWO_64) % TWO_32, arm.isView, arm.event,
                       arm.created);
      arms := arms[t := UNARMED];
    }

    /** A texture-creation hook. */
    method OnTextureCreate(t: ThreadId, desc: Shape, onDevice: bool, viewOk: bool, forceView: bool,
                           original: Option<nat>)
      returns (outcome: Outcome)
      modifies this
      ensures (Abs(), outcome) ==
              Step(old(Abs()), CreateTexture(t, desc, onDevice, viewOk, forceView, original))
    {
      var arm := if t in arms then arms[t] else UNARMED;
      ghost var hooked := TextureHook(arm, CreateTexture(t, desc, onDevice, viewOk, forceView, original));
      textures := (textures + 1) % TWO_64;
      outcome := FellThrough(original);
      if arm.armed {
        var sub := Nothing;
        if !arm.probe && arm.tex.Some? && !arm.captured {
          sub := MakeSubstitute(arm.tex.value, desc, viewOk, forceView);
        }
        arm := arm.(seen := (arm.seen + 1) % TWO_32);
        if sub.Substituted? {
          arm := arm.(captured := true, isView := sub.asView);
          outcome := sub;
        } else if onDevice && arm.capture && arm.created.None? && original.Some? {
          arm := arm.(created := original);
        }
      }
      assert (arm, outcome) == hooked;
      arms := arms[t := arm];
    }

    /** The newEvent hook. */
    method OnNewEvent(t: ThreadId, original: Option<nat>, shared: Option<nat>) returns (event: Option<nat>)
      modifies this`arms
      ensures (Abs(), Event(event)) == Step(old(Abs()), CreateEvent(t, original, shared))
    {
      var arm := if t in arms then arms[t] else UNARMED;
      event := original;
      if arm.armed && arm.eventShared && arm.event.None? && shared.Some? { event := shared; }
      if arm.armed && arm.wantEvent {
        arm := arm.(eventsSeen := (arm.eventsSeen + 1) % TWO_32);
        if arm.event.None? { arm := arm.(event := event); }
      }
      arms := arms[t := arm];
    }

    /** The newSharedEvent hooks. */
    method OnNewSharedEvent(t: ThreadId, original: Option<nat>) returns (event: Option<nat>)
      modifies this`arms
      ensures (Abs(), Event(event)) == Step(old(Abs()), CreateSharedEvent(t, original))
    {
      var arm := if t in arms then arms[t] else UNARMED;
      event := original;
      if arm.armed && arm.wantEvent {
        arm := arm.(eventsSeen := (arm.eventsSeen + 1) % TWO_32);
        if arm.event.None? { arm := arm.(event := event); }
      }
      arms := arms[t := arm];
    }

    /** Whatever a thread does next. */
    method Run(op: Op)
      modifies this
      ensures Abs() == Step(old(Abs()), op).0
    {
      var report, outcome, event;
      match op
      case DoArm(t, flags, tex) => ArmThread(t, flags, tex);
      case DoDisarm(t) => report := DisarmThread(t);
      case CreateTexture(t, desc, onDevice, viewOk, forceView, original) =>
        outcome := OnTextureCreate(t, desc, onDevice, viewOk, forceView, original);
      case CreateSharedEvent(t, original) => event := OnNewSharedEvent(t, original);
      case CreateEvent(t, original, shared) => event := OnNewEvent(t, original, shared);
    }

    /** create_substituted_texture: arm, let D3D create its texture, disarm. `during` is what all
        threads do meanwhile and `hr` is D3D's own verdict; the ghost history is what led here. */
    method CreateSubstituted(t: ThreadId, tex: Texture, control: bool, during: seq<Op>, hr: bool,
                             ghost s0: State, ghost before: seq<Op>)
      returns (ok: bool)
      requires Init(s0) && Abs() == After(s0, before) && NoBracket(during, t)
      modifies this
      ensures var h := before + [DoArm(t, CreatorFlags(control), Some(tex))] + during;
              && Abs() == After(s0, h + [DoDisarm(t)])
              && (ok <==> hr && (control || WindowOf(s0, h, t).subs == 1))
    {
      ghost var arming := DoArm(t, CreatorFlags(control), Some(tex));
      ArmThread(t, Flags(control, false, false, control), Some(tex));
      OutcomeSnoc(s0, before, arming, 0);
      ghost var h := before + [arming];
      for i := 0 to |during|
        invariant h == before + [arming] + during[..i] && Abs() == After(s0, h)
      {
        Run(during[i]);
        OutcomeSnoc(s0, h, during[i], 0);
        h := h + [during[i]];
        assert during[..i + 1] == during[..i] + [during[i]];
      }
      assert during[..|during|] == during;
      CreatorSucceedsOnlyIfSubstituted(s0, before, t, tex, control, during, hr);
      OutcomeSnoc(s0, h, DoDisarm(t), 0);
      var report := DisarmThread(t);
      ok := hr && (control || report.captured);
    }
  }
}
