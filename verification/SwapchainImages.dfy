/** Ownership of imported swapchain textures, as a ledger: every import mints one reference, which
    is released once. */
module SwapchainImages {
  import opened Prelude

  type Ref = nat

  /** `images` is the cache of the first successful fill. */
  datatype Swapchain = Swapchain(id: nat, images: Option<seq<Ref>>)

  /** One session: its swapchain list in order, the next fresh id and reference, and every release so
      far, in order. */
  datatype Store = Store(live: seq<Swapchain>, nextId: nat, nextRef: nat, released: seq<Ref>)

  const EMPTY := Store([], 0, 0, [])

  /** `failAt`: the import that fails, if any. */
  datatype Action =
    | Create
    | Fill(id: nat, count: nat, failAt: Option<nat>)
    | DestroySwapchain(id: nat)
    | Teardown

  function Range(from: nat, count: nat): (r: seq<Ref>)
    ensures |r| == count
  {
    seq(count, i requires 0 <= i < count => from + i)
  }

  function ImagesOf(c: Swapchain): seq<Ref> {
    if c.images.Some? then c.images.value else []
  }

  function Held(live: seq<Swapchain>): seq<Ref> {
    if live == [] then [] else ImagesOf(live[0]) + Held(live[1..])
  }

  /** Position of a live swapchain, or the length of the list. */
  function IndexOf(live: seq<Swapchain>, id: nat): (i: nat)
    ensures i <= |live| && (i < |live| ==> live[i].id == id)
    ensures forall j :: 0 <= j < i ==> live[j].id != id
  {
    if live == [] || live[0].id == id then 0 else 1 + IndexOf(live[1..], id)
  }

  predicate IsLive(s: Store, id: nat) {
    IndexOf(s.live, id) < |s.live|
  }

  predicate Fails(count: nat, failAt: Option<nat>) {
    failAt.Some? && failAt.value < count
  }

  function WithImages(live: seq<Swapchain>, i: nat, images: seq<Ref>): seq<Swapchain>
    requires i < |live|
  {
    live[i := live[i].(images := Some(images))]
  }

  /** A fill that fails at image k gives back the k references it already had, and caches nothing. */
  function FailedFill(s: Store, k: nat): Store {
    s.(nextRef := s.nextRef + k, released := s.released + Range(s.nextRef, k))
  }

  function FullFill(s: Store, i: nat, count: nat): Store
    requires i < |s.live|
  {
    s.(live := WithImages(s.live, i, Range(s.nextRef, count)), nextRef := s.nextRef + count)
  }

  function Filled(s: Store, i: nat, count: nat, failAt: Option<nat>): Store
    requires i < |s.live|
  {
    if s.live[i].images.Some? then s
    else if Fails(count, failAt) then FailedFill(s, failAt.value)
    else FullFill(s, i, count)
  }

  function Removed(s: Store, i: nat): Store
    requires i < |s.live|
  {
    s.(live := s.live[..i] + s.live[i + 1..], released := s.released + ImagesOf(s.live[i]))
  }

  function Apply(s: Store, a: Action): Store {
    match a
    case Create => s.(live := s.live + [Swapchain(s.nextId, None)], nextId := s.nextId + 1)
    case Fill(id, count, failAt) => if IsLive(s, id) then Filled(s, IndexOf(s.live, id), count, failAt) else s
    case DestroySwapchain(id) => if IsLive(s, id) then Removed(s, IndexOf(s.live, id)) else s
    case Teardown => s.(live := [], released := s.released + Held(s.live))
  }

  function After(s: Store, actions: seq<Action>): Store {
    if actions == [] then s else Apply(After(s, actions[..|actions| - 1]), actions[|actions| - 1])
  }

  // ---- Conservation ---------------------------------------------------------------------------

  lemma Associative(a: seq<Ref>, b: seq<Ref>, c: seq<Ref>)
    ensures a + (b + c) == a + b + c
  {
  }

  lemma {:induction false} HeldAppend(a: seq<Swapchain>, b: seq<Swapchain>)
    ensures Held(a + b) == Held(a) + Held(b)
  {
    if a == [] {
      assert a + b == b;
    } else {
      HeldAppend(a[1..], b);
      assert (a + b)[0] == a[0] && (a + b)[1..] == a[1..] + b;
      Associative(ImagesOf(a[0]), Held(a[1..]), Held(b));
    }
  }

  lemma HeldOne(c: Swapchain)
    ensures Held([c]) == ImagesOf(c)
  {
  }

  lemma HeldStep(live: seq<Swapchain>, n: nat)
    requires n < |live|
    ensures Held(live[..n + 1]) == Held(live[..n]) + ImagesOf(live[n])
  {
    assert live[..n + 1] == live[..n] + [live[n]];
    HeldAppend(live[..n], [live[n]]);
    HeldOne(live[n]);
  }

  /** How often a reference occurs. */
  function Count(s: seq<Ref>, r: Ref): nat {
    if s == [] then 0 else (if s[0] == r then 1 else 0) + Count(s[1..], r)
  }

  lemma {:induction false} CountAppend(a: seq<Ref>, b: seq<Ref>, r: Ref)
    ensures Count(a + b, r) == Count(a, r) + Count(b, r)
  {
    if a == [] {
      assert a + b == b;
    } else {
      CountAppend(a[1..], b, r);
      assert (a + b)[0] == a[0] && (a + b)[1..] == a[1..] + b;
    }
  }

  lemma {:induction false} CountRange(from: nat, count: nat, r: Ref)
    ensures Count(Range(from, count), r) == if from <= r < from + count then 1 else 0
    decreases count
  {
    if count != 0 {
      CountRange(from + 1, count - 1, r);
      assert Range(from, count)[1..] == Range(from + 1, count - 1);
    }
  }

  lemma CountHeld(left: seq<Swapchain>, c: Swapchain, right: seq<Swapchain>, r: Ref)
    ensures Count(Held(left + [c] + right), r) == Count(Held(left), r) + Count(ImagesOf(c), r) + Count(Held(right), r)
  {
    HeldAppend(left + [c], right);
    HeldAppend(left, [c]);
    HeldOne(c);
    CountAppend(Held(left) + ImagesOf(c), Held(right), r);
    CountAppend(Held(left), ImagesOf(c), r);
  }

  /** How often a reference has been released or is held. */
  function Uses(s: Store, r: Ref): nat {
    Count(s.released, r) + Count(Held(s.live), r)
  }

  predicate IdsFresh(s: Store) {
    && (forall i :: 0 <= i < |s.live| ==> s.live[i].id < s.nextId)
    && (forall i, j :: 0 <= i < j < |s.live| ==> s.live[i].id < s.live[j].id)
  }

  /** A step mints the references between the two values of nextRef, and changes the uses of no other. */
  ghost predicate Mints(s: Store, s': Store, r: Ref) {
    s.nextRef <= s'.nextRef && Uses(s', r) == Uses(s, r) + if s.nextRef <= r < s'.nextRef then 1 else 0
  }

  lemma FailedFillMints(s: Store, k: nat, r: Ref)
    ensures Mints(s, FailedFill(s, k), r)
  {
    CountAppend(s.released, Range(s.nextRef, k), r);
    CountRange(s.nextRef, k, r);
  }

  lemma FullFillMints(s: Store, i: nat, count: nat, r: Ref)
    requires i < |s.live| && s.live[i].images.None?
    ensures Mints(s, FullFill(s, i, count), r)
  {
    var left, right := s.live[..i], s.live[i + 1..];
    var filled := s.live[i].(images := Some(Range(s.nextRef, count)));
    assert s.live == left + [s.live[i]] + right;
    assert FullFill(s, i, count).live == left + [filled] + right;
    CountHeld(left, s.live[i], right, r);
    CountHeld(left, filled, right, r);
    CountRange(s.nextRef, count, r);
  }

  lemma RemoveMintsNothing(s: Store, i: nat, r: Ref)
    requires i < |s.live|
    ensures Mints(s, Removed(s, i), r)
  {
    var left, right := s.live[..i], s.live[i + 1..];
    assert s.live == left + [s.live[i]] + right;
    CountHeld(left, s.live[i], right, r);
    HeldAppend(left, right);
    CountAppend(Held(left), Held(right), r);
    CountAppend(s.released, ImagesOf(s.live[i]), r);
  }

  lemma CreateMintsNothing(s: Store, r: Ref)
    ensures Mints(s, Apply(s, Create), r)
  {
    var added := Swapchain(s.nextId, None);
    HeldAppend(s.live, [added]);
    HeldOne(added);
    assert Held(s.live) + [] == Held(s.live);
  }

  lemma StepMints(s: Store, a: Action, r: Ref)
    ensures Mints(s, Apply(s, a), r)
  {
    match a
    case Create => CreateMintsNothing(s, r);
    case Fill(id, count, failAt) =>
      if IsLive(s, id) {
        var i := IndexOf(s.live, id);
        if s.live[i].images.Some? {
        } else if Fails(count, failAt) {
          FailedFillMints(s, failAt.value, r);
        } else {
          FullFillMints(s, i, count, r);
        }
      }
    case DestroySwapchain(id) => if IsLive(s, id) { RemoveMintsNothing(s, IndexOf(s.live, id), r); }
    case Teardown => CountAppend(s.released, Held(s.live), r);
  }

  lemma RemoveKeepsIds(s: Store, i: nat)
    requires IdsFresh(s) && i < |s.live|
    ensures IdsFresh(Removed(s, i))
  {
  }

  lemma StepKeepsIds(s: Store, a: Action)
    requires IdsFresh(s)
    ensures IdsFresh(Apply(s, a)) && s.nextId <= Apply(s, a).nextId
  {
    if a.DestroySwapchain? && IsLive(s, a.id) { RemoveKeepsIds(s, IndexOf(s.live, a.id)); }
  }

  lemma {:induction false} RunKeepsIdsFresh(actions: seq<Action>)
    ensures IdsFresh(After(EMPTY, actions))
  {
    if actions != [] {
      RunKeepsIdsFresh(actions[..|actions| - 1]);
      StepKeepsIds(After(EMPTY, actions[..|actions| - 1]), actions[|actions| - 1]);
    }
  }

  /** Over any run, each imported reference has been released exactly once, or is held by exactly one
      place in one live cache and has not been released; nothing else has been released. */
  lemma {:induction false} EachReferenceOnce(actions: seq<Action>, r: Ref)
    ensures var s := After(EMPTY, actions);
            Count(s.released, r) + Count(Held(s.live), r) == if r < s.nextRef then 1 else 0
  {
    if actions != [] {
      EachReferenceOnce(actions[..|actions| - 1], r);
      StepMints(After(EMPTY, actions[..|actions| - 1]), actions[|actions| - 1], r);
    }
  }

  /** After teardown everything ever imported has been released exactly once. */
  lemma TeardownReleasesEverything(actions: seq<Action>, r: Ref)
    ensures var s := After(EMPTY, actions + [Teardown]);
            Count(s.released, r) == if r < s.nextRef then 1 else 0
  {
    EachReferenceOnce(actions + [Teardown], r);
    assert (actions + [Teardown])[..|actions|] == actions;
    assert Held(After(EMPTY, actions + [Teardown]).live) == [];
  }

  lemma LiveIdIsOld(actions: seq<Action>, id: nat)
    requires IsLive(After(EMPTY, actions), id)
    ensures id < After(EMPTY, actions).nextId
  {
    RunKeepsIdsFresh(actions);
  }

  /** A cached image set never changes while its swapchain lives. */
  lemma {:induction false} CacheIsStable(before: seq<Action>, after: seq<Action>, id: nat)
    requires var s := After(EMPTY, before); IsLive(s, id) && s.live[IndexOf(s.live, id)].images.Some?
    ensures var s, s' := After(EMPTY, before), After(EMPTY, before + after);
            IsLive(s', id) ==> s'.live[IndexOf(s'.live, id)] == s.live[IndexOf(s.live, id)]
    decreases |after|
  {
    if after == [] {
      assert before + after == before;
    } else {
      var front, a := after[..|after| - 1], after[|after| - 1];
      assert (before + after)[..|before + after| - 1] == before + front;
      assert After(EMPTY, before + after) == Apply(After(EMPTY, before + front), a);
      CacheIsStable(before, front, id);
      RunKeepsIdsFresh(before + front);
      LiveIdIsOld(before, id);
      RunKeepsIds(before, front);
      if IsLive(After(EMPTY, before + after), id) { StepKeepsCache(After(EMPTY, before + front), a, id); }
    }
  }

  lemma {:induction false} RunKeepsIds(before: seq<Action>, after: seq<Action>)
    ensures After(EMPTY, before).nextId <= After(EMPTY, before + after).nextId
    decreases |after|
  {
    if after == [] {
      assert before + after == before;
    } else {
      assert (before + after)[..|before + after| - 1] == before + after[..|after| - 1];
      RunKeepsIds(before, after[..|after| - 1]);
    }
  }

  /** One step neither brings a swapchain back nor touches a filled cache. */
  lemma StepKeepsCache(s: Store, a: Action, id: nat)
    requires IdsFresh(s) && id < s.nextId && IsLive(Apply(s, a), id)
    ensures IsLive(s, id)
    ensures var c, c' := s.live[IndexOf(s.live, id)], Apply(s, a).live[IndexOf(Apply(s, a).live, id)];
            c.images.Some? ==> c' == c
  {
    var k := IndexOf(Apply(s, a).live, id);
    match a
    case Create => SameIndex(s.live, k, id);
    case Fill(f, count, failAt) =>
      if IsLive(s, f) { FillKeepsCache(s, IndexOf(s.live, f), count, failAt, id); }
    case DestroySwapchain(d) =>
      if IsLive(s, d) { RemoveKeepsCache(s, IndexOf(s.live, d), id); }
    case Teardown =>
  }

  lemma FillKeepsCache(s: Store, i: nat, count: nat, failAt: Option<nat>, id: nat)
    requires IdsFresh(s) && i < |s.live| && IsLive(Filled(s, i, count, failAt), id)
    ensures IsLive(s, id)
    ensures var c, c' := s.live[IndexOf(s.live, id)],
                         Filled(s, i, count, failAt).live[IndexOf(Filled(s, i, count, failAt).live, id)];
            c.images.Some? ==> c' == c
  {
  }

  lemma RemoveKeepsCache(s: Store, i: nat, id: nat)
    requires IdsFresh(s) && i < |s.live| && IsLive(Removed(s, i), id)
    ensures IsLive(s, id)
    ensures s.live[IndexOf(s.live, id)] == Removed(s, i).live[IndexOf(Removed(s, i).live, id)]
  {
    var k := IndexOf(Removed(s, i).live, id);
    SameIndex(s.live, if k < i then k else k + 1, id);
  }

  lemma SameIndex(live: seq<Swapchain>, k: nat, id: nat)
    requires k < |live| && live[k].id == id
    requires forall i, j :: 0 <= i < j < |live| ==> live[i].id < live[j].id
    ensures IndexOf(live, id) == k
  {
  }

  // ---- When a texture is released ---------------------------------------------------------------

  lemma CountPositive(s: seq<Ref>, r: Ref)
    requires r in s
    ensures Count(s, r) > 0
  {
    var i :| 0 <= i < |s| && s[i] == r;
    assert s == s[..i] + s[i..];
    CountAppend(s[..i], s[i..], r);
  }

  /** The images of a live swapchain. */
  function CacheOf(s: Store, id: nat): seq<Ref>
    requires IsLive(s, id)
  {
    ImagesOf(s.live[IndexOf(s.live, id)])
  }

  lemma CacheIsHeld(s: Store, id: nat, r: Ref)
    requires IsLive(s, id) && r in CacheOf(s, id)
    ensures Count(Held(s.live), r) > 0
  {
    var i := IndexOf(s.live, id);
    assert s.live == s.live[..i] + [s.live[i]] + s.live[i + 1..];
    CountHeld(s.live[..i], s.live[i], s.live[i + 1..], r);
    CountPositive(CacheOf(s, id), r);
  }

  /** What has been released stays released. */
  lemma StepKeepsReleased(s: Store, a: Action, r: Ref)
    ensures Count(Apply(s, a).released, r) >= Count(s.released, r)
  {
    match a
    case Create =>
    case Fill(id, count, failAt) =>
      if Fails(count, failAt) { CountAppend(s.released, Range(s.nextRef, failAt.value), r); }
    case DestroySwapchain(id) =>
      if IsLive(s, id) { CountAppend(s.released, CacheOf(s, id), r); }
    case Teardown => CountAppend(s.released, Held(s.live), r);
  }

  /** A step that takes a swapchain off the list releases its cache. */
  lemma StepReleases(s: Store, a: Action, id: nat, r: Ref)
    requires IsLive(s, id) && r in CacheOf(s, id)
    ensures IsLive(Apply(s, a), id) || Count(Apply(s, a).released, r) > 0
  {
    var k := IndexOf(s.live, id);
    match a
    case Create => assert Apply(s, a).live[k].id == id;
    case Fill(_, _, _) => assert Apply(s, a).live[k].id == id;
    case DestroySwapchain(d) =>
      if d == id {
        CountAppend(s.released, CacheOf(s, id), r);
        CountPositive(CacheOf(s, id), r);
      } else if IsLive(s, d) {
        assert Apply(s, a).live[if k < IndexOf(s.live, d) then k else k - 1].id == id;
      }
    case Teardown =>
      CountAppend(s.released, Held(s.live), r);
      CacheIsHeld(s, id, r);
  }

  lemma {:induction false} RunKeepsReleased(before: seq<Action>, after: seq<Action>, r: Ref)
    ensures Count(After(EMPTY, before + after).released, r) >= Count(After(EMPTY, before).released, r)
    decreases |after|
  {
    if after == [] {
      assert before + after == before;
    } else {
      var front := after[..|after| - 1];
      RunKeepsReleased(before, front, r);
      assert (before + after)[..|before + after| - 1] == before + front;
      var s, a := After(EMPTY, before + front), after[|after| - 1];
      assert After(EMPTY, before + after) == Apply(s, a);
      StepKeepsReleased(s, a, r);
    }
  }

  lemma {:induction false} GoneMeansReleased(before: seq<Action>, after: seq<Action>, id: nat, r: Ref)
    requires var s := After(EMPTY, before); IsLive(s, id) && r in CacheOf(s, id)
    ensures var s' := After(EMPTY, before + after);
            if IsLive(s', id) then r in CacheOf(s', id) else Count(s'.released, r) > 0
    decreases |after|
  {
    if after == [] {
      assert before + after == before;
    } else {
      var front, a := after[..|after| - 1], after[|after| - 1];
      GoneMeansReleased(before, front, id, r);
      assert (before + after)[..|before + after| - 1] == before + front;
      var s := After(EMPTY, before + front);
      StepKeepsReleased(s, a, r);
      if IsLive(Apply(s, a), id) {
        CacheIsStable(before, after, id);
      } else if IsLive(s, id) {
        StepReleases(s, a, id, r);
      }
    }
  }

  /** The references a first fill imports, whether or not it succeeds. */
  predicate ImportedBy(s: Store, fill: Action, r: Ref)
    requires fill.Fill?
  {
    && IsLive(s, fill.id) && s.live[IndexOf(s.live, fill.id)].images.None?
    && s.nextRef <= r < s.nextRef + if Fails(fill.count, fill.failAt) then fill.failAt.value else fill.count
  }

  lemma FilledIsLive(s: Store, fill: Action, r: Ref)
    requires fill.Fill? && ImportedBy(s, fill, r) && !Fails(fill.count, fill.failAt)
    ensures IsLive(Apply(s, fill), fill.id) && r in CacheOf(Apply(s, fill), fill.id)
  {
    var i := IndexOf(s.live, fill.id);
    assert Apply(s, fill).live[i].id == fill.id;
    assert Range(s.nextRef, fill.count)[r - s.nextRef] == r;
    assert forall j :: 0 <= j < i ==> Apply(s, fill).live[j] == s.live[j];
  }

  /** Whatever happens later, an imported texture is released, once, exactly if its fill failed or its
      swapchain is gone; until then it is held, once. */
  lemma ReleasedExactlyWhenGone(before: seq<Action>, fill: Action, after: seq<Action>, r: Ref)
    requires fill.Fill? && ImportedBy(After(EMPTY, before), fill, r)
    ensures var s := After(EMPTY, before + [fill] + after);
            var kept := !Fails(fill.count, fill.failAt) && IsLive(s, fill.id);
            && Count(s.released, r) == (if kept then 0 else 1)
            && Count(Held(s.live), r) == (if kept then 1 else 0)
  {
    var run, s0 := before + [fill], After(EMPTY, before);
    assert run[..|run| - 1] == before;
    var s := After(EMPTY, run + after);
    EachReferenceOnce(run + after, r);
    if Fails(fill.count, fill.failAt) {
      CountAppend(s0.released, Range(s0.nextRef, fill.failAt.value), r);
      CountRange(s0.nextRef, fill.failAt.value, r);
      RunKeepsReleased(run, after, r);
    } else {
      FilledIsLive(s0, fill, r);
      GoneMeansReleased(run, after, fill.id, r);
      if IsLive(s, fill.id) { CacheIsHeld(s, fill.id, r); }
    }
  }
}
