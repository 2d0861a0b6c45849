/** The intrusive circular list of a session's swapchains, and the session code that owns it. Each
    method is proved against the ledger of SwapchainImages. */
module SwapchainList {
  import opened Prelude
  import opened SwapchainImages

  /** A wrapper with its embedded list entry; the session's head is one whose payload is unused. */
  class Link {
    var next: Link
    var prev: Link
    const id: nat
    var images: Option<seq<Ref>>

    constructor (id: nat)
      ensures next == prev == this && this.id == id && images.None?
    {
      this.id, images := id, None;
      next, prev := this, this;
    }
  }

  /** Position after i on a ring of n. */
  function Succ(i: nat, n: nat): nat
    requires i < n
  {
    if i + 1 == n then 0 else i + 1
  }

  /** The pointers describe exactly this cycle of distinct links. */
  ghost predicate Ring(ring: seq<Link>)
    reads ring
  {
    && ring != []
    && (forall i, j :: 0 <= i < j < |ring| ==> ring[i] != ring[j])
    && (forall i :: 0 <= i < |ring| ==> ring[i].next == ring[Succ(i, |ring|)] && ring[Succ(i, |ring|)].prev == ring[i])
  }

  /** list_add_tail. */
  method ListAddTail(head: Link, entry: Link, ghost ring: seq<Link>, ghost last: Link)
    requires Ring(ring) && ring[0] == head && last == ring[|ring| - 1] && entry !in ring
    modifies head`prev, last`next, entry`next, entry`prev
    ensures Ring(ring + [entry])
  {
    assert ring[Succ(|ring| - 1, |ring|)] == head && head.prev == last;
    entry.prev := head.prev;
    entry.next := head;
    head.prev.next := entry;
    head.prev := entry;
    ghost var grown := ring + [entry];
    forall i | 0 <= i < |grown|
      ensures grown[i].next == grown[Succ(i, |grown|)] && grown[Succ(i, |grown|)].prev == grown[i]
    {
      if i < |ring| - 1 {
        assert ring[i].next == ring[Succ(i, |ring|)] && ring[Succ(i, |ring|)].prev == ring[i];
      }
    }
  }

  /** list_remove; the head, at position 0, stays. */
  method ListRemove(entry: Link, ghost ring: seq<Link>, ghost k: nat, ghost before: Link, ghost after: Link)
    requires Ring(ring) && 0 < k < |ring| && ring[k] == entry
    requires before == ring[k - 1] && after == ring[Succ(k, |ring|)]
    modifies before`next, after`prev, entry`next, entry`prev
    ensures Ring(ring[..k] + ring[k + 1..])
    ensures entry.next == entry.prev == entry
  {
    ghost var n := |ring|;
    assert Succ(k - 1, n) == k && entry.prev == ring[k - 1] && entry.next == ring[Succ(k, n)];
    entry.prev.next := entry.next;
    entry.next.prev := entry.prev;
    entry.next := entry;
    entry.prev := entry;
    ghost var left := ring[..k] + ring[k + 1..];
    forall i | 0 <= i < |left|
      ensures left[i].next == left[Succ(i, |left|)] && left[Succ(i, |left|)].prev == left[i]
    {
      ghost var j := if i < k then i else i + 1;
      assert left[i] == ring[j];
      assert left[Succ(i, |left|)] == if j == k - 1 then ring[Succ(k, n)] else ring[Succ(j, n)];
    }
  }

  /** The swapchains on a list, as the ledger sees them. */
  ghost function Contents(links: seq<Link>): seq<Swapchain>
    reads links
  {
    seq(|links|, i requires 0 <= i < |links| reads links => Swapchain(links[i].id, links[i].images))
  }

  lemma ContentsAppend(a: seq<Link>, b: seq<Link>)
    ensures Contents(a + b) == Contents(a) + Contents(b)
  {
  }

  /** Writing one link's cache changes its entry alone. */
  lemma ContentsFilled(links: seq<Link>, link: Link, i: nat, before: seq<Swapchain>, images: seq<Ref>)
    requires i < |links| == |before| && links[i] == link && link.images == Some(images)
    requires forall j :: 0 <= j < |links| && j != i ==> links[j] != link
    requires before[i].id == link.id
    requires forall j :: 0 <= j < |links| && j != i ==> before[j] == Swapchain(links[j].id, links[j].images)
    ensures Contents(links) == WithImages(before, i, images)
  {
  }

  datatype XrResult = Success | SizeInsufficient | RuntimeFailure | OutOfMemory | HostError(code: int)

  /** A unix call: whether it ran at all, the XrResult it left behind (0 is XR_SUCCESS, -11
      XR_ERROR_SIZE_INSUFFICIENT), and the host's image count. */
  datatype HostAnswer = HostAnswer(ran: bool, code: int, count: nat)

  function ResultOf(code: int): XrResult {
    if code == 0 then Success else if code == -11 then SizeInsufficient else HostError(code)
  }

  /** What exporting the host's images for a buffer of this capacity comes to. */
  function ExportResult(host: HostAnswer, capacity: nat): XrResult {
    if !host.ran then RuntimeFailure
    else if host.code != 0 then ResultOf(host.code)
    else if host.count > capacity then SizeInsufficient
    else Success
  }

  class Session {
    const head: Link
    ghost var ring: seq<Link>
    ghost var released: seq<Ref>
    var nextId: nat
    var nextRef: nat   // the next texture D3D will hand out

    ghost predicate Valid()
      reads this, ring
    {
      Ring(ring) && ring[0] == head && IdsFresh(Abs())
    }

    ghost function Abs(): Store
      reads this, ring
      requires ring != []
    {
      Store(Contents(ring[1..]), nextId, nextRef, released)
    }

    constructor ()
      ensures Valid() && Abs() == EMPTY && fresh(ring)
    {
      var h := new Link(0);
      head := h;
      ring := [h];
      nextId, nextRef, released := 0, 0, [];
      new;
      assert Succ(0, 1) == 0;
      assert Abs().live == [];
    }

    /** The locked part of xrCreateSwapchain. */
    method LinkIn(swapchain: Link)
      requires Ring(ring) && ring[0] == head && swapchain !in ring
      modifies this`ring, ring, swapchain`next, swapchain`prev
      ensures ring == old(ring) + [swapchain] && Ring(ring) && ring[0] == head
      ensures Contents(ring[1..]) == old(Contents(ring[1..])) + [Swapchain(swapchain.id, swapchain.images)]
    {
      ghost var links, live := ring, Contents(ring[1..]);
      ListAddTail(head, swapchain, ring, ring[|ring| - 1]);
      ring := ring + [swapchain];
      assert ring[1..] == links[1..] + [swapchain];
      ContentsAppend(links[1..], [swapchain]);
      assert Contents(links[1..]) == live;
    }

    /** xrCreateSwapchain, once the host has made its swapchain. */
    method CreateSwapchain() returns (swapchain: Link)
      requires Valid()
      modifies this, ring
      ensures Valid() && Abs() == Apply(old(Abs()), Create)
      ensures ring == old(ring) + [swapchain] && fresh(swapchain) && swapchain.images.None?
      ensures swapchain.id == old(nextId) && nextId == old(nextId) + 1
    {
      ghost var before := Abs();
      StepKeepsIds(before, Create);
      swapchain := new Link(nextId);
      assert Contents(ring[1..]) == before.live;
      LinkIn(swapchain);
      nextId := nextId + 1;
      assert Abs() == Apply(before, Create);
    }

    lemma Position(k: nat)
      requires Valid() && 0 < k < |ring|
      ensures IsLive(Abs(), ring[k].id) && IndexOf(Abs().live, ring[k].id) == k - 1
    {
      SameIndex(Abs().live, k - 1, ring[k].id);
    }

    lemma FillIs(k: nat, count: nat, failAt: Option<nat>)
      requires Valid() && 0 < k < |ring| && ring[k].images.None?
      ensures var s' := Apply(Abs(), Fill(ring[k].id, count, failAt));
              && IdsFresh(s')
              && s' == if Fails(count, failAt) then FailedFill(Abs(), failAt.value) else FullFill(Abs(), k - 1, count)
    {
      Position(k);
      StepKeepsIds(Abs(), Fill(ring[k].id, count, failAt));
    }

    /** release_imported_d3d11_textures. */
    method ReleaseImported(images: seq<Ref>)
      modifies this`released
      ensures released == old(released) + images
    {
      for i := 0 to |images|
        invariant released == old(released) + images[..i]
      {
        released := released + [images[i]];
        assert images[..i + 1] == images[..i] + [images[i]];
      }
      assert images[..|images|] == images;
    }

    method ReleaseCache(link: Link)
      modifies this`released
      ensures released == old(released) + ImagesOf(Swapchain(link.id, link.images))
    {
      assert released + [] == released;
      if link.images.Some? { ReleaseImported(link.images.value); }
    }

    /** The locked part of xrDestroySwapchain. */
    method Unlink(swapchain: Link, ghost k: nat)
      requires Ring(ring) && ring[0] == head && 0 < k < |ring| && ring[k] == swapchain
      modifies this`ring, ring
      ensures ring == old(ring)[..k] + old(ring)[k + 1..]
      ensures Ring(ring) && ring[0] == head && swapchain.images == old(swapchain.images)
      ensures Contents(ring[1..]) == old(Contents(ring[1..]))[..k - 1] + old(Contents(ring[1..]))[k..]
    {
      ghost var links, live := ring, Contents(ring[1..]);
      ListRemove(swapchain, ring, k, ring[k - 1], ring[Succ(k, |ring|)]);
      ring := ring[..k] + ring[k + 1..];
      assert ring[1..] == links[1..k] + links[k + 1..];
      ContentsAppend(links[1..k], links[k + 1..]);
      assert Contents(links[1..k]) == live[..k - 1] && Contents(links[k + 1..]) == live[k..];
    }

    /** xrDestroySwapchain, whatever the host answered. */
    method DestroySwapchain(swapchain: Link, ghost k: nat)
      requires Valid() && 0 < k < |ring| && ring[k] == swapchain
      modifies this`ring, this`released, ring
      ensures Valid() && Abs() == Apply(old(Abs()), SwapchainImages.DestroySwapchain(swapchain.id))
      ensures ring == old(ring)[..k] + old(ring)[k + 1..]
    {
      ghost var before := Abs();
      Position(k);
      assert before.live[k - 1] == Swapchain(swapchain.id, swapchain.images);
      StepKeepsIds(before, SwapchainImages.DestroySwapchain(swapchain.id));
      Unlink(swapchain, k);
      ReleaseCache(swapchain);
      assert Abs() == Removed(before, k - 1);
    }

    /** The import loop of the first fill; None if an import fails, after giving back those before it. */
    method Import(count: nat, failAt: Option<nat>) returns (images: Option<seq<Ref>>)
      modifies this`nextRef, this`released
      ensures images == if Fails(count, failAt) then None else Some(Range(old(nextRef), count))
      ensures nextRef == old(nextRef) + if Fails(count, failAt) then failAt.value else count
      ensures released == old(released) +
                          if Fails(count, failAt) then Range(old(nextRef), failAt.value) else []
    {
      var imported: seq<Ref> := [];
      for i := 0 to count
        invariant failAt.Some? ==> i <= failAt.value
        invariant imported == Range(old(nextRef), i) && nextRef == old(nextRef) + i && released == old(released)
      {
        if failAt == Some(i) {
          ReleaseImported(imported);
          return None;
        }
        imported := imported + [nextRef];
        nextRef := nextRef + 1;
      }
      images := Some(imported);
    }

    method Cache(swapchain: Link, images: seq<Ref>, ghost k: nat)
      requires Ring(ring) && 0 < k < |ring| && ring[k] == swapchain
      modifies swapchain`images
      ensures Ring(ring) && swapchain.images == Some(images)
      ensures Contents(ring[1..]) == WithImages(old(Contents(ring[1..])), k - 1, images)
    {
      swapchain.images := Some(images);
      ContentsFilled(ring[1..], swapchain, k - 1, old(Contents(ring[1..])), images);
    }

    /** The first fill, once the host's images are exported. */
    method FirstFill(swapchain: Link, count: nat, failAt: Option<nat>, ghost k: nat) returns (ok: bool)
      requires Valid() && 0 < k < |ring| && ring[k] == swapchain && swapchain.images.None?
      modifies this`nextRef, this`released, swapchain`images
      ensures Valid() && Abs() == Apply(old(Abs()), Fill(swapchain.id, count, failAt))
      ensures ok == !Fails(count, failAt)
      ensures swapchain.images == if ok then Some(Range(old(nextRef), count)) else None
    {
      FillIs(k, count, failAt);
      ghost var live := Contents(ring[1..]);
      var images := Import(count, failAt);
      ok := images.Some?;
      assert Contents(ring[1..]) == live;
      if ok { Cache(swapchain, images.value, k); }
    }

    /** The part of xrEnumerateSwapchainImages under swapchain_lock. */
    method FillLocked(swapchain: Link, capacity: nat, host: HostAnswer, failAt: Option<nat>,
                      scratch: bool, memory: bool, ghost k: nat)
      returns (result: XrResult, count: Option<nat>)
      requires Valid() && 0 < k < |ring| && ring[k] == swapchain && swapchain.images.None?
      modifies this`nextRef, this`released, swapchain`images
      ensures Valid()
      ensures Abs() == if !scratch || ExportResult(host, capacity) != Success || !memory then old(Abs())
                       else Apply(old(Abs()), Fill(swapchain.id, host.count, failAt))
      ensures result == if !scratch then OutOfMemory
                        else if ExportResult(host, capacity) != Success then ExportResult(host, capacity)
                        else if !memory then OutOfMemory
                        else if Fails(host.count, failAt) then RuntimeFailure
                        else Success
      ensures swapchain.images.Some? <==> result == Success
      ensures result == Success ==> |swapchain.images.value| == host.count <= capacity
      ensures count == if result != SizeInsufficient then None
                       else Some(if host.code == 0 then host.count else capacity)
    {
      if !scratch { return OutOfMemory, None; }
      if !host.ran { return RuntimeFailure, None; }
      if host.code == 0 && host.count > capacity { return SizeInsufficient, Some(host.count); }
      if host.code != 0 {
        return ResultOf(host.code), if host.code == -11 then Some(capacity) else None;
      }
      if !memory { return OutOfMemory, None; }
      var ok := FirstFill(swapchain, host.count, failAt, k);
      return if ok then Success else RuntimeFailure, None;
    }

    /** xrEnumerateSwapchainImages. What others decide are parameters: the unix call and what it brings back,
        the import that fails, if any, and whether there is memory for the host's answers and for the
        image set. */
    method EnumerateImages(swapchain: Link, capacity: nat, host: HostAnswer, failAt: Option<nat>,
                           scratch: bool, memory: bool, ghost k: nat)
      returns (result: XrResult, count: Option<nat>, written: seq<Ref>)
      requires Valid() && 0 < k < |ring| && ring[k] == swapchain
      modifies this`nextRef, this`released, swapchain`images
      ensures Valid()
      ensures Abs() == if capacity == 0 || old(swapchain.images).Some? || !scratch || !host.ran || host.code != 0
                          || host.count > capacity || !memory then old(Abs())
                       else Apply(old(Abs()), Fill(swapchain.id, host.count, failAt))
      ensures old(swapchain.images).Some? ==> swapchain.images == old(swapchain.images)
      // a query answers with the cached count, or passes the host's answer on
      ensures capacity == 0 ==>
                if ImagesOf(Swapchain(0, old(swapchain.images))) != [] then
                  result == Success && count == Some(|old(swapchain.images).value|)
                else
                  && result == (if !host.ran then RuntimeFailure else if host.code == 0 then Success
                                else if host.code == -11 then SizeInsufficient else HostError(host.code))
                  && count == if result == Success then Some(host.count) else None
      // a fill hands out the whole cached set or none of it
      ensures capacity != 0 && result == Success ==>
                swapchain.images == Some(written) && count == Some(|written|) && |written| <= capacity
      ensures result != Success || capacity == 0 ==> written == []
      ensures capacity != 0 && old(swapchain.images).Some? ==>
                result == if |old(swapchain.images).value| > capacity then SizeInsufficient else Success
      ensures capacity != 0 && old(swapchain.images).None? ==>
                result == if !scratch then OutOfMemory
                          else if !host.ran then RuntimeFailure
                          else if host.code == -11 then SizeInsufficient
                          else if host.code != 0 then HostError(host.code)
                          else if host.count > capacity then SizeInsufficient
                          else if !memory then OutOfMemory
                          else if failAt.Some? && failAt.value < host.count then RuntimeFailure
                          else Success
      // what a short buffer is told: the cached count, the host's, or - if it was the host that called
      // the buffer short - the capacity unchanged
      ensures capacity != 0 && result == SizeInsufficient ==>
                count == Some(if swapchain.images.Some? then |swapchain.images.value|
                              else if host.code == 0 then host.count else capacity)
      ensures capacity != 0 && result != SizeInsufficient && result != Success ==> count.None?
    {
      count, written := None, [];
      if capacity == 0 {
        if swapchain.images.Some? && |swapchain.images.value| != 0 {
          return Success, Some(|swapchain.images.value|), [];
        }
        if !host.ran { return RuntimeFailure, None, []; }
        return ResultOf(host.code), if host.code == 0 then Some(host.count) else None, [];
      }
      if swapchain.images.None? {
        result, count := FillLocked(swapchain, capacity, host, failAt, scratch, memory, k);
        if result != Success { return; }
      }
      var images := swapchain.images.value;
      if |images| > capacity { return SizeInsufficient, Some(|images|), []; }
      for i := 0 to |images|
        invariant written == images[..i]
      {
        written := written + [images[i]];
        assert images[..i + 1] == images[..i] + [images[i]];
      }
      assert images[..|images|] == images;
      return Success, Some(|images|), written;
    }

    lemma NextIs(n: nat)
      requires Ring(ring) && ring[0] == head && n < |ring|
      ensures ring[n].next == if n + 1 == |ring| then head else ring[n + 1]
      ensures ring[n].next == head <==> n + 1 == |ring|
      ensures n > 0 ==> Contents(ring[1..])[n - 1] == Swapchain(ring[n].id, ring[n].images)
    {
      assert ring[Succ(n, |ring|)] == ring[n].next;
    }

    /** The walk over the list, releasing every cache. */
    method ReleaseAll()
      requires Ring(ring) && ring[0] == head
      modifies this`released
      ensures released == old(released) + Held(Contents(ring[1..]))
    {
      ghost var live, n := Contents(ring[1..]), 1;
      NextIs(0);
      var link := head.next;
      assert live[..0] == [];
      while link != head
        invariant Ring(ring) && Contents(ring[1..]) == live
        invariant 1 <= n <= |ring| && (link == head <==> n == |ring|)
        invariant n < |ring| ==> link == ring[n]
        invariant released == old(released) + Held(live[..n - 1])
        decreases |ring| - n
      {
        NextIs(n);
        var next := link.next;
        HeldStep(live, n - 1);
        ReleaseCache(link);
        link := next;
        n := n + 1;
      }
      assert live[..n - 1] == live;
    }

    /** session_teardown. Afterwards the list is gone. */
    method Teardown()
      requires Valid()
      modifies this`released, this`ring
      ensures ring == [head] && Abs() == Apply(old(Abs()), SwapchainImages.Teardown)
    {
      ReleaseAll();
      ring := [head];
      assert Contents(ring[1..]) == [];
    }
  }
}
