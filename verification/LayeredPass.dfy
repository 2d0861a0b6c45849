/** fix_layered_msaa_depth: the layer count D3DMetal leaves at 1 on a layered pass with a multisampled
    depth array, raised to what the attachments have. */
module LayeredPass {
  import opened Prelude

  const NS_UINTEGER_MAX := 0xffff_ffff_ffff_ffff
  const COLOR_SLOTS := 8

  datatype Kind = Array2D | MultisampleArray2D | OtherKind

  datatype Texture = Texture(kind: Kind, layers: nat)

  /** A texture, if there is one, and the slice it is bound at. */
  datatype Binding = Binding(texture: Option<Texture>, slice: nat)

  datatype Attachment = Attachment(target: Binding, resolve: Binding)

  datatype Pass = Pass(length: nat, colors: seq<Attachment>, depth: Attachment, stencil: Attachment)

  predicate PassOk(p: Pass) {
    |p.colors| == COLOR_SLOTS
  }

  predicate IsMultisampleArray(b: Binding) {
    b.texture.Some? && b.texture.value.kind.MultisampleArray2D?
  }

  /** An array bound at its first slice, or nothing. */
  predicate AtSlice0(b: Binding) {
    b.texture.Some? ==> !b.texture.value.kind.OtherKind? && b.slice == 0
  }

  /** What the code looks at: targets and resolve targets of the colour slots in use, and the depth and
      stencil targets. */
  function Inspected(p: Pass): seq<Binding> {
    InspectedColors(p.colors, |p.colors|) + [p.depth.target, p.stencil.target]
  }

  function InspectedColors(colors: seq<Attachment>, n: nat): seq<Binding>
    requires n <= |colors|
  {
    if n == 0 then []
    else
      var c := colors[n - 1];
      InspectedColors(colors, n - 1) + if c.target.texture.Some? then [c.target, c.resolve] else []
  }

  /** Least layer count among the bindings in use. */
  function LeastLayers(bs: seq<Binding>): nat {
    if bs == [] then NS_UINTEGER_MAX
    else
      var rest, last := LeastLayers(bs[..|bs| - 1]), bs[|bs| - 1];
      if last.texture.Some? && last.texture.value.layers < rest then last.texture.value.layers else rest
  }

  predicate AllAtSlice0(bs: seq<Binding>) {
    forall i :: 0 <= i < |bs| ==> AtSlice0(bs[i])
  }

  /** When the pass is changed; `ours` is the environment switch and the caller check. */
  predicate Raises(p: Pass, ours: bool) {
    && ours && p.length <= 1
    && (IsMultisampleArray(p.depth.target) || IsMultisampleArray(p.stencil.target))
    && AllAtSlice0(Inspected(p))
    && 2 <= LeastLayers(Inspected(p)) < NS_UINTEGER_MAX
  }

  lemma {:induction false} LeastAppend(a: seq<Binding>, b: Binding)
    ensures LeastLayers(a + [b]) ==
            if b.texture.Some? && b.texture.value.layers < LeastLayers(a) then b.texture.value.layers
            else LeastLayers(a)
  {
  }

  lemma {:induction false} LeastIs(bs: seq<Binding>)
    ensures forall i :: 0 <= i < |bs| && bs[i].texture.Some? ==> LeastLayers(bs) <= bs[i].texture.value.layers
    ensures LeastLayers(bs) == NS_UINTEGER_MAX
            || exists i :: 0 <= i < |bs| && bs[i].texture.Some? && bs[i].texture.value.layers == LeastLayers(bs)
  {
    if bs != [] {
      LeastIs(bs[..|bs| - 1]);
      assert bs[|bs| - 1] in bs;
    }
  }

  /** A texture the decision depends on: the depth or stencil target, or the target or resolve target of a
      colour slot in use. */
  predicate InUse(p: Pass, b: Binding) {
    && b.texture.Some?
    && (b == p.depth.target || b == p.stencil.target
        || exists i :: 0 <= i < |p.colors| && p.colors[i].target.texture.Some?
             && (b == p.colors[i].target || b == p.colors[i].resolve))
  }

  lemma {:induction false} InspectedColor(colors: seq<Attachment>, n: nat, b: Binding)
    requires n <= |colors|
    ensures b in InspectedColors(colors, n) <==>
            exists i :: 0 <= i < n && colors[i].target.texture.Some?
              && (b == colors[i].target || b == colors[i].resolve)
  {
    if n != 0 { InspectedColor(colors, n - 1, b); }
  }

  lemma InspectedIs(p: Pass, b: Binding)
    ensures InUse(p, b) <==> b in Inspected(p) && b.texture.Some?
  {
    InspectedColor(p.colors, |p.colors|, b);
  }

  /** A pass of ours is raised exactly if it has at most one layer, its depth or stencil target is a
      multisampled array, and every texture in use is an array of two layers or more bound at slice 0, not
      all of them unlimited. It is raised to the least of their layer counts. */
  lemma RaisesExactly(p: Pass, ours: bool)
    ensures Raises(p, ours) <==>
              && ours && p.length <= 1
              && (exists b :: (b == p.depth.target || b == p.stencil.target) && b.texture.Some?
                    && b.texture.value.kind == MultisampleArray2D)
              && (forall b :: InUse(p, b) ==> b.texture.value.kind != OtherKind && b.slice == 0)
              && (forall b :: InUse(p, b) ==> 2 <= b.texture.value.layers)
              && (exists b :: InUse(p, b) && b.texture.value.layers < NS_UINTEGER_MAX)
    ensures Raises(p, ours) ==>
              && (forall b :: InUse(p, b) ==> LeastLayers(Inspected(p)) <= b.texture.value.layers)
              && (exists b :: InUse(p, b) && b.texture.value.layers == LeastLayers(Inspected(p)))
  {
    var bs := Inspected(p);
    LeastIs(bs);
    LeastBound(bs);
    forall b ensures InUse(p, b) <==> b in bs && b.texture.Some? { InspectedIs(p, b); }
    if LeastLayers(bs) < NS_UINTEGER_MAX {
      var i :| 0 <= i < |bs| && bs[i].texture.Some? && bs[i].texture.value.layers == LeastLayers(bs);
      assert InUse(p, bs[i]);
    }
  }

  /** A binding that can be rendered in this many layers. */
  predicate Carries(b: Binding, length: nat) {
    b.texture.Some? ==> !b.texture.value.kind.OtherKind? && b.slice + length <= b.texture.value.layers
  }

  function AllBindings(p: Pass): seq<Binding> {
    Inspected(p) + [p.depth.resolve, p.stencil.resolve]
  }

  predicate AllCarry(bs: seq<Binding>, length: nat) {
    forall i :: 0 <= i < |bs| ==> Carries(bs[i], length)
  }

  lemma InspectedCarry(p: Pass, ours: bool)
    requires Raises(p, ours)
    ensures AllCarry(Inspected(p), LeastLayers(Inspected(p)))
    ensures !AllCarry(Inspected(p), LeastLayers(Inspected(p)) + 1)
  {
    LeastIs(Inspected(p));
    var bs, n := Inspected(p), LeastLayers(Inspected(p));
    var i :| 0 <= i < |bs| && bs[i].texture.Some? && bs[i].texture.value.layers == n;
    assert !Carries(bs[i], n + 1);
  }

  /** A raised pass renders in layers every attachment has, exactly if the depth and stencil resolve
      targets, which the code does not look at, have them too. */
  lemma RaisedPassFits(p: Pass, ours: bool)
    requires Raises(p, ours)
    ensures AllCarry(AllBindings(p), LeastLayers(Inspected(p))) <==>
            && Carries(p.depth.resolve, LeastLayers(Inspected(p)))
            && Carries(p.stencil.resolve, LeastLayers(Inspected(p)))
  {
    InspectedCarry(p, ours);
    var all, seen, n := AllBindings(p), Inspected(p), LeastLayers(Inspected(p));
    assert all[|seen|] == p.depth.resolve && all[|seen| + 1] == p.stencil.resolve;
    assert forall i :: 0 <= i < |seen| ==> all[i] == seen[i];
  }

  /** Not every pass meets that: a two-layer depth array resolved into a single layer is raised to 2. */
  lemma DepthResolveIsNotInspected()
    ensures exists p :: PassOk(p) && Raises(p, true) && !AllCarry(AllBindings(p), LeastLayers(Inspected(p)))
  {
    var none := Binding(None, 0);
    var unused := Attachment(none, none);
    var depth := Attachment(Binding(Some(Texture(MultisampleArray2D, 2)), 0), Binding(Some(Texture(Array2D, 1)), 0));
    var p := Pass(1, seq(COLOR_SLOTS, _ => unused), depth, unused);
    NoColors(p.colors, COLOR_SLOTS);
    var seen := Inspected(p);
    assert seen == [depth.target, none];
    LeastAppend([], depth.target);
    LeastAppend([depth.target], none);
    assert [] + [depth.target] == [depth.target] && [depth.target] + [none] == seen;
    assert AllBindings(p)[2] == depth.resolve && !Carries(depth.resolve, 2);
  }

  lemma {:induction false} NoColors(colors: seq<Attachment>, n: nat)
    requires n <= |colors| && forall i :: 0 <= i < n ==> colors[i].target.texture.None?
    ensures InspectedColors(colors, n) == []
  {
    if n != 0 { NoColors(colors, n - 1); }
  }

  lemma {:induction false} LeastBound(bs: seq<Binding>)
    ensures LeastLayers(bs) <= NS_UINTEGER_MAX
  {
    if bs != [] { LeastBound(bs[..|bs| - 1]); }
  }

  lemma Spoilt(part: seq<Binding>, all: seq<Binding>)
    requires part <= all && !AllAtSlice0(part)
    ensures !AllAtSlice0(all)
  {
  }

  lemma {:induction false} InspectedPrefix(colors: seq<Attachment>, n: nat)
    requires n <= |colors|
    ensures InspectedColors(colors, n) <= InspectedColors(colors, |colors|)
    decreases |colors| - n
  {
    if n < |colors| { InspectedPrefix(colors, n + 1); }
  }

  // ---- The code ---------------------------------------------------------------------------------

  /** layers_at_slice0, on the bindings inspected before. */
  method LayersAtSlice0(b: Binding, least: nat, ghost before: seq<Binding>) returns (ok: bool, next: nat)
    requires least == LeastLayers(before) && AllAtSlice0(before)
    ensures ok <==> AllAtSlice0(before + [b])
    ensures ok ==> next == LeastLayers(before + [b])
  {
    LeastAppend(before, b);
    assert (before + [b])[|before|] == b;
    next := least;
    if b.texture.None? { return true, next; }
    var t := b.texture.value;
    if t.kind.OtherKind? || b.slice != 0 { return false, next; }
    if t.layers < next { next := t.layers; }
    ok := true;
  }

  /** The loop over the colour slots. */
  method InspectColors(colors: seq<Attachment>) returns (ok: bool, layers: nat)
    ensures ok <==> AllAtSlice0(InspectedColors(colors, |colors|))
    ensures ok ==> layers == LeastLayers(InspectedColors(colors, |colors|))
  {
    layers := NS_UINTEGER_MAX;
    for i := 0 to |colors|
      invariant AllAtSlice0(InspectedColors(colors, i)) && layers == LeastLayers(InspectedColors(colors, i))
    {
      InspectedPrefix(colors, i + 1);
      if colors[i].target.texture.Some? {
        ok, layers := InspectSlot(colors[i], layers, InspectedColors(colors, i));
        if !ok {
          Spoilt(InspectedColors(colors, i + 1), InspectedColors(colors, |colors|));
          return;
        }
      } else {
        assert InspectedColors(colors, i) + [] == InspectedColors(colors, i);
      }
    }
    ok := true;
  }

  method InspectSlot(c: Attachment, least: nat, ghost before: seq<Binding>) returns (ok: bool, next: nat)
    requires least == LeastLayers(before) && AllAtSlice0(before)
    ensures ok <==> AllAtSlice0(before + [c.target, c.resolve])
    ensures ok ==> next == LeastLayers(before + [c.target, c.resolve])
  {
    assert before + [c.target, c.resolve] == before + [c.target] + [c.resolve];
    ok, next := LayersAtSlice0(c.target, least, before);
    if !ok { Spoilt(before + [c.target], before + [c.target, c.resolve]); return; }
    ok, next := LayersAtSlice0(c.resolve, next, before + [c.target]);
  }

  /** fix_layered_msaa_depth: the pass with its layer count raised to the least one inspected, or as it
      was. */
  method FixLayers(p: Pass, ours: bool) returns (r: Pass)
    requires PassOk(p)
    ensures r == if Raises(p, ours) then p.(length := LeastLayers(Inspected(p))) else p
  {
    r := p;
    if p.length > 1 || !ours { return; }
    if !IsMultisampleArray(p.depth.target) && !IsMultisampleArray(p.stencil.target) { return; }
    ghost var seen := InspectedColors(p.colors, |p.colors|);
    var ok, layers := InspectColors(p.colors);
    if !ok { Spoilt(seen, Inspected(p)); return; }
    ok, layers := InspectSlot(Attachment(p.depth.target, p.stencil.target), layers, seen);
    if !ok || layers < 2 || layers == NS_UINTEGER_MAX { return; }
    LeastBound(Inspected(p));
    r := p.(length := layers);
  }
}
