/** xrEndFrame: the application's layers, rewritten for the host with two flat arrays and a running
    offset. The result is a plain map over the layers. */
module EndFrame {
  import opened Prelude

  /** A swapchain handle; 0 is XR_NULL_HANDLE, any other one is a live wrapper of the bridge. */
  type Handle = nat

  datatype SubImage = SubImage(swapchain: Handle, rect: nat)

  /** The next chain of a projection view. */
  datatype Chain =
    | End
    | Depth(sub: SubImage, range: nat, next: Chain)
    | Other(sType: nat, payload: nat, next: Chain)

  datatype View = View(pose: nat, sub: SubImage, next: Chain)

  datatype SubImageKind = Quad | Cylinder | Equirect | Equirect2

  datatype Layer =
    | Projection(header: nat, views: seq<View>)
    | OneImage(kind: SubImageKind, header: nat, sub: SubImage)
    | Cube(header: nat, swapchain: Handle)
    | Unsupported(sType: nat)

  /** XrFrameEndInfo: no layer array at all, or an array whose entries may be NULL. */
  datatype Frame = Frame(displayTime: nat, layers: Option<seq<Option<Layer>>>)

  datatype XrResult = ValidationFailure | LayerInvalid | RuntimeFailure | HostSaid(code: int)

  /** host_swapchain of every live wrapper. */
  type Wrappers = map<Handle, Handle>

  function Rewrite(host: Wrappers, h: Handle): Handle {
    if h != 0 && h in host then host[h] else h
  }

  function RewriteSub(host: Wrappers, sub: SubImage): SubImage {
    sub.(swapchain := Rewrite(host, sub.swapchain))
  }

  // ---- The map the code should be ------------------------------------------------------------

  /** Only depth information at the head of the chain is rewritten. */
  function MapChain(host: Wrappers, c: Chain): Chain {
    if c.Depth? then c.(sub := RewriteSub(host, c.sub)) else c
  }

  function MapView(host: Wrappers, v: View): View {
    View(v.pose, RewriteSub(host, v.sub), MapChain(host, v.next))
  }

  function MapLayer(host: Wrappers, l: Layer): Layer {
    match l
    case Projection(header, views) =>
      Projection(header, seq(|views|, i requires 0 <= i < |views| => MapView(host, views[i])))
    case OneImage(kind, header, sub) => OneImage(kind, header, RewriteSub(host, sub))
    case Cube(header, swapchain) => Cube(header, Rewrite(host, swapchain))
    case Unsupported(_) => l
  }

  predicate Supported(l: Option<Layer>) {
    l.Some? && !l.value.Unsupported?
  }

  predicate AllPresent(layers: seq<Option<Layer>>) {
    forall i :: 0 <= i < |layers| ==> layers[i].Some?
  }

  predicate AllSupported(layers: seq<Option<Layer>>) {
    forall i :: 0 <= i < |layers| ==> Supported(layers[i])
  }

  function MapLayers(host: Wrappers, layers: seq<Option<Layer>>): (r: seq<Option<Layer>>)
    requires AllSupported(layers)
    ensures |r| == |layers|
    ensures forall i :: 0 <= i < |layers| ==> r[i] == Some(MapLayer(host, layers[i].value))
  {
    seq(|layers|, i requires 0 <= i < |layers| => Some(MapLayer(host, layers[i].value)))
  }

  // What the map does, without saying how: it changes the rewritten handles and nothing else.

  /** The handles of a layer the host must see translated, in order. */
  function ViewHandles(v: View): seq<Handle> {
    [v.sub.swapchain] + if v.next.Depth? then [v.next.sub.swapchain] else []
  }

  function AllViewHandles(views: seq<View>): seq<Handle> {
    if views == [] then [] else ViewHandles(views[0]) + AllViewHandles(views[1..])
  }

  function LayerHandles(l: Layer): seq<Handle> {
    match l
    case Projection(_, views) => AllViewHandles(views)
    case OneImage(_, _, sub) => [sub.swapchain]
    case Cube(_, swapchain) => [swapchain]
    case Unsupported(_) => []
  }

  /** The layer with those handles blanked out. */
  function BlankView(v: View): View {
    v.(sub := v.sub.(swapchain := 0),
       next := if v.next.Depth? then v.next.(sub := v.next.sub.(swapchain := 0)) else v.next)
  }

  function BlankViews(views: seq<View>): seq<View> {
    if views == [] then [] else [BlankView(views[0])] + BlankViews(views[1..])
  }

  function Blank(l: Layer): Layer {
    match l
    case Projection(header, views) => Projection(header, BlankViews(views))
    case OneImage(kind, header, sub) => OneImage(kind, header, sub.(swapchain := 0))
    case Cube(header, _) => Cube(header, 0)
    case Unsupported(_) => l
  }

  /** The host's handles for the bridge's: a live handle stands as its host handle, any other as it was. */
  predicate Translated(host: Wrappers, a: seq<Handle>, b: seq<Handle>) {
    && |a| == |b|
    && forall k :: 0 <= k < |a| ==>
         if a[k] != 0 && a[k] in host then b[k] == host[a[k]] else b[k] == a[k]
  }

  /** One layer as the host must see it: every handle translated, everything else as it was. */
  predicate LayerTranslated(host: Wrappers, a: Layer, b: Layer) {
    Translated(host, LayerHandles(a), LayerHandles(b)) && Blank(a) == Blank(b)
  }

  lemma {:induction false} MapViewsHandles(host: Wrappers, views: seq<View>, mapped: seq<View>)
    requires |mapped| == |views| && forall i :: 0 <= i < |views| ==> mapped[i] == MapView(host, views[i])
    ensures Translated(host, AllViewHandles(views), AllViewHandles(mapped))
    ensures BlankViews(mapped) == BlankViews(views)
  {
    if views != [] {
      MapViewsHandles(host, views[1..], mapped[1..]);
      assert Translated(host, ViewHandles(views[0]), ViewHandles(mapped[0]));
    }
  }

  /** The map translates every handle and changes nothing else. */
  lemma MapChangesHandlesOnly(host: Wrappers, l: Layer)
    ensures LayerTranslated(host, l, MapLayer(host, l))
  {
    if l.Projection? { MapViewsHandles(host, l.views, MapLayer(host, l).views); }
  }

  /** All handles of a frame's layers, in order. */
  function FrameHandles(layers: seq<Option<Layer>>): seq<Handle> {
    if layers == [] then []
    else (if layers[0].Some? then LayerHandles(layers[0].value) else []) + FrameHandles(layers[1..])
  }

  lemma TranslatedAppend(host: Wrappers, a1: seq<Handle>, b1: seq<Handle>, a2: seq<Handle>, b2: seq<Handle>)
    requires Translated(host, a1, b1) && Translated(host, a2, b2)
    ensures Translated(host, a1 + a2, b1 + b2)
  {
  }

  lemma {:induction false} FrameTranslated(host: Wrappers, layers: seq<Option<Layer>>, call: seq<Option<Layer>>)
    requires AllSupported(layers) && |call| == |layers|
    requires forall i :: 0 <= i < |layers| ==> call[i].Some? && LayerTranslated(host, layers[i].value, call[i].value)
    ensures Translated(host, FrameHandles(layers), FrameHandles(call))
  {
    if layers != [] {
      FrameTranslated(host, layers[1..], call[1..]);
      TranslatedAppend(host, LayerHandles(layers[0].value), LayerHandles(call[0].value),
                       FrameHandles(layers[1..]), FrameHandles(call[1..]));
    }
  }

  /** A frame whose handles are all live reaches the host with handles of the host alone. */
  lemma LiveFrameIsHosts(host: Wrappers, layers: seq<Option<Layer>>, call: seq<Option<Layer>>)
    requires AllSupported(layers) && |call| == |layers|
    requires forall i :: 0 <= i < |layers| ==> call[i].Some? && LayerTranslated(host, layers[i].value, call[i].value)
    ensures (forall h :: h in FrameHandles(layers) ==> h != 0 && h in host) ==>
              forall h :: h in FrameHandles(call) ==> h in host.Values
  {
    FrameTranslated(host, layers, call);
    var a, b := FrameHandles(layers), FrameHandles(call);
    if forall h :: h in a ==> h != 0 && h in host {
      forall h | h in b ensures h in host.Values {
        var k :| 0 <= k < |b| && b[k] == h;
        assert a[k] in a;
      }
    }
  }

  // ---- The flat arrays -----------------------------------------------------------------------

  /** A view's next pointer in bridge memory: into the depth array, or still the application's. */
  datatype HostNext = DepthSlot(index: nat) | AppChain(chain: Chain)

  datatype HostView = HostView(pose: nat, sub: SubImage, next: HostNext)

  /** A projection layer in bridge memory points at its slice of the view array. */
  datatype HostLayer = HostProjection(header: nat, count: nat, offset: nat) | Inline(layer: Layer)

  function ViewsOf(l: Option<Layer>): seq<View> {
    if l.Some? && l.value.Projection? then l.value.views else []
  }

  /** All views of the first n layers, in order. */
  function Flat(layers: seq<Option<Layer>>, n: nat): seq<View>
    requires n <= |layers|
  {
    if n == 0 then [] else Flat(layers, n - 1) + ViewsOf(layers[n - 1])
  }

  /** Where layer i's slice starts. */
  function Offset(layers: seq<Option<Layer>>, i: nat): nat
    requires i <= |layers|
  {
    |Flat(layers, i)|
  }

  lemma {:induction false} FlatPrefix(layers: seq<Option<Layer>>, m: nat, n: nat)
    requires m <= n <= |layers|
    ensures Flat(layers, m) <= Flat(layers, n)
    decreases n
  {
    if m < n { FlatPrefix(layers, m, n - 1); }
  }

  lemma OffsetGrows(layers: seq<Option<Layer>>, i: nat)
    requires i < |layers|
    ensures Offset(layers, i + 1) <= Offset(layers, |layers|)
  {
    FlatPrefix(layers, i + 1, |layers|);
  }

  /** Layer i's slice of the flat array holds its views. */
  lemma FlatSlice(layers: seq<Option<Layer>>, i: nat)
    requires i < |layers|
    ensures Offset(layers, i) + |ViewsOf(layers[i])| == Offset(layers, i + 1) <= Offset(layers, |layers|)
    ensures Flat(layers, |layers|)[Offset(layers, i)..Offset(layers, i + 1)] == ViewsOf(layers[i])
  {
    FlatPrefix(layers, i + 1, |layers|);
    var m, flat := Offset(layers, i + 1), Flat(layers, |layers|);
    assert flat[..m] == Flat(layers, i + 1);
    assert flat[Offset(layers, i)..m] == flat[..m][Offset(layers, i)..];
  }

  /** The slices are disjoint, in order, and tile the array exactly: each cell of the counted total
      lies in the slice of exactly one layer. */
  lemma {:induction false} SlicesTile(layers: seq<Option<Layer>>, n: nat, k: nat)
    requires n <= |layers| && k < Offset(layers, n)
    ensures exists i :: 0 <= i < n && Offset(layers, i) <= k < Offset(layers, i) + |ViewsOf(layers[i])|
    ensures forall i, j :: 0 <= i < j < n ==> Offset(layers, i) + |ViewsOf(layers[i])| <= Offset(layers, j)
  {
    forall i, j | 0 <= i < j < n ensures Offset(layers, i) + |ViewsOf(layers[i])| <= Offset(layers, j) {
      FlatPrefix(layers, i + 1, j);
    }
    if k < Offset(layers, n - 1) { SlicesTile(layers, n - 1, k); }
  }

  // The counted total, and what malloc is asked for.

  const SIZE_T := 0x1_0000_0000_0000_0000

  /** sizeof(XrCompositionLayerProjectionView), the larger of the two element types. */
  const VIEW_BYTES := 96

  /** layerCount and viewCount are uint32_t. */
  predicate CountsFit(layers: seq<Option<Layer>>) {
    && |layers| < 0x1_0000_0000
    && forall i :: 0 <= i < |layers| ==> |ViewsOf(layers[i])| < 0x1_0000_0000
  }

  lemma {:induction false} TotalFits(layers: seq<Option<Layer>>, n: nat)
    requires CountsFit(layers) && n <= |layers|
    ensures Offset(layers, n) <= n * 0xffff_ffff < SIZE_T
  {
    if n != 0 { TotalFits(layers, n - 1); }
  }

  /** n layers with the same views. */
  function Uniform(views: seq<View>, n: nat): (layers: seq<Option<Layer>>)
    ensures |layers| == n
  {
    seq(n, _ => Some(Projection(0, views)))
  }

  lemma {:induction false} UniformTotal(views: seq<View>, n: nat, k: nat)
    requires k <= n
    ensures Offset(Uniform(views, n), k) == k * |views|
  {
    if k != 0 { UniformTotal(views, n, k - 1); }
  }

  /** The size malloc is asked for is the size meant, for every frame of n layers. */
  ghost predicate AllocationsFit(n: nat) {
    forall layers :: |layers| == n && CountsFit(layers) ==> Offset(layers, n) * VIEW_BYTES < SIZE_T
  }

  const MOST_LAYERS := 44_739_242

  /** The number of layers decides: up to MOST_LAYERS no frame is too big for size_t, and for every
      larger number some frame is. */
  lemma AllocationsFitExactly(n: nat)
    requires n < 0x1_0000_0000
    ensures AllocationsFit(n) <==> n <= MOST_LAYERS
  {
    if n <= MOST_LAYERS {
      forall layers | |layers| == n && CountsFit(layers) ensures Offset(layers, n) * VIEW_BYTES < SIZE_T {
        TotalFits(layers, n);
      }
    } else {
      var full := Uniform(seq(0xffff_ffff, _ => View(0, SubImage(0, 0), End)), n);
      UniformTotal(full[0].value.views, n, n);
      assert CountsFit(full) && Offset(full, n) * VIEW_BYTES >= SIZE_T;
    }
  }

  function WrittenNext(host: Wrappers, c: Chain, k: nat): HostNext {
    if c.Depth? then DepthSlot(k) else AppChain(c)
  }

  function WrittenView(host: Wrappers, v: View, k: nat): HostView {
    HostView(v.pose, RewriteSub(host, v.sub), WrittenNext(host, v.next, k))
  }

  /** What the host reads through the pointers. */
  function ReadChain(depths: seq<Chain>, n: HostNext): Chain {
    match n
    case DepthSlot(k) => if k < |depths| then depths[k] else End
    case AppChain(c) => c
  }

  function ReadView(depths: seq<Chain>, v: HostView): View {
    View(v.pose, v.sub, ReadChain(depths, v.next))
  }

  function ReadLayer(views: seq<HostView>, depths: seq<Chain>, l: HostLayer): Layer {
    match l
    case Inline(layer) => layer
    case HostProjection(header, count, offset) =>
      Projection(header, seq(count, i requires 0 <= i < count =>
        if offset + i < |views| then ReadView(depths, views[offset + i]) else View(0, SubImage(0, 0), End)))
  }

  /** The first m cells of the two arrays hold the flat views. */
  predicate CellsWritten(host: Wrappers, flat: seq<View>, views: seq<HostView>, depths: seq<Chain>, m: nat)
    requires m <= |flat| && m <= |views| && m <= |depths|
  {
    forall k :: 0 <= k < m ==>
      views[k] == WrittenView(host, flat[k], k) && (flat[k].next.Depth? ==> depths[k] == MapChain(host, flat[k].next))
  }

  function WrittenLayer(host: Wrappers, layers: seq<Option<Layer>>, i: nat): HostLayer
    requires i < |layers| && Supported(layers[i])
  {
    var l := layers[i].value;
    if l.Projection? then HostProjection(l.header, |l.views|, Offset(layers, i)) else Inline(MapLayer(host, l))
  }

  lemma ReadBackView(host: Wrappers, flat: seq<View>, views: seq<HostView>, depths: seq<Chain>, k: nat)
    requires k < |flat| == |views| == |depths| && CellsWritten(host, flat, views, depths, |views|)
    ensures ReadView(depths, views[k]) == MapView(host, flat[k])
  {
  }

  lemma ReadBackSlice(host: Wrappers, flat: seq<View>, views: seq<HostView>, depths: seq<Chain>,
                      header: nat, src: seq<View>, offset: nat)
    requires |flat| == |views| == |depths| && CellsWritten(host, flat, views, depths, |views|)
    requires offset + |src| <= |flat| && flat[offset..offset + |src|] == src
    ensures ReadLayer(views, depths, HostProjection(header, |src|, offset)) == MapLayer(host, Projection(header, src))
  {
    var read := ReadLayer(views, depths, HostProjection(header, |src|, offset)).views;
    var mapped := MapLayer(host, Projection(header, src)).views;
    forall v | 0 <= v < |src| ensures read[v] == mapped[v] {
      assert flat[offset..offset + |src|][v] == flat[offset + v];
      ReadBackView(host, flat, views, depths, offset + v);
    }
    assert read == mapped;
  }

  /** Reading a written layer back through its pointers gives the mapped layer. */
  lemma ReadBackLayer(host: Wrappers, layers: seq<Option<Layer>>, i: nat, views: seq<HostView>, depths: seq<Chain>)
    requires i < |layers| && Supported(layers[i])
    requires |views| == |depths| == Offset(layers, |layers|)
    requires CellsWritten(host, Flat(layers, |layers|), views, depths, |views|)
    ensures ReadLayer(views, depths, WrittenLayer(host, layers, i)) == MapLayer(host, layers[i].value)
  {
    var l := layers[i].value;
    if l.Projection? {
      FlatSlice(layers, i);
      ReadBackSlice(host, Flat(layers, |layers|), views, depths, l.header, l.views, Offset(layers, i));
    }
  }

  /** The layer array the host follows. */
  function ReadLayers(views: seq<HostView>, depths: seq<Chain>, storage: seq<HostLayer>): (r: seq<Option<Layer>>)
    ensures |r| == |storage|
  {
    seq(|storage|, i requires 0 <= i < |storage| => Some(ReadLayer(views, depths, storage[i])))
  }

  predicate LayersWritten(host: Wrappers, layers: seq<Option<Layer>>, storage: seq<HostLayer>, n: nat)
    requires n <= |layers| && n <= |storage|
  {
    forall j :: 0 <= j < n ==> Supported(layers[j]) && storage[j] == WrittenLayer(host, layers, j)
  }

  lemma ReadBackLayers(host: Wrappers, layers: seq<Option<Layer>>, storage: seq<HostLayer>, views: seq<HostView>,
                       depths: seq<Chain>)
    requires AllSupported(layers) && |storage| == |layers| && LayersWritten(host, layers, storage, |layers|)
    requires |views| == |depths| == Offset(layers, |layers|)
    requires CellsWritten(host, Flat(layers, |layers|), views, depths, |views|)
    ensures ReadLayers(views, depths, storage) == MapLayers(host, layers)
  {
    forall i | 0 <= i < |layers| ensures ReadLayers(views, depths, storage)[i] == MapLayers(host, layers)[i] {
      ReadBackLayer(host, layers, i, views, depths);
    }
    assert ReadLayers(views, depths, storage) == MapLayers(host, layers);
  }

  // ---- The code ------------------------------------------------------------------------------

  /** One projection layer's views, written at the running offset. */
  method WriteViews(host: Wrappers, src: seq<View>, offset: nat, ghost flat: seq<View>,
                    views: array<HostView>, depths: array<Chain>)
    requires views.Length == depths.Length == |flat| && offset + |src| <= |flat| && views as object != depths
    requires flat[offset..offset + |src|] == src
    requires CellsWritten(host, flat, views[..], depths[..], offset)
    modifies views, depths
    ensures CellsWritten(host, flat, views[..], depths[..], offset + |src|)
  {
    for v := 0 to |src|
      invariant CellsWritten(host, flat, views[..], depths[..], offset + v)
    {
      assert flat[offset + v] == flat[offset..offset + |src|][v];
      var view := src[v];
      var dst := HostView(view.pose, RewriteSub(host, view.sub), AppChain(view.next));
      if view.next.Depth? {
        depths[offset + v] := view.next.(sub := RewriteSub(host, view.next.sub));
        dst := dst.(next := DepthSlot(offset + v));
      }
      views[offset + v] := dst;
    }
  }

  /** The first pass: reject NULL layers and count the views. */
  method CountViews(layers: seq<Option<Layer>>) returns (ok: bool, total: nat)
    ensures ok <==> AllPresent(layers)
    ensures ok ==> total == Offset(layers, |layers|)
  {
    ok, total := true, 0;
    for i := 0 to |layers|
      invariant ok && (forall j :: 0 <= j < i ==> layers[j].Some?)
      invariant total == Offset(layers, i)
    {
      if layers[i].None? { return false, total; }
      if layers[i].value.Projection? { total := total + |layers[i].value.views|; }
    }
  }

  lemma OneMoreWritten(host: Wrappers, layers: seq<Option<Layer>>, before: seq<HostLayer>, i: nat,
                       after: seq<HostLayer>)
    requires i < |layers| == |before| && LayersWritten(host, layers, before, i) && Supported(layers[i])
    requires after == before[i := WrittenLayer(host, layers, i)]
    ensures LayersWritten(host, layers, after, i + 1)
  {
  }

  /** Both arrays and the layer storage after n layers. */
  ghost predicate Written(host: Wrappers, layers: seq<Option<Layer>>, storage: seq<HostLayer>, views: seq<HostView>,
                          depths: seq<Chain>, n: nat, offset: nat)
    requires n <= |layers|
  {
    && |storage| == |layers| && |views| == |depths| == Offset(layers, |layers|)
    && offset == Offset(layers, n) <= |views|
    && LayersWritten(host, layers, storage, n)
    && CellsWritten(host, Flat(layers, |layers|), views, depths, offset)
  }

  /** One turn of the second pass. */
  method RewriteLayer(host: Wrappers, ghost layers: seq<Option<Layer>>, i: nat, layer: Layer, offset: nat,
                      storage: array<HostLayer>, views: array<HostView>, depths: array<Chain>)
    returns (ok: bool, next: nat)
    requires i < |layers| && layers[i] == Some(layer) && views as object != depths
    requires Written(host, layers, storage[..], views[..], depths[..], i, offset)
    modifies storage, views, depths
    ensures ok <==> Supported(layers[i])
    ensures ok ==> Written(host, layers, storage[..], views[..], depths[..], i + 1, next)
  {
    ok, next := true, offset;
    ghost var before := storage[..];
    FlatPrefix(layers, i + 1, |layers|);
    match layer
    case Projection(header, src) =>
      FlatSlice(layers, i);
      WriteViews(host, src, offset, Flat(layers, |layers|), views, depths);
      storage[i] := HostProjection(header, |src|, offset);
      next := offset + |src|;
      OneMoreWritten(host, layers, before, i, storage[..]);
    case OneImage(kind, header, sub) =>
      storage[i] := Inline(OneImage(kind, header, RewriteSub(host, sub)));
      OneMoreWritten(host, layers, before, i, storage[..]);
    case Cube(header, swapchain) =>
      storage[i] := Inline(Cube(header, Rewrite(host, swapchain)));
      OneMoreWritten(host, layers, before, i, storage[..]);
    case Unsupported(_) =>
      ok := false;
  }

  /** The second pass. */
  method RewriteLayers(host: Wrappers, layers: seq<Option<Layer>>,
                       storage: array<HostLayer>, views: array<HostView>, depths: array<Chain>)
    returns (ok: bool)
    requires AllPresent(layers) && views as object != depths
    requires Written(host, layers, storage[..], views[..], depths[..], 0, 0)
    modifies storage, views, depths
    ensures ok <==> AllSupported(layers)
    ensures ok ==> Written(host, layers, storage[..], views[..], depths[..], |layers|, views.Length)
  {
    var offset := 0;
    for i := 0 to |layers|
      invariant Written(host, layers, storage[..], views[..], depths[..], i, offset)
    {
      ok, offset := RewriteLayer(host, layers, i, layers[i].value, offset, storage, views, depths);
      if !ok { return; }
    }
    ok := true;
  }

  /** xrEndFrame. `call` is the frame the unix half gets, if it is called at all: as many layers, each
      with every live handle replaced by its host handle. The application's frame is a value the method
      cannot change. Foreign results are parameters: memory, the unix call itself, and the host's
      answer. */
  method EndFrame(frame: Option<Frame>, host: Wrappers, memory: bool, unixOk: bool, hostCode: int)
    returns (result: XrResult, call: Option<Frame>)
    ensures frame.None? ==> result == ValidationFailure && call.None?
    ensures frame.Some? && (frame.value.layers.None? || frame.value.layers.value == []) ==>
              call == frame && result == if unixOk then HostSaid(hostCode) else RuntimeFailure
    ensures frame.Some? && frame.value.layers.Some? && frame.value.layers.value != [] ==>
              var layers := frame.value.layers.value;
              if exists l :: l in layers && l.None? then result == LayerInvalid && call.None?
              else if !memory then result == RuntimeFailure && call.None?
              else if exists l :: l in layers && l.value.Unsupported? then result == LayerInvalid && call.None?
              else
                && call == Some(Frame(frame.value.displayTime, Some(MapLayers(host, layers))))
                && result == if unixOk then HostSaid(hostCode) else RuntimeFailure
    ensures call.Some? ==> frame.Some? && call.value.displayTime == frame.value.displayTime
    ensures call.Some? && frame.value.layers.Some? ==>
              && call.value.layers.Some?
              && var layers, sent := frame.value.layers.value, call.value.layers.value;
                 && |sent| == |layers| && AllSupported(layers)
                 && (forall i :: 0 <= i < |layers| ==>
                       sent[i].Some? && LayerTranslated(host, layers[i].value, sent[i].value))
                 && ((forall h :: h in FrameHandles(layers) ==> h != 0 && h in host) ==>
                       forall h :: h in FrameHandles(sent) ==> h in host.Values)
  {
    call := None;
    if frame.None? { return ValidationFailure, None; }
    result := if unixOk then HostSaid(hostCode) else RuntimeFailure;
    if frame.value.layers.None? || |frame.value.layers.value| == 0 {
      return result, frame;
    }
    var layers := frame.value.layers.value;
    var present, total := CountViews(layers);
    assert !AllPresent(layers) <==> exists l :: l in layers && l.None?;
    if !present { return LayerInvalid, None; }
    assert !AllSupported(layers) <==> exists l :: l in layers && l.value.Unsupported?;
    if !memory { return RuntimeFailure, None; }
    var storage := new HostLayer[|layers|](_ => Inline(Unsupported(0)));
    var views := new HostView[total](_ => HostView(0, SubImage(0, 0), AppChain(End)));
    var depths := new Chain[total](_ => End);
    var ok := RewriteLayers(host, layers, storage, views, depths);
    if !ok { return LayerInvalid, None; }
    ReadBackLayers(host, layers, storage[..], views[..], depths[..]);
    var sent := ReadLayers(views[..], depths[..], storage[..]);
    forall i | 0 <= i < |layers| ensures sent[i].Some? && LayerTranslated(host, layers[i].value, sent[i].value) {
      MapChangesHandlesOnly(host, layers[i].value);
    }
    LiveFrameIsHosts(host, layers, sent);
    call := Some(Frame(frame.value.displayTime, Some(sent)));
  }
}
