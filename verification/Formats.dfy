/** Swapchain formats: translation between Metal and DXGI, the enumeration the application sees, and
    the check when it creates a swapchain. */
module Formats {
  import opened Prelude
  import opened Enumeration

  datatype Pair = Pair(mtl: int, dxgi: int)

  const TABLE: seq<Pair> := [
    Pair(80, 87),   // BGRA8Unorm
    Pair(81, 91),   // BGRA8Unorm_sRGB
    Pair(70, 28),   // RGBA8Unorm
    Pair(71, 29),   // RGBA8Unorm_sRGB
    Pair(115, 10),  // RGBA16Float
    Pair(252, 40),   // Depth32Float
    Pair(260, 20)    // Depth32Float_Stencil8
  ]

  /** The first row with that Metal format; 0 when there is none. */
  function MtlToDxgi(mtl: int, from: nat := 0): int
    requires from <= |TABLE|
    decreases |TABLE| - from
  {
    if from == |TABLE| then 0 else if TABLE[from].mtl == mtl then TABLE[from].dxgi else MtlToDxgi(mtl, from + 1)
  }

  function DxgiToMtl(dxgi: int, from: nat := 0): int
    requires from <= |TABLE|
    decreases |TABLE| - from
  {
    if from == |TABLE| then 0 else if TABLE[from].dxgi == dxgi then TABLE[from].mtl else DxgiToMtl(dxgi, from + 1)
  }

  /** The one ideal list behind every count and fill. */
  function Advertised(native: seq<int>): seq<int> {
    if native == [] then []
    else
      var dxgi := MtlToDxgi(native[|native| - 1]);
      Advertised(native[..|native| - 1]) + if dxgi != 0 then [dxgi] else []
  }

  /** No DXGI format stands in two rows, and no format is 0. */
  lemma TableIsOneToOne()
    ensures forall i, j :: 0 <= i < j < |TABLE| ==> TABLE[i].dxgi != TABLE[j].dxgi
    ensures forall i :: 0 <= i < |TABLE| ==> TABLE[i].mtl != 0 && TABLE[i].dxgi != 0
  {
  }

  lemma {:induction false} TranslationInverts(mtl: int, from: nat)
    requires from <= |TABLE|
    ensures MtlToDxgi(mtl, from) != 0 ==> DxgiToMtl(MtlToDxgi(mtl, from), from) == mtl && mtl != 0
    ensures MtlToDxgi(mtl, from) != 0 ==> exists i :: from <= i < |TABLE| && TABLE[i].dxgi == MtlToDxgi(mtl, from)
    decreases |TABLE| - from
  {
    TableIsOneToOne();
    if from < |TABLE| { TranslationInverts(mtl, from + 1); }
  }

  /** Every advertised format is accepted by create, maps back to a format the host listed, and
      returns from there unchanged. */
  lemma {:induction false} AdvertisedFormatsWork(native: seq<int>, dxgi: int)
    requires dxgi in Advertised(native)
    ensures DxgiToMtl(dxgi) != 0 && DxgiToMtl(dxgi) in native && MtlToDxgi(DxgiToMtl(dxgi)) == dxgi
  {
    var last := native[|native| - 1];
    if dxgi in Advertised(native[..|native| - 1]) {
      AdvertisedFormatsWork(native[..|native| - 1], dxgi);
    } else {
      TranslationInverts(last, 0);
    }
  }

  lemma {:induction false} RowOf(mtl: int, dxgi: int, from: nat)
    requires from <= |TABLE| && dxgi != 0
    ensures MtlToDxgi(mtl, from) == dxgi <==>
            exists j :: from <= j < |TABLE| && TABLE[j].mtl == mtl && TABLE[j].dxgi == dxgi
    decreases |TABLE| - from
  {
    if from < |TABLE| { RowOf(mtl, dxgi, from + 1); }
  }

  /** Exactly the formats are advertised whose row has a Metal format the host lists, */
  lemma {:induction false} AdvertisedExactly(native: seq<int>, dxgi: int)
    ensures dxgi in Advertised(native) <==>
            exists j :: 0 <= j < |TABLE| && TABLE[j].dxgi == dxgi && TABLE[j].mtl in native
  {
    if native != [] {
      var front, last := native[..|native| - 1], native[|native| - 1];
      AdvertisedExactly(front, dxgi);
      assert native == front + [last];
      if dxgi != 0 { RowOf(last, dxgi, 0); }
      TableIsOneToOne();
    }
  }

  /** and in the host's order. */
  lemma {:induction false} AdvertisedInOrder(a: seq<int>, b: seq<int>)
    ensures Advertised(a + b) == Advertised(a) + Advertised(b)
  {
    if b == [] {
      assert a + b == a;
    } else {
      var all, front, dxgi := a + b, b[..|b| - 1], MtlToDxgi(b[|b| - 1]);
      AdvertisedInOrder(a, front);
      assert all[..|all| - 1] == a + front && all[|all| - 1] == b[|b| - 1];
      if dxgi != 0 {
        assert Advertised(a) + Advertised(front) + [dxgi] == Advertised(a) + (Advertised(front) + [dxgi]);
      }
    }
  }

  method TranslateMtl(mtl: int) returns (dxgi: int)
    ensures dxgi == MtlToDxgi(mtl)
  {
    for i := 0 to |TABLE|
      invariant MtlToDxgi(mtl, 0) == MtlToDxgi(mtl, i)
    {
      if TABLE[i].mtl == mtl { return TABLE[i].dxgi; }
    }
    dxgi := 0;
  }

  method TranslateDxgi(dxgi: int) returns (mtl: int)
    ensures mtl == DxgiToMtl(dxgi)
  {
    for i := 0 to |TABLE|
      invariant DxgiToMtl(dxgi, 0) == DxgiToMtl(dxgi, i)
    {
      if TABLE[i].dxgi == dxgi { return TABLE[i].mtl; }
    }
    mtl := 0;
  }

  datatype CreateFormat = FormatUnsupported | HostFormat(mtl: int)

  /** The format check of wine_xrCreateSwapchain. It lets every format through that the enumeration
      over `native` advertises, as one of the host's own; what it refuses was never advertised. */
  method CheckCreateFormat(dxgi: int, ghost native: seq<int>) returns (r: CreateFormat)
    ensures dxgi in Advertised(native) ==> r.HostFormat? && r.mtl in native && MtlToDxgi(r.mtl) == dxgi
    ensures r.FormatUnsupported? <==> forall i :: 0 <= i < |TABLE| ==> TABLE[i].dxgi != dxgi
  {
    var mtl := TranslateDxgi(dxgi);
    NoSuchFormat(dxgi, 0);
    if dxgi in Advertised(native) { AdvertisedFormatsWork(native, dxgi); }
    r := if mtl == 0 then FormatUnsupported else HostFormat(mtl);
  }

  lemma {:induction false} NoSuchFormat(dxgi: int, from: nat)
    requires from <= |TABLE|
    ensures DxgiToMtl(dxgi, from) == 0 <==> forall i :: from <= i < |TABLE| ==> TABLE[i].dxgi != dxgi
    decreases |TABLE| - from
  {
    TableIsOneToOne();
    if from < |TABLE| { NoSuchFormat(dxgi, from + 1); }
  }

  /** The translating loop. The total does not depend on the buffer; the buffer gets the first entries of
      the ideal list. */
  method TranslateFormats(native: seq<int>, out: array<int>, counting: bool) returns (total: nat)
    modifies out
    ensures total == |Advertised(native)|
    ensures forall k :: 0 <= k < out.Length ==>
              out[k] == if !counting && k < total then Advertised(native)[k] else old(out[k])
  {
    total := 0;
    for i := 0 to |native|
      invariant total == |Advertised(native[..i])|
      invariant forall k :: 0 <= k < out.Length ==>
                  out[k] == if !counting && k < total then Advertised(native[..i])[k] else old(out[k])
    {
      assert native[..i + 1][..i] == native[..i];
      var dxgi := TranslateMtl(native[i]);
      if dxgi == 0 { continue; }
      if !counting && total < out.Length { out[total] := dxgi; }
      total := total + 1;
    }
    assert native[..|native|] == native;
  }

  /** wine_xrEnumerateSwapchainFormats; `slot` says whether the dispatch table has the host's function. A
      fill fails for its length exactly if the buffer is too short, and a failure leaves the buffer alone. */
  method EnumerateFormats(slot: bool, host: HostList<int>, memory: bool, out: array<int>, counting: bool)
    returns (outcome: Outcome, total: Option<nat>)
    modifies out
    ensures var ideal := Advertised(host.list);
            && outcome == (if !slot then FunctionUnsupported
                           else OutcomeOf(host, true, memory, counting || |ideal| <= out.Length))
            && total == (if Counts(outcome) then Some(|ideal|) else None)
            && forall k :: 0 <= k < out.Length ==>
                 out[k] == if !counting && Counts(outcome) && k < |ideal| then ideal[k] else old(out[k])
  {
    if !slot { return FunctionUnsupported, None; }
    if host.countCode != 0 { return HostError(host.countCode), None; }
    if !memory { return OutOfMemory, None; }
    if host.fillCode != 0 { return HostError(host.fillCode), None; }
    var n := TranslateFormats(host.list, out, counting);
    return if counting || n <= out.Length then Success else SizeInsufficient, Some(n);
  }
}
