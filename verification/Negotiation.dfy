/** Extension negotiation: what the application is shown, what xrCreateInstance accepts, and what is
    forwarded to the host. */
module Negotiation {
  import opened Prelude
  import opened Enumeration

  datatype Extension = Extension(name: string, version: nat)

  datatype Substitution = Substitution(win32: string, native: string, version: nat)

  /** xr_bridge_extensions, substitute_extensions and bridge_only_extensions. */
  datatype Tables = Tables(bridge: seq<string>, substitutes: seq<Substitution>, bridgeOnly: seq<Extension>)

  const D3D12 := "XR_KHR_D3D12_enable"

  /** d3d12_advertised is fixed by the environment. */
  predicate Hidden(advertised: bool, win32: string) {
    win32 == D3D12 && !advertised
  }

  predicate IsNative(t: Tables, name: string) {
    exists j :: 0 <= j < |t.substitutes| && t.substitutes[j].native == name
  }

  predicate IsWin32(t: Tables, name: string) {
    exists j :: 0 <= j < |t.substitutes| && t.substitutes[j].win32 == name
  }

  predicate IsBridgeOnly(t: Tables, name: string) {
    exists j :: 0 <= j < |t.bridgeOnly| && t.bridgeOnly[j].name == name
  }

  /** What the shipped tables have in common: the bridge knows every Win32 spelling and none of the
      native ones, spells nothing twice, and D3D12 is one of the Win32 spellings. */
  predicate TablesOk(t: Tables) {
    && (forall j :: 0 <= j < |t.substitutes| ==>
          t.substitutes[j].win32 in t.bridge && t.substitutes[j].native !in t.bridge
          && !IsBridgeOnly(t, t.substitutes[j].win32))
    && (forall i, j :: 0 <= i < j < |t.substitutes| ==> t.substitutes[i].win32 != t.substitutes[j].win32)
    && (forall j :: 0 <= j < |t.bridgeOnly| ==> t.bridgeOnly[j].name in t.bridge)
    && IsWin32(t, D3D12)
  }

  function NamesOf(es: seq<Extension>): (r: seq<string>)
    ensures |r| == |es| && forall i :: 0 <= i < |r| ==> r[i] == es[i].name
  {
    seq(|es|, i requires 0 <= i < |es| => es[i].name)
  }

  lemma NamesAppend(a: seq<Extension>, b: seq<Extension>, name: string)
    ensures name in NamesOf(a + b) <==> name in NamesOf(a) || name in NamesOf(b)
  {
    assert NamesOf(a + b) == NamesOf(a) + NamesOf(b);
  }

  lemma NamesOne(e: Extension, name: string)
    ensures name in NamesOf([e]) <==> e.name == name
  {
    assert NamesOf([e]) == [e.name];
  }

  // ---- Enumeration ------------------------------------------------------------------------------

  /** What the first n substitution rows make of one host extension. */
  function Substituted(t: Tables, advertised: bool, host: Extension, n: nat): seq<Extension>
    requires n <= |t.substitutes|
  {
    if n == 0 then []
    else
      var sub := t.substitutes[n - 1];
      Substituted(t, advertised, host, n - 1)
      + if sub.native == host.name && !Hidden(advertised, sub.win32) then [Extension(sub.win32, sub.version)] else []
  }

  function Emitted(t: Tables, advertised: bool, host: Extension): seq<Extension> {
    Substituted(t, advertised, host, |t.substitutes|)
    + if !IsNative(t, host.name) && host.name in t.bridge then [host] else []
  }

  function EmittedAll(t: Tables, advertised: bool, host: seq<Extension>): seq<Extension> {
    if host == [] then []
    else EmittedAll(t, advertised, host[..|host| - 1]) + Emitted(t, advertised, host[|host| - 1])
  }

  /** The one ideal list behind the count pass and every fill pass. */
  function Enumerated(t: Tables, advertised: bool, host: seq<Extension>): seq<Extension> {
    EmittedAll(t, advertised, host) + t.bridgeOnly
  }

  lemma {:induction false} SubstitutedNames(t: Tables, advertised: bool, host: Extension, n: nat, name: string)
    requires n <= |t.substitutes|
    ensures name in NamesOf(Substituted(t, advertised, host, n)) <==>
            exists j :: 0 <= j < n && t.substitutes[j].win32 == name && t.substitutes[j].native == host.name
                     && !Hidden(advertised, name)
  {
    if n != 0 {
      SubstitutedNames(t, advertised, host, n - 1, name);
      var before, sub := Substituted(t, advertised, host, n - 1), t.substitutes[n - 1];
      var last :=
        if sub.native == host.name && !Hidden(advertised, sub.win32) then [Extension(sub.win32, sub.version)] else [];
      NamesAppend(before, last, name);
      NamesOne(Extension(sub.win32, sub.version), name);
    }
  }

  /** The Win32 spelling of a row, with the version of that row. */
  predicate SpelledBy(t: Tables, e: Extension) {
    exists j :: 0 <= j < |t.substitutes| && e == Extension(t.substitutes[j].win32, t.substitutes[j].version)
  }

  lemma {:induction false} SubstitutedVersions(t: Tables, advertised: bool, host: Extension, n: nat, e: Extension)
    requires n <= |t.substitutes| && e in Substituted(t, advertised, host, n)
    ensures SpelledBy(t, e)
  {
    if e in Substituted(t, advertised, host, n - 1) { SubstitutedVersions(t, advertised, host, n - 1, e); }
  }

  /** Why a name is shown. */
  predicate ShownFor(t: Tables, advertised: bool, hostName: string, name: string) {
    || (name == hostName && name in t.bridge
        && forall j :: 0 <= j < |t.substitutes| ==> t.substitutes[j].native != hostName)
    || (!Hidden(advertised, name)
        && exists j :: 0 <= j < |t.substitutes| && t.substitutes[j].win32 == name
                    && t.substitutes[j].native == hostName)
  }

  lemma EmittedNames(t: Tables, advertised: bool, host: Extension, name: string)
    ensures name in NamesOf(Emitted(t, advertised, host)) <==> ShownFor(t, advertised, host.name, name)
  {
    SubstitutedNames(t, advertised, host, |t.substitutes|, name);
    var subs := Substituted(t, advertised, host, |t.substitutes|);
    var own := if !IsNative(t, host.name) && host.name in t.bridge then [host] else [];
    NamesAppend(subs, own, name);
    NamesOne(host, name);
  }

  lemma {:induction false} EmittedAllNames(t: Tables, advertised: bool, host: seq<Extension>, name: string)
    ensures name in NamesOf(EmittedAll(t, advertised, host)) <==>
            exists i :: 0 <= i < |host| && ShownFor(t, advertised, host[i].name, name)
  {
    if host != [] {
      var front, last := host[..|host| - 1], host[|host| - 1];
      EmittedAllNames(t, advertised, front, name);
      EmittedNames(t, advertised, last, name);
      var a, b := EmittedAll(t, advertised, front), Emitted(t, advertised, last);
      NamesAppend(a, b, name);
      if i :| 0 <= i < |front| && ShownFor(t, advertised, front[i].name, name) {
        assert host[i] == front[i];
      }
    }
  }

  /** A name is enumerated for a host extension, or because the bridge implements it alone. */
  lemma EnumeratedNames(t: Tables, advertised: bool, host: seq<Extension>, name: string)
    ensures name in NamesOf(Enumerated(t, advertised, host)) <==>
            IsBridgeOnly(t, name) || exists i :: 0 <= i < |host| && ShownFor(t, advertised, host[i].name, name)
  {
    EmittedAllNames(t, advertised, host, name);
    var a := EmittedAll(t, advertised, host);
    NamesAppend(a, t.bridgeOnly, name);
    if IsBridgeOnly(t, name) {
      var j :| 0 <= j < |t.bridgeOnly| && t.bridgeOnly[j].name == name;
      assert NamesOf(t.bridgeOnly)[j] == name;
    }
  }

  lemma {:induction false} EmittedVersions(t: Tables, advertised: bool, host: seq<Extension>, e: Extension)
    requires e in EmittedAll(t, advertised, host)
    ensures e in host || SpelledBy(t, e)
  {
    var front, last := host[..|host| - 1], host[|host| - 1];
    if e in EmittedAll(t, advertised, front) {
      EmittedVersions(t, advertised, front, e);
    } else if e in Substituted(t, advertised, last, |t.substitutes|) {
      SubstitutedVersions(t, advertised, last, |t.substitutes|, e);
    }
  }

  /** Each entry is an extension of the host as it lists it, a row's, or one of the bridge's own. */
  lemma EnumeratedVersions(t: Tables, advertised: bool, host: seq<Extension>, e: Extension)
    requires e in Enumerated(t, advertised, host)
    ensures e in host || SpelledBy(t, e) || e in t.bridgeOnly
  {
    if e in EmittedAll(t, advertised, host) { EmittedVersions(t, advertised, host, e); }
  }

  // ---- Create -------------------------------------------------------------------------------------

  predicate Accepts(t: Tables, advertised: bool, app: seq<string>) {
    forall i :: 0 <= i < |app| ==> app[i] in t.bridge && !Hidden(advertised, app[i])
  }

  /** translate_app_extension_name: the first row of that Win32 spelling. */
  function TranslateFrom(t: Tables, name: string, n: nat): string
    requires n <= |t.substitutes|
    decreases |t.substitutes| - n
  {
    if n == |t.substitutes| then name
    else if t.substitutes[n].win32 == name then t.substitutes[n].native
    else TranslateFrom(t, name, n + 1)
  }

  function Translate(t: Tables, name: string): string {
    TranslateFrom(t, name, 0)
  }

  lemma {:induction false} TranslateIs(t: Tables, name: string, n: nat)
    requires n <= |t.substitutes|
    requires forall i, j :: 0 <= i < j < |t.substitutes| ==> t.substitutes[i].win32 != t.substitutes[j].win32
    ensures (forall j :: n <= j < |t.substitutes| ==> t.substitutes[j].win32 != name) ==>
              TranslateFrom(t, name, n) == name
    ensures forall j :: n <= j < |t.substitutes| && t.substitutes[j].win32 == name ==>
              TranslateFrom(t, name, n) == t.substitutes[j].native
    decreases |t.substitutes| - n
  {
    if n < |t.substitutes| && t.substitutes[n].win32 != name { TranslateIs(t, name, n + 1); }
  }

  /** The host's enabledExtensionNames: translated, without the bridge's own, each name once. */
  function Forwarded(t: Tables, app: seq<string>): seq<string> {
    if app == [] then []
    else
      var rest, last := Forwarded(t, app[..|app| - 1]), app[|app| - 1];
      if IsBridgeOnly(t, last) || Translate(t, last) in rest then rest else rest + [Translate(t, last)]
  }

  predicate NoDuplicates(s: seq<string>) {
    forall i, j :: 0 <= i < j < |s| ==> s[i] != s[j]
  }

  /** The forwarded list has no duplicates and is exactly the image of the names that are not
      bridge-only. */
  lemma {:induction false} ForwardedIsImage(t: Tables, app: seq<string>)
    ensures NoDuplicates(Forwarded(t, app))
    ensures forall h :: h in Forwarded(t, app) <==>
              exists i :: 0 <= i < |app| && !IsBridgeOnly(t, app[i]) && Translate(t, app[i]) == h
  {
    if app != [] {
      var front, last := app[..|app| - 1], app[|app| - 1];
      ForwardedIsImage(t, front);
      forall h ensures h in Forwarded(t, app) <==>
                       exists i :: 0 <= i < |app| && !IsBridgeOnly(t, app[i]) && Translate(t, app[i]) == h
      {
        if i :| 0 <= i < |front| && !IsBridgeOnly(t, front[i]) && Translate(t, front[i]) == h {
          assert app[i] == front[i];
        }
        if i :| 0 <= i < |app| && !IsBridgeOnly(t, app[i]) && Translate(t, app[i]) == h {
          assert i < |front| ==> app[i] == front[i];
        }
      }
    }
  }

  /** The application drew its list, with repeats, from what it was shown. */
  predicate DrawnFrom(app: seq<string>, shown: seq<Extension>) {
    forall i :: 0 <= i < |app| ==> app[i] in NamesOf(shown)
  }

  // ---- Closure --------------------------------------------------------------------------------------

  lemma ShownIsAccepted(t: Tables, advertised: bool, host: seq<Extension>, name: string)
    requires TablesOk(t) && name in NamesOf(Enumerated(t, advertised, host))
    ensures name in t.bridge
    ensures Hidden(advertised, name) ==> D3D12 in NamesOf(host)
  {
    EnumeratedNames(t, advertised, host, name);
    if !IsBridgeOnly(t, name) {
      var i :| 0 <= i < |host| && ShownFor(t, advertised, host[i].name, name);
      assert NamesOf(host)[i] == host[i].name;
    }
  }

  /** Every list drawn from the enumeration passes the create check, unless D3D12 is hidden while the
      host itself spells it; then it is shown and refused. */
  lemma DrawnListsAreAccepted(t: Tables, advertised: bool, host: seq<Extension>)
    requires TablesOk(t)
    ensures (forall app :: DrawnFrom(app, Enumerated(t, advertised, host)) ==> Accepts(t, advertised, app))
            <==> (advertised || D3D12 !in NamesOf(host))
  {
    var shown := Enumerated(t, advertised, host);
    if advertised || D3D12 !in NamesOf(host) {
      forall app | DrawnFrom(app, shown) ensures Accepts(t, advertised, app) {
        forall i | 0 <= i < |app| ensures app[i] in t.bridge && !Hidden(advertised, app[i]) {
          ShownIsAccepted(t, advertised, host, app[i]);
        }
      }
    } else {
      var i :| 0 <= i < |host| && NamesOf(host)[i] == D3D12;
      var j :| 0 <= j < |t.substitutes| && t.substitutes[j].win32 == D3D12;
      assert D3D12 in t.bridge && !IsNative(t, D3D12);
      assert ShownFor(t, advertised, host[i].name, D3D12);
      EnumeratedNames(t, advertised, host, D3D12);
      assert DrawnFrom([D3D12], shown);
      assert !Accepts(t, advertised, [D3D12]) by { assert [D3D12][0] == D3D12; }
    }
  }

  /** The host lists no visible Win32 spelling without the native name it stands for. */
  predicate SpellingsBacked(t: Tables, advertised: bool, host: seq<Extension>) {
    forall j :: 0 <= j < |t.substitutes| ==>
      t.substitutes[j].win32 in NamesOf(host) && !Hidden(advertised, t.substitutes[j].win32) ==>
      t.substitutes[j].native in NamesOf(host)
  }

  lemma ForwardedNameIsHosts(t: Tables, advertised: bool, host: seq<Extension>, name: string)
    requires TablesOk(t) && SpellingsBacked(t, advertised, host)
    requires name in NamesOf(Enumerated(t, advertised, host)) && !Hidden(advertised, name) && !IsBridgeOnly(t, name)
    ensures Translate(t, name) in NamesOf(host)
  {
    EnumeratedNames(t, advertised, host, name);
    TranslateIs(t, name, 0);
    var i :| 0 <= i < |host| && ShownFor(t, advertised, host[i].name, name);
    assert NamesOf(host)[i] == host[i].name;
    if j :| 0 <= j < |t.substitutes| && t.substitutes[j].win32 == name {
      assert Translate(t, name) == t.substitutes[j].native;
    } else {
      assert Translate(t, name) == name;
    }
  }

  /** Every accepted list drawn from the enumeration forwards only names the host enumerated, exactly
      if the host backs each Win32 spelling it lists. */
  lemma ForwardsOnlyHostNames(t: Tables, advertised: bool, host: seq<Extension>)
    requires TablesOk(t)
    ensures (forall app :: DrawnFrom(app, Enumerated(t, advertised, host)) && Accepts(t, advertised, app) ==>
               forall h :: h in Forwarded(t, app) ==> h in NamesOf(host))
            <==> SpellingsBacked(t, advertised, host)
  {
    var shown := Enumerated(t, advertised, host);
    if SpellingsBacked(t, advertised, host) {
      forall app, h | DrawnFrom(app, shown) && Accepts(t, advertised, app) && h in Forwarded(t, app)
        ensures h in NamesOf(host)
      {
        ForwardedIsImage(t, app);
        var i :| 0 <= i < |app| && !IsBridgeOnly(t, app[i]) && Translate(t, app[i]) == h;
        ForwardedNameIsHosts(t, advertised, host, app[i]);
      }
    } else {
      var j :| 0 <= j < |t.substitutes| && t.substitutes[j].win32 in NamesOf(host)
               && !Hidden(advertised, t.substitutes[j].win32) && t.substitutes[j].native !in NamesOf(host);
      var name := t.substitutes[j].win32;
      var i :| 0 <= i < |host| && NamesOf(host)[i] == name;
      assert ShownFor(t, advertised, host[i].name, name);
      EnumeratedNames(t, advertised, host, name);
      TranslateIs(t, name, 0);
      var app := [name];
      assert app[0] == name;
      assert DrawnFrom(app, shown) && Accepts(t, advertised, app);
      ForwardedIsImage(t, app);
      assert t.substitutes[j].native in Forwarded(t, app);
    }
  }

  // ---- The code -------------------------------------------------------------------------------------

  method IsSupported(names: seq<string>, name: string) returns (r: bool)
    ensures r <==> name in names
  {
    for i := 0 to |names|
      invariant forall k :: 0 <= k < i ==> names[k] != name
    {
      if names[i] == name { return true; }
    }
    r := false;
  }

  /** The filled part of a buffer: the first entries of the ideal list, and nothing else changed. */
  ghost predicate Filled(now: seq<Extension>, before: seq<Extension>, cap: nat, ideal: seq<Extension>)
  {
    && |now| == |before| && cap <= |now|
    && (forall i :: 0 <= i < |now| ==> now[i] == if i < cap && i < |ideal| then ideal[i] else before[i])
  }

  /** emit_extension. */
  method Emit(out: array<Extension>, cap: nat, count: nat, e: Extension, ghost before: seq<Extension>,
              ghost ideal: seq<Extension>)
    returns (next: nat)
    requires Filled(out[..], before, cap, ideal) && count == |ideal|
    modifies out
    ensures Filled(out[..], before, cap, ideal + [e]) && next == count + 1
  {
    if count < cap { out[count] := e; }
    next := count + 1;
  }

  /** apply_substitutions. With capacity 0 it only counts; with any capacity the total is the same and
      the buffer holds the first entries of the same list. */
  method ApplySubstitutions(t: Tables, advertised: bool, host: seq<Extension>, out: array<Extension>, cap: nat)
    returns (total: nat)
    requires cap <= out.Length
    modifies out
    ensures total == |Enumerated(t, advertised, host)|
    ensures Filled(out[..], old(out[..]), cap, Enumerated(t, advertised, host))
  {
    total := 0;
    ghost var before := out[..];
    for i := 0 to |host|
      invariant total == |EmittedAll(t, advertised, host[..i])|
      invariant Filled(out[..], before, cap, EmittedAll(t, advertised, host[..i]))
    {
      assert host[..i + 1][..i] == host[..i];
      total := EmitOne(t, advertised, host[i], out, cap, total, before, EmittedAll(t, advertised, host[..i]));
    }
    assert host[..|host|] == host;
    ghost var emitted := EmittedAll(t, advertised, host);
    for i := 0 to |t.bridgeOnly|
      invariant total == |emitted + t.bridgeOnly[..i]|
      invariant Filled(out[..], before, cap, emitted + t.bridgeOnly[..i])
    {
      total := Emit(out, cap, total, t.bridgeOnly[i], before, emitted + t.bridgeOnly[..i]);
      assert emitted + t.bridgeOnly[..i] + [t.bridgeOnly[i]] == emitted + t.bridgeOnly[..i + 1];
    }
    assert t.bridgeOnly[..|t.bridgeOnly|] == t.bridgeOnly;
  }

  /** What one native extension turns into. */
  method EmitOne(t: Tables, advertised: bool, native: Extension, out: array<Extension>, cap: nat, count: nat,
                 ghost before: seq<Extension>, ghost ideal: seq<Extension>)
    returns (next: nat)
    requires Filled(out[..], before, cap, ideal) && count == |ideal|
    modifies out
    ensures next == |ideal + Emitted(t, advertised, native)|
    ensures Filled(out[..], before, cap, ideal + Emitted(t, advertised, native))
  {
    next := count;
    var handled := false;
    assert ideal + [] == ideal;
    for j := 0 to |t.substitutes|
      invariant next == |ideal + Substituted(t, advertised, native, j)|
      invariant Filled(out[..], before, cap, ideal + Substituted(t, advertised, native, j))
      invariant handled <==> exists k :: 0 <= k < j && t.substitutes[k].native == native.name
    {
      var sub := t.substitutes[j];
      ghost var sofar := ideal + Substituted(t, advertised, native, j);
      assert sofar + [] == sofar;
      if sub.native == native.name {
        if !Hidden(advertised, sub.win32) {
          next := Emit(out, cap, next, Extension(sub.win32, sub.version), before, sofar);
        }
        handled := true;
      }
      assert ideal + Substituted(t, advertised, native, j + 1) ==
             sofar + if sub.native == native.name && !Hidden(advertised, sub.win32)
                     then [Extension(sub.win32, sub.version)] else [];
    }
    ghost var sofar := ideal + Substituted(t, advertised, native, |t.substitutes|);
    assert sofar + [] == sofar;
    var supported := IsSupported(t.bridge, native.name);
    if !handled && supported { next := Emit(out, cap, next, native, before, sofar); }
    assert ideal + Emitted(t, advertised, native) ==
           sofar + if !IsNative(t, native.name) && native.name in t.bridge then [native] else [];
  }

  /** The enumeration entry point: a fill is SIZE_INSUFFICIENT exactly if the buffer is shorter than
      the list, so a fill sized by a count succeeds. The host is asked for its list if it has any. */
  method EnumerateExtensions(t: Tables, advertised: bool, host: HostList<Extension>, memory: bool,
                             out: array<Extension>, counting: bool)
    returns (outcome: Outcome, total: Option<nat>)
    modifies out
    ensures var ideal := Enumerated(t, advertised, if host.count != 0 then host.list else []);
            && outcome == OutcomeOf(host, host.count != 0, memory, counting || |ideal| <= out.Length)
            && total == (if Counts(outcome) then Some(|ideal|) else None)
            && Filled(out[..], old(out[..]), if counting || !Counts(outcome) then 0 else out.Length, ideal)
  {
    if host.countCode != 0 { return HostError(host.countCode), None; }
    var native := [];
    if host.count != 0 {
      if !memory { return OutOfMemory, None; }
      if host.fillCode != 0 { return HostError(host.fillCode), None; }
      native := host.list;
    }
    var n := ApplySubstitutions(t, advertised, native, out, if counting then 0 else out.Length);
    return if counting || n <= out.Length then Success else SizeInsufficient, Some(n);
  }

  /** The extension part of wine_xrCreateInstance: check every name, then build the host's list. */
  method TranslateList(t: Tables, advertised: bool, app: seq<string>) returns (r: Option<seq<string>>)
    ensures r == if Accepts(t, advertised, app) then Some(Forwarded(t, app)) else None
  {
    for i := 0 to |app|
      invariant Accepts(t, advertised, app[..i])
    {
      var supported := IsSupported(t.bridge, app[i]);
      if !supported || Hidden(advertised, app[i]) { return None; }
    }
    assert app[..|app|] == app;
    var list: seq<string> := [];
    for i := 0 to |app|
      invariant list == Forwarded(t, app[..i])
    {
      assert app[..i + 1][..i] == app[..i];
      if IsBridgeOnly(t, app[i]) { continue; }
      var hostName := Translate(t, app[i]);
      var known := IsSupported(list, hostName);
      if !known { list := list + [hostName]; }
    }
    r := Some(list);
  }

  // ---- The shipped tables ------------------------------------------------------------------------------

  const D3D11 := "XR_KHR_D3D11_enable"
  const METAL := "XR_KHR_metal_enable"
  const CONVERT_TIME := "XR_KHR_win32_convert_performance_counter_time"

  /** The versions come from the OpenXR headers. */
  function Shipped(d3d11: nat, d3d12: nat, convertTime: nat): Tables {
    Tables(
      ["XR_EXT_hand_tracking", "XR_FB_display_refresh_rate", D3D11, D3D12, "XR_KHR_composition_layer_cube",
       "XR_KHR_composition_layer_cylinder", "XR_KHR_composition_layer_depth", "XR_KHR_composition_layer_equirect",
       "XR_KHR_composition_layer_equirect2", "XR_KHR_extended_struct_name_lengths", "XR_KHR_locate_spaces",
       "XR_KHR_visibility_mask", CONVERT_TIME, "XR_META_performance_metrics"],
      [Substitution(D3D11, METAL, d3d11), Substitution(D3D12, METAL, d3d12)],
      [Extension(CONVERT_TIME, convertTime)])
  }

  lemma MetalIsNative(d3d11: nat, d3d12: nat, convertTime: nat)
    ensures METAL !in Shipped(d3d11, d3d12, convertTime).bridge
  {
  }

  lemma ShippedTablesAreOk(d3d11: nat, d3d12: nat, convertTime: nat)
    ensures TablesOk(Shipped(d3d11, d3d12, convertTime))
  {
    var t := Shipped(d3d11, d3d12, convertTime);
    MetalIsNative(d3d11, d3d12, convertTime);
    assert t.bridge[2] == D3D11 && t.bridge[3] == D3D12 && t.bridge[12] == CONVERT_TIME;
    assert t.substitutes[1].win32 == D3D12;
    assert D3D11[11] == '1' && D3D12[11] == '2';
    assert |CONVERT_TIME| > 19 && |D3D11| == |D3D12| == 19;
  }
}
