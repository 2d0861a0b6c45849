/** The unix half's single dispatch table across instance create and destroy, and its agreement with
    the gate of the PE half. */
module Dispatch {
  import opened Prelude
  import opened Negotiation
  import GenerationPlan
  import Lookup
  import opened StringOrder

  /** openxr_instance_functions: each slot and the extension it needs. */
  datatype Function = Function(name: string, extension: Option<string>)

  /** Function pointers by name; a missing key is NULL. */
  type Pointers = map<string, nat>

  predicate Wanted(f: Function, forwarded: seq<string>) {
    f.extension.Some? ==> f.extension.value in forwarded
  }

  /** The slots wine_xrCreateInstance fills: wanted by this instance and supplied by the host. */
  function Slots(functions: seq<Function>, forwarded: seq<string>, host: Pointers, n: nat): Pointers
    requires n <= |functions|
  {
    if n == 0 then map[]
    else
      var f, before := functions[n - 1], Slots(functions, forwarded, host, n - 1);
      if Wanted(f, forwarded) && f.name in host then before[f.name := host[f.name]] else before
  }

  datatype State = State(live: bool, table: Pointers, app: seq<string>, host: Pointers)

  /** `memory`: there is room for the host's extension list, which is allocated only for a non-empty
      application list; `hostOk`: the host's own xrCreateInstance succeeds; `host`: what its xrGetInstanceProcAddr
      supplies. `clientExts` is the application's extension list. */
  datatype Action =
    | Create(clientExts: seq<string>, memory: bool, hostOk: bool, host: Pointers)
    | Destroy

  datatype CreateResult = Created | LimitReached | ExtensionNotPresent | OutOfMemory | HostFailed

  function CreateOutcome(t: Tables, advertised: bool, s: State, clientExts: seq<string>,
                         memory: bool, hostOk: bool): CreateResult {
    if s.live then LimitReached
    else if !Accepts(t, advertised, clientExts) then ExtensionNotPresent
    else if clientExts != [] && !memory then OutOfMemory
    else if !hostOk then HostFailed
    else Created
  }

  function Apply(t: Tables, advertised: bool, functions: seq<Function>, s: State, a: Action): State {
    match a
    case Create(clientExts, memory, hostOk, host) =>
      if CreateOutcome(t, advertised, s, clientExts, memory, hostOk).Created? then
        State(true, s.table + Slots(functions, Forwarded(t, clientExts), host, |functions|), clientExts, host)
      else s
    case Destroy => State(false, map[], [], map[])
  }

  function After(t: Tables, advertised: bool, functions: seq<Function>, actions: seq<Action>): State {
    if actions == [] then State(false, map[], [], map[])
    else
      var before := After(t, advertised, functions, actions[..|actions| - 1]);
      Apply(t, advertised, functions, before, actions[|actions| - 1])
  }

  /** A slot name belongs to one function. */
  predicate DistinctSlots(functions: seq<Function>) {
    forall i, j :: 0 <= i < j < |functions| ==> functions[i].name != functions[j].name
  }

  lemma {:induction false} SlotsAre(functions: seq<Function>, forwarded: seq<string>, host: Pointers, n: nat,
                                    name: string)
    requires n <= |functions| && DistinctSlots(functions)
    ensures name in Slots(functions, forwarded, host, n) <==>
            name in host && exists i :: 0 <= i < n && functions[i].name == name && Wanted(functions[i], forwarded)
    ensures name in Slots(functions, forwarded, host, n) ==> Slots(functions, forwarded, host, n)[name] == host[name]
  {
    if n != 0 { SlotsAre(functions, forwarded, host, n - 1, name); }
  }

  /** Over every run of creates and destroys, successful or not: without a live instance the table is
      all NULL; with one, it holds exactly what that instance's own create put there, with nothing
      left over from earlier instances. */
  lemma {:induction false} TableBelongsToInstance(t: Tables, advertised: bool, functions: seq<Function>,
                                                  actions: seq<Action>)
    ensures var s := After(t, advertised, functions, actions);
            if s.live then
              s.table == Slots(functions, Forwarded(t, s.app), s.host, |functions|) && Accepts(t, advertised, s.app)
            else s.table == map[]
  {
    if actions != [] {
      TableBelongsToInstance(t, advertised, functions, actions[..|actions| - 1]);
      var before := After(t, advertised, functions, actions[..|actions| - 1]);
      var a := actions[|actions| - 1];
      if a.Create? {
        var filled := Slots(functions, Forwarded(t, a.clientExts), a.host, |functions|);
        assert !before.live ==> before.table + filled == filled;
      }
    }
  }

  /** A slot is not NULL exactly if an instance is live, the host supplies the function, and it is a core
      function or belongs to an extension forwarded for that instance. It then holds the host's pointer. */
  lemma NonNullSlots(t: Tables, advertised: bool, functions: seq<Function>, actions: seq<Action>, name: string)
    requires DistinctSlots(functions)
    ensures var s := After(t, advertised, functions, actions);
            && (name in s.table <==>
                  && s.live && name in s.host
                  && exists i :: 0 <= i < |functions| && functions[i].name == name
                       && (functions[i].extension.None? || functions[i].extension.value in Forwarded(t, s.app)))
            && (name in s.table ==> s.table[name] == s.host[name])
  {
    TableBelongsToInstance(t, advertised, functions, actions);
    var s := After(t, advertised, functions, actions);
    SlotsAre(functions, Forwarded(t, s.app), s.host, |functions|, name);
  }

  // ---- Agreement with the PE gate -----------------------------------------------------------------

  /** The live instance as the PE half recorded it after creating it with s.app. */
  ghost predicate Recorded(t: Tables, s: State, instance: Lookup.Instance) {
    && |instance.words| == (|t.bridge| + 63) / 64
    && forall i :: 0 <= i < |t.bridge| ==> (Lookup.TestBit(instance.words, i) <==> t.bridge[i] in s.app)
  }

  /** Row and slot of one automatically thunked function agree on the extension. */
  predicate SameExtension(t: Tables, row: Lookup.Row, f: Function) {
    && row.name == f.name
    && if f.extension.Some? then
         0 <= row.extension < |t.bridge| && t.bridge[row.extension] == f.extension.value
       else row.extension == -1
  }

  /** An extension whose own name reaches the host. */
  predicate ForwardedUnderOwnName(t: Tables, name: string) {
    !IsBridgeOnly(t, name) && !IsWin32(t, name)
  }

  /** Whenever the gate opens for an automatically thunked function and the host supplies it, its slot
      has been filled - for core functions always, for extension functions exactly if the extension
      goes to the host under its own name. */
  lemma GateAgreesWithTable(t: Tables, advertised: bool, functions: seq<Function>, actions: seq<Action>,
                            instance: Lookup.Instance, row: Lookup.Row, i: nat)
    requires TablesOk(t) && DistinctSlots(functions) && i < |functions| && SameExtension(t, row, functions[i])
    requires var s := After(t, advertised, functions, actions);
             s.live && Recorded(t, s, instance) && functions[i].name in s.host
    requires Lookup.Opens(instance, row)
    ensures functions[i].extension.None? || ForwardedUnderOwnName(t, functions[i].extension.value)
            <==> functions[i].name in After(t, advertised, functions, actions).table
  {
    var s, f := After(t, advertised, functions, actions), functions[i];
    TableBelongsToInstance(t, advertised, functions, actions);
    SlotsAre(functions, Forwarded(t, s.app), s.host, |functions|, f.name);
    ForwardedIsImage(t, s.app);
    assert f.name in s.table <==> Wanted(f, Forwarded(t, s.app));
    if f.extension.Some? {
      var e := f.extension.value;
      assert e in s.app;
      if ForwardedUnderOwnName(t, e) {
        TranslateIs(t, e, 0);
      } else if e in Forwarded(t, s.app) {
        var k :| 0 <= k < |s.app| && !IsBridgeOnly(t, s.app[k]) && Translate(t, s.app[k]) == e;
        OwnNameOnly(t, s.app[k]);
      }
    }
  }

  /** A bridge name never comes out of a translation unless it went in and is forwarded as it is. */
  lemma OwnNameOnly(t: Tables, name: string)
    requires TablesOk(t) && !IsBridgeOnly(t, name)
    ensures Translate(t, name) in t.bridge ==> Translate(t, name) == name && !IsWin32(t, name)
  {
    TranslateIs(t, name, 0);
    if IsWin32(t, name) {
      var j :| 0 <= j < |t.substitutes| && t.substitutes[j].win32 == name;
      assert Translate(t, name) == t.substitutes[j].native;
    }
  }

  // ---- ... for the tables of every accepted plan ---------------------------------------------------

  /** openxr_instance_functions as the generator emits it. */
  function InstanceFunctions(es: seq<GenerationPlan.Entry>): (r: seq<Function>)
    ensures |r| == |es| && forall k :: 0 <= k < |r| ==> r[k] == InstanceFunction(es[k])
  {
    seq(|es|, k requires 0 <= k < |es| => InstanceFunction(es[k]))
  }

  function InstanceFunction(e: GenerationPlan.Entry): Function {
    Function(e.name, if Present(e.info.extension) then e.info.extension else None)
  }

  function FunctionsOf(p: GenerationPlan.Plan): seq<Function> {
    InstanceFunctions(GenerationPlan.DispatchFields(p.generated, p.unixOnly))
  }

  lemma PlanSlotsDistinct(c: GenerationPlan.Config, r: GenerationPlan.Registry, p: GenerationPlan.Plan)
    requires GenerationPlan.PlanOk(c, r, p) && GenerationPlan.GuardsKnown(p.generated, p.unixOnly)
    ensures DistinctSlots(FunctionsOf(p))
  {
    GenerationPlan.DispatchNamesDistinct(c, r, p);
    var fields := GenerationPlan.DispatchFields(p.generated, p.unixOnly);
    forall i, j | 0 <= i < j < |fields| ensures FunctionsOf(p)[i].name != FunctionsOf(p)[j].name {
      assert fields[i].name != fields[j].name;
    }
  }

  /** A generated function whose unix half is automatic has a slot that agrees with its row. */
  lemma PlanSlot(c: GenerationPlan.Config, r: GenerationPlan.Registry, p: GenerationPlan.Plan, t: Tables, i: nat)
    returns (k: nat)
    requires GenerationPlan.ConfigOk(c) && GenerationPlan.PlanOk(c, r, p)
    requires GenerationPlan.GuardsKnown(p.generated, p.unixOnly) && t.bridge == p.extensionRows
    requires i < |p.generated| && p.generated[i].info.policy.unix.Auto?
    ensures k < |FunctionsOf(p)| && FunctionsOf(p)[k] == InstanceFunction(p.generated[i])
    ensures SameExtension(t, p.functionRows[i], FunctionsOf(p)[k])
  {
    var e, es := p.generated[i], p.generated + p.unixOnly;
    GenerationPlan.ClassifiedPolicies(c, r, r.commands.Keys, p.generated, p.unixOnly);
    assert e in p.generated && e in es;
    GenerationPlan.WithDispatchIs(es);
    GenerationPlan.InEmitted(GenerationPlan.WithDispatch(es), e);
    var fields := GenerationPlan.DispatchFields(p.generated, p.unixOnly);
    k :| 0 <= k < |fields| && fields[k] == e;
    assert GenerationPlan.RowOk(p.extensionRows, e, p.functionRows[i]);
  }

  /** The live instance, after creating it through a gate that opens for this row; the host supplies
      the function. */
  ghost predicate GateOpens(t: Tables, s: State, instance: Lookup.Instance, row: Lookup.Row) {
    s.live && Recorded(t, s, instance) && row.name in s.host && Lookup.Opens(instance, row)
  }

  /** What GateAgreesWithTable says of one generated function. */
  ghost predicate GateAgrees(t: Tables, s: State, instance: Lookup.Instance, row: Lookup.Row, e: GenerationPlan.Entry) {
    var f := InstanceFunction(e);
    e.info.policy.unix.Auto? && GateOpens(t, s, instance, row) ==>
      (f.name in s.table <==> f.extension.None? || ForwardedUnderOwnName(t, f.extension.value))
  }

  /** Gate and table agree on every automatically thunked function of every accepted plan, for tables
      generated with it. */
  lemma AcceptedPlanGateAgrees(c: GenerationPlan.Config, r: GenerationPlan.Registry, p: GenerationPlan.Plan,
                               t: Tables, advertised: bool, actions: seq<Action>, instance: Lookup.Instance)
    requires GenerationPlan.ConfigOk(c) && GenerationPlan.Accepted(c, r, p)
    ensures var s := After(t, advertised, FunctionsOf(p), actions);
            TablesOk(t) && t.bridge == p.extensionRows ==>
              forall i :: 0 <= i < |p.generated| ==> GateAgrees(t, s, instance, p.functionRows[i], p.generated[i])
  {
    GenerationPlan.AcceptedPlanFits(c, r, p.generated, p.unixOnly);
    PlanSlotsDistinct(c, r, p);
    var s := After(t, advertised, FunctionsOf(p), actions);
    if TablesOk(t) && t.bridge == p.extensionRows {
      forall i | 0 <= i < |p.generated| ensures GateAgrees(t, s, instance, p.functionRows[i], p.generated[i]) {
        if p.generated[i].info.policy.unix.Auto? && GateOpens(t, s, instance, p.functionRows[i]) {
          var k := PlanSlot(c, r, p, t, i);
          GateAgreesWithTable(t, advertised, FunctionsOf(p), actions, instance, p.functionRows[i], k);
        }
      }
    }
  }

  // ---- The code -------------------------------------------------------------------------------------

  /** g_xr_host_instance_dispatch_table and g_instance_live, under g_instance_lock. */
  class UnixInstance {
    const tables: Tables
    const advertised: bool
    const functions: seq<Function>
    var table: Pointers
    var live: bool
    ghost var app: seq<string>
    ghost var host: Pointers

    ghost function Abs(): State
      reads this
    {
      State(live, table, app, host)
    }

    constructor (tables: Tables, advertised: bool, functions: seq<Function>)
      ensures Abs() == State(false, map[], [], map[])
      ensures this.tables == tables && this.advertised == advertised && this.functions == functions
    {
      this.tables, this.advertised, this.functions := tables, advertised, functions;
      table, live, app, host := map[], false, [], map[];
    }

    method CreateInstance(clientExts: seq<string>, memory: bool, hostOk: bool, host: Pointers)
      returns (result: CreateResult)
      modifies this
      ensures Abs() == Apply(tables, advertised, functions, old(Abs()), Create(clientExts, memory, hostOk, host))
      ensures result == if old(live) then LimitReached
                        else if exists name :: name in clientExts
                                  && (name !in tables.bridge || (name == D3D12 && !advertised))
                        then ExtensionNotPresent
                        else if clientExts != [] && !memory then OutOfMemory
                        else if !hostOk then HostFailed
                        else Created
      ensures live <==> old(live) || result.Created?
    {
      if live { return LimitReached; }
      var list := TranslateList(tables, advertised, clientExts);
      if list.None? { return ExtensionNotPresent; }
      if clientExts != [] && !memory { return OutOfMemory; }
      if !hostOk { return HostFailed; }
      FillTable(list.value, host);
      live, app, this.host := true, clientExts, host;
      result := Created;
    }

    /** Ask the host for every function this instance wants. */
    method FillTable(list: seq<string>, host: Pointers)
      modifies this`table
      ensures table == old(table) + Slots(functions, list, host, |functions|)
    {
      for index := 0 to |functions|
        invariant table == old(table) + Slots(functions, list, host, index)
      {
        var slot := functions[index];
        var enabled := true;
        if slot.extension.Some? { enabled := IsSupported(list, slot.extension.value); }
        if enabled && slot.name in host { table := table[slot.name := host[slot.name]]; }
      }
    }

    /** wine_xrDestroyInstance: snapshot the host's destroy function, then clear the table. */
    method DestroyInstance() returns (destroy: Option<nat>)
      modifies this
      ensures Abs() == Apply(tables, advertised, functions, old(Abs()), Destroy) && !live && table == map[]
      ensures destroy == if "xrDestroyInstance" in old(table) then Some(old(table)["xrDestroyInstance"]) else None
    {
      destroy := if "xrDestroyInstance" in table then Some(table["xrDestroyInstance"]) else None;
      table, live := map[], false;
      app, host := [], map[];
    }
  }
}
