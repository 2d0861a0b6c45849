/** GenerationPlan.from_registry: what it accepts, and why the tables emitted from one plan fit
    together. */
module GenerationPlan {
  import opened Prelude
  import opened StringOrder
  import TypeClosure
  import DependsExpression
  import Lookup

  datatype Emit = Auto | Manual | Skip

  datatype Policy = Policy(pe: Emit, unix: Emit, dispatch: bool, extraParams: bool)

  /** What ThunkPolicy's constructor lets through. */
  predicate PolicyOk(p: Policy) {
    && (p.pe.Skip? ==> p.unix.Skip?)
    && (p.unix.Skip? ==> !p.pe.Auto?)
    && (p.extraParams ==> !p.pe.Skip? && !p.unix.Skip?)
    && (!p.dispatch ==> !p.unix.Auto?)
  }

  const DEFAULT := Policy(Auto, Auto, true, false)

  datatype Command = Command(parameters: seq<string>, alias: Option<string>)

  datatype ExtensionInfo = ExtensionInfo(guard: Option<string>, depends: Option<string>, commands: set<string>,
                                         types: set<string>, conditional: bool)

  /** A member of an event structure that holds a handle the bridge wraps. */
  datatype EventStruct = EventStruct(name: string, member: string, memberType: string)

  datatype Registry = Registry(commands: map<string, Command>, types: TypeClosure.Types,
                               structExtends: map<string, set<string>>,
                               extensions: map<string, ExtensionInfo>, coreMinor: map<string, nat>,
                               eventStructs: seq<EventStruct>)

  /** The generator's own constants. */
  datatype Config = Config(policies: map<string, Policy>, supported: set<string>, globals: set<string>,
                           customCalls: seq<string>, strippedChains: set<string>, coreFeatures: set<string>)

  ghost predicate ConfigOk(c: Config) {
    forall n :: n in c.policies ==> PolicyOk(c.policies[n])
  }

  datatype Info = Info(policy: Policy, guard: Option<string>, extension: Option<string>, coreMinor: nat, global: bool,
                       command: Command)

  datatype Entry = Entry(name: string, info: Info)

  datatype Error =
    | MultipleProviders(name: string)
    | UnmatchedPolicy(name: string)
    | UnsupportedProvider(name: string)
    | Boundary(name: string, violation: TypeClosure.Violation)
    | UnknownType(name: string)
    | HalfAlias(name: string)
    | UnknownExtension(name: string)
    | CommandNotGenerated(name: string)
    | DependsUnsatisfied(name: string)
    | ConditionalRequires(name: string)
    | ForwardedChain(name: string)
    | ForeignHandle(name: string)
    | UnknownGuard

  // ---- What becomes of one command ----------------------------------------------------------------

  function Providers(r: Registry, name: string): set<string> {
    set e | e in r.extensions && name in r.extensions[e].commands
  }

  ghost function Provider(r: Registry, name: string): Option<string> {
    if Providers(r, name) == {} then None else var e :| e in Providers(r, name); Some(e)
  }

  lemma OneProvider(s: set<string>, a: string, b: string)
    requires |s| <= 1 && a in s && b in s
    ensures a == b
  {
    assert |s - {a}| == |s| - 1;
    assert s - {a} == {};
  }

  ghost function InfoOf(c: Config, r: Registry, name: string): Info
    requires name in r.commands
  {
    var extension := Provider(r, name);
    Info(if name in c.policies then c.policies[name] else DEFAULT,
         if Present(extension) then r.extensions[extension.value].guard else None,
         extension, if name in r.coreMinor then r.coreMinor[name] else 0, name in c.globals, r.commands[name])
  }

  ghost predicate Kept(c: Config, r: Registry, name: string) {
    && name in r.commands
    && (name in r.coreMinor || name in c.policies
        || (Provider(r, name).Some? && Provider(r, name).value in c.supported))
  }

  /** The two dictionaries, in insertion order: kept commands whose PE half is generated, and the rest. */
  ghost predicate Classified(c: Config, r: Registry, names: set<string>, generated: seq<Entry>, unixOnly: seq<Entry>) {
    && (forall n :: n in names && Kept(c, r, n) ==>
          Entry(n, InfoOf(c, r, n)) in if InfoOf(c, r, n).policy.pe.Skip? then unixOnly else generated)
    && (forall e :: e in generated ==>
          e.name in names && Kept(c, r, e.name) && e.info == InfoOf(c, r, e.name) && !e.info.policy.pe.Skip?)
    && (forall e :: e in unixOnly ==>
          e.name in names && Kept(c, r, e.name) && e.info == InfoOf(c, r, e.name) && e.info.policy.pe.Skip?)
  }

  predicate EntriesSorted(es: seq<Entry>) {
    forall i, j :: 0 <= i < j < |es| ==> Less(es[i].name, es[j].name)
  }

  /** What one turn of the loop keeps of a command: nothing, or its information. */
  method ClassifyOne(c: Config, r: Registry, name: string) returns (result: Result<Option<Info>, Error>)
    requires name in r.commands
    ensures result.Ok? <==> |Providers(r, name)| <= 1
    ensures result.Ok? ==> result.value == if Kept(c, r, name) then Some(InfoOf(c, r, name)) else None
  {
    var providers := Providers(r, name);
    if |providers| > 1 { return Err(MultipleProviders(name)); }
    var extension := None;
    if providers != {} {
      var e :| e in providers;
      extension := Some(e);
      OneProvider(providers, e, Provider(r, name).value);
    }
    assert extension == Provider(r, name);
    if name !in r.coreMinor && name !in c.policies && (extension.None? || extension.value !in c.supported) {
      return Ok(None);
    }
    return Ok(Some(Info(if name in c.policies then c.policies[name] else DEFAULT,
                        if Present(extension) then r.extensions[extension.value].guard else None,
                        extension, if name in r.coreMinor then r.coreMinor[name] else 0, name in c.globals,
                        r.commands[name])));
  }

  /** Where one turn of the loop puts it. */
  function Placed(es: seq<Entry>, name: string, info: Option<Info>, skipped: bool): seq<Entry> {
    if info.Some? && info.value.policy.pe.Skip? == skipped then es + [Entry(name, info.value)] else es
  }

  /** One turn of the loop keeps both dictionaries in order. */
  lemma ClassifyTurn(c: Config, r: Registry, names: set<string>, generated: seq<Entry>, unixOnly: seq<Entry>,
                     name: string, info: Option<Info>)
    requires name in r.commands && info == if Kept(c, r, name) then Some(InfoOf(c, r, name)) else None
    requires Classified(c, r, names, generated, unixOnly) && EntriesSorted(generated) && EntriesSorted(unixOnly)
    requires forall n :: n in names ==> Less(n, name)
    ensures var generated', unixOnly' := Placed(generated, name, info, false), Placed(unixOnly, name, info, true);
            && Classified(c, r, names + {name}, generated', unixOnly')
            && EntriesSorted(generated') && EntriesSorted(unixOnly')
  {
  }

  lemma SeenBefore(names: seq<string>, i: nat, seen: set<string>)
    requires Sorted(names) && i < |names| && forall n :: n in seen <==> n in names[..i]
    ensures forall n :: n in seen ==> Less(n, names[i])
    ensures forall n :: n in seen + {names[i]} <==> n in names[..i + 1]
  {
  }

  method Classify(c: Config, r: Registry)
    returns (result: Result<(seq<Entry>, seq<Entry>), Error>)
    ensures result.Ok? <==> SingleProviders(r)
    ensures result.Ok? ==>
              var (generated, unixOnly) := result.value;
              && EntriesSorted(generated) && EntriesSorted(unixOnly)
              && Classified(c, r, r.commands.Keys, generated, unixOnly)
  {
    var names := SortNames(r.commands.Keys);
    var generated: seq<Entry>, unixOnly: seq<Entry> := [], [];
    ghost var seen: set<string> := {};
    for i := 0 to |names|
      invariant EntriesSorted(generated) && EntriesSorted(unixOnly)
      invariant forall n :: n in seen ==> |Providers(r, n)| <= 1
      invariant forall n :: n in seen <==> n in names[..i]
      invariant Classified(c, r, seen, generated, unixOnly)
    {
      var name := names[i];
      assert name in names;
      SeenBefore(names, i, seen);
      var info := ClassifyOne(c, r, name);
      if info.Err? { return Err(info.error); }
      ClassifyTurn(c, r, seen, generated, unixOnly, name, info.value);
      generated, unixOnly := Placed(generated, name, info.value, false), Placed(unixOnly, name, info.value, true);
      seen := seen + {name};
    }
    assert names[..|names|] == names;
    assert seen == r.commands.Keys;
    result := Ok((generated, unixOnly));
  }

  // ---- The remaining checks -------------------------------------------------------------------------

  predicate HasName(es: seq<Entry>, name: string) {
    exists i :: 0 <= i < |es| && es[i].name == name
  }

  predicate HasUnixCall(e: Entry) {
    !e.info.policy.unix.Skip?
  }

  /** Every type the function's parameters reach is known and may cross the boundary. */
  ghost predicate CrossesSafely(r: Registry, e: Entry) {
    && e.info.guard in TypeClosure.PE_GUARDS
    && forall n :: TypeClosure.Reachable(r.types, e.info.command.parameters, n) ==>
         n in r.types && TypeClosure.Forbids(r.types, n).None?
  }

  predicate AliasOk(c: Config, generated: seq<Entry>, unixOnly: seq<Entry>, e: Entry) {
    var target := e.info.command.alias;
    Present(target) && (HasName(generated, target.value) || HasName(unixOnly, target.value)) ==>
      (e.name in c.policies <==> target.value in c.policies)
  }

  ghost predicate FunctionOk(c: Config, r: Registry, generated: seq<Entry>, unixOnly: seq<Entry>, e: Entry) {
    && (Present(e.info.extension) ==> e.info.extension.value in c.supported)
    && (HasUnixCall(e) ==> CrossesSafely(r, e))
    && AliasOk(c, generated, unixOnly, e)
  }

  /** One supported extension: known, all its commands generated, its dependencies met by the supported
      set, nothing conditional, and no structure chained onto a call the bridge strips. */
  predicate ExtensionOk(c: Config, r: Registry, generated: seq<Entry>, name: string) {
    && name in r.extensions
    && var extension := r.extensions[name];
       && (forall n :: n in extension.commands ==> HasName(generated, n))
       && (Present(extension.depends) ==>
             DependsExpression.Satisfiable(extension.depends.value, c.supported + c.coreFeatures))
       && !extension.conditional
       && (forall n :: n in extension.types && n in r.structExtends ==> r.structExtends[n] !! c.strippedChains)
  }

  method CheckPolicies(c: Config, generated: seq<Entry>, unixOnly: seq<Entry>) returns (error: Option<Error>)
    ensures error.None? <==> forall n :: n in c.policies ==> HasName(generated, n) || HasName(unixOnly, n)
  {
    var names := SortNames(c.policies.Keys);
    for i := 0 to |names|
      invariant forall k :: 0 <= k < i ==> HasName(generated, names[k]) || HasName(unixOnly, names[k])
    {
      assert names[i] in names;
      if !HasName(generated, names[i]) && !HasName(unixOnly, names[i]) { return Some(UnmatchedPolicy(names[i])); }
    }
    forall n | n in c.policies ensures HasName(generated, n) || HasName(unixOnly, n) { assert n in names; }
    error := None;
  }

  method CheckFunction(c: Config, r: Registry, generated: seq<Entry>, unixOnly: seq<Entry>, e: Entry)
    returns (error: Option<Error>)
    ensures error.None? <==> FunctionOk(c, r, generated, unixOnly, e)
  {
    if Present(e.info.extension) && e.info.extension.value !in c.supported { return Some(UnsupportedProvider(e.name)); }
    if HasUnixCall(e) {
      var violation := TypeClosure.BoundaryViolation(r.types, e.info.command.parameters, e.info.guard);
      if violation.Err? { return Some(UnknownType(violation.error)); }
      if violation.value.Some? { return Some(Boundary(e.name, violation.value.value)); }
    }
    if !AliasOk(c, generated, unixOnly, e) { return Some(HalfAlias(e.name)); }
    error := None;
  }

  method CheckExtension(c: Config, r: Registry, generated: seq<Entry>, name: string) returns (error: Option<Error>)
    ensures error.None? <==> ExtensionOk(c, r, generated, name)
  {
    if name !in r.extensions { return Some(UnknownExtension(name)); }
    var extension := r.extensions[name];
    if exists n | n in extension.commands :: !HasName(generated, n) { return Some(CommandNotGenerated(name)); }
    if Present(extension.depends) {
      var met := DependsExpression.DependsSatisfiable(extension.depends.value, c.supported + c.coreFeatures);
      if !met { return Some(DependsUnsatisfied(name)); }
    }
    if extension.conditional { return Some(ConditionalRequires(name)); }
    if exists n | n in extension.types :: n in r.structExtends && !(r.structExtends[n] !! c.strippedChains) {
      return Some(ForwardedChain(name));
    }
    error := None;
  }

  method CheckFunctions(c: Config, r: Registry, generated: seq<Entry>, unixOnly: seq<Entry>)
    returns (error: Option<Error>)
    ensures error.None? <==> forall e :: e in generated ==> FunctionOk(c, r, generated, unixOnly, e)
  {
    for i := 0 to |generated|
      invariant forall k :: 0 <= k < i ==> FunctionOk(c, r, generated, unixOnly, generated[k])
    {
      error := CheckFunction(c, r, generated, unixOnly, generated[i]);
      if error.Some? { return; }
    }
    error := None;
  }

  method CheckExtensions(c: Config, r: Registry, generated: seq<Entry>, names: seq<string>)
    returns (error: Option<Error>)
    requires forall n :: n in names <==> n in c.supported
    ensures error.None? <==> forall n :: n in c.supported ==> ExtensionOk(c, r, generated, n)
  {
    for i := 0 to |names|
      invariant forall k :: 0 <= k < i ==> ExtensionOk(c, r, generated, names[k])
    {
      error := CheckExtension(c, r, generated, names[i]);
      if error.Some? {
        assert names[i] in names;
        return;
      }
    }
    forall n | n in c.supported ensures ExtensionOk(c, r, generated, n) { assert n in names; }
    error := None;
  }

  /** An event structure the application can meet: no extension's, or a supported one's. */
  predicate Offered(c: Config, r: Registry, s: EventStruct) {
    || (forall e :: e in r.extensions ==> s.name !in r.extensions[e].types)
    || (exists e :: e in r.extensions && s.name in r.extensions[e].types && e in c.supported)
  }

  function OfferedEvents(c: Config, r: Registry, structs: seq<EventStruct>): seq<EventStruct> {
    if structs == [] then []
    else
      var rest, last := OfferedEvents(c, r, structs[..|structs| - 1]), structs[|structs| - 1];
      if Offered(c, r, last) then rest + [last] else rest
  }

  /** The rewrite table has exactly the session handles of the events the application can meet. */
  lemma {:induction false} OfferedEventsAre(c: Config, r: Registry, structs: seq<EventStruct>)
    ensures forall s :: s in OfferedEvents(c, r, structs) <==> s in structs && Offered(c, r, s)
  {
    if structs != [] { OfferedEventsAre(c, r, structs[..|structs| - 1]); }
  }

  lemma OwnersDecide(c: Config, r: Registry, s: EventStruct, owners: set<string>)
    requires forall e :: e in owners <==> e in r.extensions && s.name in r.extensions[e].types
    ensures Offered(c, r, s) <==> owners == {} || owners * c.supported != {}
  {
    if owners * c.supported != {} {
      var e :| e in owners * c.supported;
    } else {
      forall e | e in owners ensures e !in c.supported { assert e !in owners * c.supported; }
    }
    if owners != {} { var e :| e in owners; }
  }

  method SessionEvents(c: Config, r: Registry) returns (result: Result<seq<EventStruct>, Error>)
    ensures result.Ok? <==> forall s :: s in r.eventStructs && Offered(c, r, s) ==> s.memberType == "XrSession"
    ensures result.Ok? ==> result.value == OfferedEvents(c, r, r.eventStructs)
  {
    var events: seq<EventStruct> := [];
    for i := 0 to |r.eventStructs|
      invariant events == OfferedEvents(c, r, r.eventStructs[..i])
      invariant forall k :: 0 <= k < i && Offered(c, r, r.eventStructs[k]) ==>
                  r.eventStructs[k].memberType == "XrSession"
    {
      var s := r.eventStructs[i];
      assert r.eventStructs[..i + 1][..i] == r.eventStructs[..i];
      var owners := set e | e in r.extensions && s.name in r.extensions[e].types;
      OwnersDecide(c, r, s, owners);
      if owners != {} && owners * c.supported == {} { continue; }
      if s.memberType != "XrSession" { return Err(ForeignHandle(s.name)); }
      events := events + [s];
    }
    assert r.eventStructs[..|r.eventStructs|] == r.eventStructs;
    result := Ok(events);
  }

  // ---- The tables -------------------------------------------------------------------------------------

  datatype Handler = Wine(name: string) | Thunk(name: string)

  /** One entry of enum unix_call and of __wine_unix_call_funcs. */
  datatype Slot = Slot(suffix: string, handler: Handler)

  datatype Plan = Plan(generated: seq<Entry>, unixOnly: seq<Entry>, extensionRows: seq<string>,
                       sessionEvents: seq<EventStruct>, functionRows: seq<Lookup.Row>, slots: seq<Slot>,
                       dispatchGroups: map<Option<string>, seq<Entry>>)

  /** The name of the i-th slot before the generated ones. */
  function FixedName(calls: seq<string>, i: nat): string
    requires i <= |calls|
  {
    if i == 0 then "init" else calls[i - 1]
  }

  function FixedSlots(calls: seq<string>): (r: seq<Slot>)
    ensures |r| == |calls| + 1
    ensures forall i :: 0 <= i < |r| ==> r[i] == Slot(FixedName(calls, i), Wine(FixedName(calls, i)))
  {
    seq(|calls| + 1, i requires 0 <= i <= |calls| => Slot(FixedName(calls, i), Wine(FixedName(calls, i))))
  }

  function HandlerOf(e: Entry): Handler {
    if e.info.policy.unix.Manual? then Wine(e.name) else Thunk(e.name)
  }

  function GeneratedSlots(es: seq<Entry>): seq<Slot> {
    if es == [] then []
    else
      var rest, last := GeneratedSlots(es[..|es| - 1]), es[|es| - 1];
      if HasUnixCall(last) then rest + [Slot(last.name, HandlerOf(last))] else rest
  }

  /** The position of a suffix: the value of its enumerator. */
  predicate CallNumber(slots: seq<Slot>, suffix: string, n: nat) {
    n < |slots| && slots[n].suffix == suffix
  }

  predicate DistinctSlots(slots: seq<Slot>) {
    forall i, j :: 0 <= i < j < |slots| ==> slots[i].suffix != slots[j].suffix
  }

  lemma {:induction false} GeneratedSlotAt(es: seq<Entry>, e: Entry)
    requires e in es && HasUnixCall(e)
    ensures Slot(e.name, HandlerOf(e)) in GeneratedSlots(es)
  {
    if e != es[|es| - 1] { GeneratedSlotAt(es[..|es| - 1], e); }
  }

  lemma {:induction false} GeneratedSlotFrom(es: seq<Entry>, s: Slot)
    requires s in GeneratedSlots(es)
    ensures exists e :: e in es && HasUnixCall(e) && s == Slot(e.name, HandlerOf(e))
  {
    var last := es[|es| - 1];
    if !(HasUnixCall(last) && s == Slot(last.name, HandlerOf(last))) { GeneratedSlotFrom(es[..|es| - 1], s); }
  }

  function SlotsOf(c: Config, generated: seq<Entry>): seq<Slot> {
    FixedSlots(c.customCalls) + GeneratedSlots(generated)
  }

  /** The row of one function: its extension's position in the sorted extension table. */
  ghost predicate RowOk(extensionRows: seq<string>, e: Entry, row: Lookup.Row) {
    && row.name == e.name && row.global == e.info.global
    && if Present(e.info.extension) then
         && 0 <= row.extension < |extensionRows| && extensionRows[row.extension] == e.info.extension.value
         && row.coreMinor == 0
       else row.extension == -1 && row.coreMinor == e.info.coreMinor
  }

  ghost predicate PlanOk(c: Config, r: Registry, p: Plan) {
    && EntriesSorted(p.generated) && EntriesSorted(p.unixOnly)
    && Classified(c, r, r.commands.Keys, p.generated, p.unixOnly)
    && Sorted(p.extensionRows) && (forall n :: n in p.extensionRows <==> n in c.supported)
    && p.slots == SlotsOf(c, p.generated)
    && |p.functionRows| == |p.generated|
    && (forall i :: 0 <= i < |p.generated| ==> RowOk(p.extensionRows, p.generated[i], p.functionRows[i]))
    && p.sessionEvents == OfferedEvents(c, r, r.eventStructs)
    && (forall g :: g in GUARD_ORDER ==>
          g in p.dispatchGroups && p.dispatchGroups[g] == Group(WithDispatch(p.generated + p.unixOnly), g))
  }

  /** What from_registry demands beyond single providers. */
  ghost predicate Acceptable(c: Config, r: Registry, generated: seq<Entry>, unixOnly: seq<Entry>) {
    && (forall n :: n in c.policies ==> HasName(generated, n) || HasName(unixOnly, n))
    && (forall e :: e in generated ==> FunctionOk(c, r, generated, unixOnly, e))
    && (forall n :: n in c.supported ==> ExtensionOk(c, r, generated, n))
    && (forall s :: s in r.eventStructs && Offered(c, r, s) ==> s.memberType == "XrSession")
    && (forall e :: e in WithDispatch(generated + unixOnly) ==> e.info.guard in GUARD_ORDER)
  }

  predicate SingleProviders(r: Registry) {
    forall n :: n in r.commands ==> |Providers(r, n)| <= 1
  }

  /** A plan from_registry returns for this registry. */
  ghost predicate Accepted(c: Config, r: Registry, p: Plan) {
    SingleProviders(r) && Acceptable(c, r, p.generated, p.unixOnly) && PlanOk(c, r, p)
  }

  // ---- The registries it accepts, in their own terms ------------------------------------------------

  predicate Provides(r: Registry, x: string, n: string) {
    x in r.extensions && n in r.extensions[x].commands
  }

  predicate Declares(r: Registry, x: string, t: string) {
    x in r.extensions && t in r.extensions[x].types
  }

  /** The command is the bridge's business: a core command, one with a policy, or a supported extension's. */
  predicate Covered(c: Config, r: Registry, n: string) {
    && n in r.commands
    && (n in r.coreMinor || n in c.policies
        || exists x :: x in c.supported && Provides(r, x, n))
  }

  /** Without a policy both halves are generated. */
  predicate HasPe(c: Config, n: string) {
    n in c.policies ==> !c.policies[n].pe.Skip?
  }

  /** The guard of the extension that provides the command, None for a core command. */
  ghost predicate GuardIs(r: Registry, n: string, guard: Option<string>) {
    || (exists x :: Provides(r, x, n) && x != "" && r.extensions[x].guard == guard)
    || (guard.None? && forall x :: Provides(r, x, n) ==> x == "")
  }

  /** A type the unix half can take as it is. */
  predicate MayCross(types: TypeClosure.Types, t: string) {
    && t in types && t !in TypeClosure.UNSUPPORTED_TYPES && types[t].category != "funcpointer"
    && (Present(types[t].dependency) ==> types[t].dependency.value in TypeClosure.SUPPORTED_REQUIRES)
  }

  /** A covered command with a PE half: its extension is supported, what it passes to the unix half may
      cross, and it has a policy exactly if a covered alias target has. */
  ghost predicate CommandOk(c: Config, r: Registry, n: string)
    requires n in r.commands
  {
    var command := r.commands[n];
    && (forall x :: Provides(r, x, n) && x != "" ==> x in c.supported)
    && (n !in c.policies || !c.policies[n].unix.Skip? ==>
          && (exists g :: GuardIs(r, n, g) && g in TypeClosure.PE_GUARDS)
          && forall t :: TypeClosure.Reachable(r.types, command.parameters, t) ==> MayCross(r.types, t))
    && (Present(command.alias) && Covered(c, r, command.alias.value) ==>
          (n in c.policies <==> command.alias.value in c.policies))
  }

  /** A supported extension: known, with a PE half for each command, dependencies met, nothing
      conditional, and no structure chained onto a call whose chain the bridge strips. */
  predicate SupportedOk(c: Config, r: Registry, x: string) {
    && x in r.extensions && !r.extensions[x].conditional
    && (forall n :: n in r.extensions[x].commands ==> n in r.commands && HasPe(c, n))
    && (Present(r.extensions[x].depends) ==>
          DependsExpression.Satisfiable(r.extensions[x].depends.value, c.supported + c.coreFeatures))
    && (forall t, s :: t in r.extensions[x].types && t in r.structExtends && s in c.strippedChains ==>
          s !in r.structExtends[t])
  }

  ghost predicate RegistryOk(c: Config, r: Registry) {
    && (forall n, x, y :: n in r.commands && Provides(r, x, n) && Provides(r, y, n) ==> x == y)
    && (forall n :: n in c.policies ==> n in r.commands)
    && (forall n :: n in r.commands && Covered(c, r, n) && HasPe(c, n) ==> CommandOk(c, r, n))
    && (forall x :: x in c.supported ==> SupportedOk(c, r, x))
    && (forall s :: s in r.eventStructs && s.memberType != "XrSession" ==>
          (exists x :: Declares(r, x, s.name)) && forall x :: Declares(r, x, s.name) ==> x !in c.supported)
    && (forall n :: Covered(c, r, n) && (n in c.policies ==> c.policies[n].dispatch) ==>
          exists g :: GuardIs(r, n, g) && g in GUARD_ORDER)
  }

  lemma SingleIs(r: Registry)
    ensures SingleProviders(r) <==>
              forall n, x, y :: n in r.commands && Provides(r, x, n) && Provides(r, y, n) ==> x == y
  {
    forall n, x, y | SingleProviders(r) && n in r.commands && Provides(r, x, n) && Provides(r, y, n)
      ensures x == y
    {
      OneProvider(Providers(r, n), x, y);
    }
    forall n | n in r.commands && forall x, y :: Provides(r, x, n) && Provides(r, y, n) ==> x == y
      ensures |Providers(r, n)| <= 1
    {
      var s := Providers(r, n);
      if x :| x in s {
        forall y | y in s ensures y == x { assert Provides(r, x, n) && Provides(r, y, n); }
        assert s == {x};
      }
    }
  }

  lemma ProviderIs(r: Registry, n: string, x: string)
    requires SingleProviders(r) && n in r.commands
    ensures Provides(r, x, n) <==> Provider(r, n) == Some(x)
  {
    var s := Providers(r, n);
    assert Provides(r, x, n) <==> x in s;
    if x in s { OneProvider(s, x, Provider(r, n).value); }
  }

  lemma CoveredIs(c: Config, r: Registry, n: string)
    requires SingleProviders(r) && n in r.commands
    ensures Kept(c, r, n) <==> Covered(c, r, n)
    ensures InfoOf(c, r, n).policy.pe.Skip? <==> !HasPe(c, n)
    ensures forall g :: GuardIs(r, n, g) <==> g == InfoOf(c, r, n).guard
  {
    var p := Provider(r, n);
    forall x ensures Provides(r, x, n) <==> p == Some(x) { ProviderIs(r, n, x); }
    if Present(p) { assert Provides(r, p.value, n); }
  }

  lemma FunctionOkIs(c: Config, r: Registry, generated: seq<Entry>, unixOnly: seq<Entry>, e: Entry)
    requires SingleProviders(r) && Classified(c, r, r.commands.Keys, generated, unixOnly) && e in generated
    ensures FunctionOk(c, r, generated, unixOnly, e) <==> CommandOk(c, r, e.name)
  {
    CoveredIs(c, r, e.name);
    var alias := e.info.command.alias;
    if Present(alias) { PlanKeepsExactly(c, r, generated, unixOnly, alias.value); }
    forall t ensures MayCross(r.types, t) <==> t in r.types && TypeClosure.Forbids(r.types, t).None? {}
    forall x ensures Provides(r, x, e.name) <==> e.info.extension == Some(x) { ProviderIs(r, e.name, x); }
  }

  lemma ExtensionOkIs(c: Config, r: Registry, generated: seq<Entry>, unixOnly: seq<Entry>, x: string)
    requires SingleProviders(r) && Classified(c, r, r.commands.Keys, generated, unixOnly) && x in c.supported
    ensures ExtensionOk(c, r, generated, x) <==> SupportedOk(c, r, x)
  {
    if x in r.extensions {
      forall n | n in r.extensions[x].commands ensures HasName(generated, n) <==> n in r.commands && HasPe(c, n) {
        PlanKeepsExactly(c, r, generated, unixOnly, n);
        assert Provides(r, x, n);
      }
    }
  }

  /** Which commands get an entry, and in which dictionary. */
  lemma PlanKeepsExactly(c: Config, r: Registry, generated: seq<Entry>, unixOnly: seq<Entry>, n: string)
    requires SingleProviders(r) && Classified(c, r, r.commands.Keys, generated, unixOnly)
    ensures HasName(generated, n) <==> Covered(c, r, n) && HasPe(c, n)
    ensures HasName(unixOnly, n) <==> Covered(c, r, n) && !HasPe(c, n)
  {
    if n in r.commands { CoveredIs(c, r, n); }
    if Covered(c, r, n) {
      var e := Entry(n, InfoOf(c, r, n));
      assert e in generated || e in unixOnly;
    }
  }

  lemma KnownGuardsIs(c: Config, r: Registry, generated: seq<Entry>, unixOnly: seq<Entry>)
    requires SingleProviders(r) && Classified(c, r, r.commands.Keys, generated, unixOnly)
    ensures (forall e :: e in WithDispatch(generated + unixOnly) ==> e.info.guard in GUARD_ORDER) <==>
              forall n :: Covered(c, r, n) && (n in c.policies ==> c.policies[n].dispatch) ==>
                exists g :: GuardIs(r, n, g) && g in GUARD_ORDER
  {
    var es := generated + unixOnly;
    WithDispatchIs(es);
    forall n | Covered(c, r, n) ensures Entry(n, InfoOf(c, r, n)) in es { CoveredIs(c, r, n); }
    forall n | n in r.commands ensures GuardIs(r, n, InfoOf(c, r, n).guard) { CoveredIs(c, r, n); }
    forall e | e in es ensures e.info == InfoOf(c, r, e.name) && Covered(c, r, e.name) { CoveredIs(c, r, e.name); }
    if forall n :: Covered(c, r, n) && (n in c.policies ==> c.policies[n].dispatch) ==>
         exists g :: GuardIs(r, n, g) && g in GUARD_ORDER
    {
      forall e | e in WithDispatch(es) ensures e.info.guard in GUARD_ORDER { CoveredIs(c, r, e.name); }
    }
  }

  lemma OfferedIs(c: Config, r: Registry, s: EventStruct)
    ensures Offered(c, r, s) <==>
            ((exists x :: Declares(r, x, s.name)) ==> exists x :: Declares(r, x, s.name) && x in c.supported)
  {
    if x :| Declares(r, x, s.name) && x in c.supported {
      assert x in r.extensions && s.name in r.extensions[x].types;
    }
    if x :| x in r.extensions && s.name in r.extensions[x].types {
      assert Declares(r, x, s.name);
    }
  }

  lemma PoliciesIs(c: Config, r: Registry, generated: seq<Entry>, unixOnly: seq<Entry>)
    requires SingleProviders(r) && Classified(c, r, r.commands.Keys, generated, unixOnly)
    ensures (forall n :: n in c.policies ==> HasName(generated, n) || HasName(unixOnly, n)) <==>
            forall n :: n in c.policies ==> n in r.commands
  {
    forall n | n in c.policies ensures HasName(generated, n) || HasName(unixOnly, n) <==> n in r.commands {
      PlanKeepsExactly(c, r, generated, unixOnly, n);
    }
  }

  lemma FunctionsIs(c: Config, r: Registry, generated: seq<Entry>, unixOnly: seq<Entry>)
    requires SingleProviders(r) && Classified(c, r, r.commands.Keys, generated, unixOnly)
    ensures (forall e :: e in generated ==> FunctionOk(c, r, generated, unixOnly, e)) <==>
            forall n :: n in r.commands && Covered(c, r, n) && HasPe(c, n) ==> CommandOk(c, r, n)
  {
    forall n | Covered(c, r, n) && HasPe(c, n) ensures exists e :: e in generated && e.name == n {
      PlanKeepsExactly(c, r, generated, unixOnly, n);
    }
    forall e | e in generated
      ensures Covered(c, r, e.name) && HasPe(c, e.name)
      ensures FunctionOk(c, r, generated, unixOnly, e) <==> CommandOk(c, r, e.name)
    {
      assert HasName(generated, e.name);
      PlanKeepsExactly(c, r, generated, unixOnly, e.name);
      FunctionOkIs(c, r, generated, unixOnly, e);
    }
  }

  lemma EventsIs(c: Config, r: Registry)
    ensures (forall s :: s in r.eventStructs && Offered(c, r, s) ==> s.memberType == "XrSession") <==>
            forall s :: s in r.eventStructs && s.memberType != "XrSession" ==>
              (exists x :: Declares(r, x, s.name)) && forall x :: Declares(r, x, s.name) ==> x !in c.supported
  {
    forall s ensures Offered(c, r, s) <==>
                     ((exists x :: Declares(r, x, s.name)) ==>
                        exists x :: Declares(r, x, s.name) && x in c.supported)
    {
      OfferedIs(c, r, s);
    }
  }

  /** The checks on the two dictionaries accept exactly those registries. */
  lemma AcceptsExactly(c: Config, r: Registry, generated: seq<Entry>, unixOnly: seq<Entry>)
    requires SingleProviders(r) ==> Classified(c, r, r.commands.Keys, generated, unixOnly)
    ensures SingleProviders(r) && Acceptable(c, r, generated, unixOnly) <==> RegistryOk(c, r)
  {
    SingleIs(r);
    if SingleProviders(r) {
      PoliciesIs(c, r, generated, unixOnly);
      FunctionsIs(c, r, generated, unixOnly);
      forall x | x in c.supported ensures ExtensionOk(c, r, generated, x) <==> SupportedOk(c, r, x) {
        ExtensionOkIs(c, r, generated, unixOnly, x);
      }
      EventsIs(c, r);
      KnownGuardsIs(c, r, generated, unixOnly);
    }
  }

  /** from_registry; `pfns` stands for the thunks' addresses. It accepts exactly the registries it
      should: one provider a command, and every later check passed by the two dictionaries the
      classification yields, which are returned for reference. */
  method FromRegistry(c: Config, r: Registry, pfns: map<string, nat>)
    returns (result: Result<Plan, Error>, ghost generated: seq<Entry>, ghost unixOnly: seq<Entry>)
    ensures result.Ok? <==> RegistryOk(c, r)
    ensures result.Ok? <==> SingleProviders(r) && Acceptable(c, r, generated, unixOnly)
    ensures result.Ok? ==> Accepted(c, r, result.value)
    ensures result.Ok? ==> result.value.generated == generated && result.value.unixOnly == unixOnly
    ensures result.Ok? && ConfigOk(c) ==>
              forall e :: e in generated ==> ThunkFits(result.value.slots, generated, unixOnly, e)
    ensures SingleProviders(r) ==>
              && EntriesSorted(generated) && EntriesSorted(unixOnly)
              && Classified(c, r, r.commands.Keys, generated, unixOnly)
  {
    generated, unixOnly := [], [];
    var classified := Classify(c, r);
    if classified.Err? {
      AcceptsExactly(c, r, [], []);
      return Err(classified.error), [], [];
    }
    var (kept, rest) := classified.value;
    generated, unixOnly := kept, rest;
    AcceptsExactly(c, r, kept, rest);
    var error := CheckPolicies(c, kept, rest);
    if error.Some? { return Err(error.value), kept, rest; }
    error := CheckFunctions(c, r, kept, rest);
    if error.Some? { return Err(error.value), kept, rest; }
    var extensionRows := SortNames(c.supported);
    error := CheckExtensions(c, r, kept, extensionRows);
    if error.Some? { return Err(error.value), kept, rest; }
    var events := SessionEvents(c, r);
    if events.Err? { return Err(events.error), kept, rest; }
    var rows := FunctionRows(c, kept, extensionRows, pfns);
    var groups := GroupByGuard(WithDispatch(kept + rest), GUARD_ORDER);
    if groups.None? { return Err(UnknownGuard), kept, rest; }
    if ConfigOk(c) { AcceptedPlanFits(c, r, kept, rest); }
    result := Ok(Plan(kept, rest, extensionRows, events.value, rows, SlotsOf(c, kept), groups.value));
  }

  lemma AcceptedPlanFits(c: Config, r: Registry, generated: seq<Entry>, unixOnly: seq<Entry>)
    requires ConfigOk(c) && Classified(c, r, r.commands.Keys, generated, unixOnly)
    requires forall e :: e in generated ==> FunctionOk(c, r, generated, unixOnly, e)
    requires forall e :: e in WithDispatch(generated + unixOnly) ==> e.info.guard in GUARD_ORDER
    ensures GuardsKnown(generated, unixOnly)
    ensures forall e :: e in generated ==> ThunkFits(SlotsOf(c, generated), generated, unixOnly, e)
  {
    ClassifiedPolicies(c, r, r.commands.Keys, generated, unixOnly);
    forall e | e in generated && HasUnixCall(e) ensures e.info.guard in GUARD_ORDER { CrossingGuardIsKnown(r, e); }
    forall e | e in generated ensures ThunkFits(SlotsOf(c, generated), generated, unixOnly, e) {
      ThunksReferToWhatExists(c, generated, unixOnly, e);
    }
  }

  method FunctionRows(c: Config, generated: seq<Entry>, extensionRows: seq<string>, pfns: map<string, nat>)
    returns (rows: seq<Lookup.Row>)
    requires Sorted(extensionRows) && forall n :: n in extensionRows <==> n in c.supported
    requires forall e :: e in generated && Present(e.info.extension) ==> e.info.extension.value in c.supported
    ensures |rows| == |generated|
    ensures forall i :: 0 <= i < |generated| ==> RowOk(extensionRows, generated[i], rows[i])
  {
    rows := [];
    for i := 0 to |generated|
      invariant |rows| == i && forall k :: 0 <= k < i ==> RowOk(extensionRows, generated[k], rows[k])
    {
      var e := generated[i];
      var index, minor := -1, e.info.coreMinor;
      if Present(e.info.extension) {
        index := Lookup.ExtensionIndex(extensionRows, e.info.extension.value);
        minor := 0;
      }
      rows := rows + [Lookup.Row(e.name, if e.name in pfns then pfns[e.name] else 0, index, minor, e.info.global)];
    }
  }

  /** The function table comes out sorted, as the binary search over it needs, and without repeated
      names. */
  lemma FunctionRowsAreSorted(c: Config, r: Registry, p: Plan)
    requires PlanOk(c, r, p)
    ensures Lookup.RowsSorted(p.functionRows)
  {
  }

  /** Every command of a supported extension has a row in the function table, behind that very
      extension. */
  lemma SupportedCommandsHaveRows(c: Config, r: Registry, p: Plan, x: string, n: string)
    requires Accepted(c, r, p) && x in c.supported && x != ""
    requires n in r.extensions[x].commands
    ensures exists i :: 0 <= i < |p.functionRows| && p.functionRows[i].name == n
                     && 0 <= p.functionRows[i].extension < |p.extensionRows|
                     && p.extensionRows[p.functionRows[i].extension] == x
  {
    var i :| 0 <= i < |p.generated| && p.generated[i].name == n;
    var e := p.generated[i];
    assert e in p.generated;
    assert x in Providers(r, n);
    OneProvider(Providers(r, n), x, Provider(r, n).value);
    assert RowOk(p.extensionRows, e, p.functionRows[i]);
  }

  /** Each row says of its command what the registry and the constants say. */
  lemma RowsMatchRegistry(c: Config, r: Registry, p: Plan, i: nat)
    requires Accepted(c, r, p) && i < |p.functionRows|
    ensures var row := p.functionRows[i];
            && Covered(c, r, row.name) && HasPe(c, row.name) && (row.global <==> row.name in c.globals)
            && if exists x :: Provides(r, x, row.name) && x != "" then
                 && 0 <= row.extension < |p.extensionRows| && Provides(r, p.extensionRows[row.extension], row.name)
                 && row.coreMinor == 0
               else
                 && row.extension == -1
                 && row.coreMinor == if row.name in r.coreMinor then r.coreMinor[row.name] else 0
  {
    var e := p.generated[i];
    assert RowOk(p.extensionRows, e, p.functionRows[i]) && e in p.generated && HasName(p.generated, e.name);
    PlanKeepsExactly(c, r, p.generated, p.unixOnly, e.name);
    forall x ensures Provides(r, x, e.name) <==> e.info.extension == Some(x) { ProviderIs(r, e.name, x); }
  }

  // ---- The tables fit together ------------------------------------------------------------------------

  lemma {:induction false} GeneratedSlotsDistinct(es: seq<Entry>)
    requires EntriesSorted(es)
    ensures DistinctSlots(GeneratedSlots(es))
  {
    if es != [] {
      var front, last := es[..|es| - 1], es[|es| - 1];
      GeneratedSlotsDistinct(front);
      forall s | s in GeneratedSlots(front) ensures s.suffix != last.name {
        GeneratedSlotFrom(front, s);
        var e :| e in front && HasUnixCall(e) && s == Slot(e.name, HandlerOf(e));
        Trichotomy(e.name, last.name);
      }
    }
  }

  predicate NoClash(a: seq<Slot>, b: seq<Slot>) {
    forall i, j :: 0 <= i < |a| && 0 <= j < |b| ==> a[i].suffix != b[j].suffix
  }

  lemma DistinctAppend(a: seq<Slot>, b: seq<Slot>)
    ensures DistinctSlots(a + b) <==> DistinctSlots(a) && DistinctSlots(b) && NoClash(a, b)
  {
    var s := a + b;
    if DistinctSlots(s) {
      forall i, j | 0 <= i < |a| && 0 <= j < |b| ensures a[i].suffix != b[j].suffix {
        assert s[i] == a[i] && s[|a| + j] == b[j];
      }
      forall i, j | 0 <= i < j < |b| ensures b[i].suffix != b[j].suffix {
        assert s[|a| + i] == b[i] && s[|a| + j] == b[j];
      }
      forall i, j | 0 <= i < j < |a| ensures a[i].suffix != a[j].suffix { assert s[i] == a[i] && s[j] == a[j]; }
    }
  }

  lemma FixedSlotsDistinct(calls: seq<string>)
    ensures DistinctSlots(FixedSlots(calls)) <==>
            (forall i, j :: 0 <= i < j < |calls| ==> calls[i] != calls[j]) && "init" !in calls
  {
    var fixed := FixedSlots(calls);
    if DistinctSlots(fixed) {
      forall i, j | 0 <= i < j < |calls| ensures calls[i] != calls[j] {
        assert fixed[i + 1].suffix == FixedName(calls, i + 1) && fixed[j + 1].suffix == FixedName(calls, j + 1);
      }
      forall i | 0 <= i < |calls| ensures calls[i] != "init" {
        assert fixed[0].suffix == FixedName(calls, 0) && fixed[i + 1].suffix == FixedName(calls, i + 1);
      }
    } else {
      var i, j :| 0 <= i < j < |fixed| && fixed[i].suffix == fixed[j].suffix;
      assert FixedName(calls, i) == FixedName(calls, j);
    }
  }

  predicate Taken(calls: seq<string>, name: string) {
    name == "init" || name in calls
  }

  lemma TakenIsFixed(calls: seq<string>, name: string)
    ensures Taken(calls, name) <==> exists i :: 0 <= i <= |calls| && FixedName(calls, i) == name
  {
    if name == "init" {
      assert FixedName(calls, 0) == name;
    } else if k :| 0 <= k < |calls| && calls[k] == name {
      assert FixedName(calls, k + 1) == name;
    }
  }

  lemma GeneratedNamesClash(generated: seq<Entry>, calls: seq<string>)
    ensures NoClash(FixedSlots(calls), GeneratedSlots(generated)) <==>
            forall e :: e in generated && HasUnixCall(e) ==> !Taken(calls, e.name)
  {
    var fixed, made := FixedSlots(calls), GeneratedSlots(generated);
    if e :| e in generated && HasUnixCall(e) && Taken(calls, e.name) {
      GeneratedSlotAt(generated, e);
      var j :| 0 <= j < |made| && made[j] == Slot(e.name, HandlerOf(e));
      TakenIsFixed(calls, e.name);
      var i :| 0 <= i <= |calls| && FixedName(calls, i) == e.name;
      assert fixed[i].suffix == made[j].suffix;
    }
    if i, j :| 0 <= i < |fixed| && 0 <= j < |made| && fixed[i].suffix == made[j].suffix {
      GeneratedSlotFrom(generated, made[j]);
      assert FixedName(calls, i) == made[j].suffix;
      TakenIsFixed(calls, made[j].suffix);
    }
  }

  /** No two slots share a name, if and only if the custom calls are distinct, none is called init, and
      no generated function with a unix call has one of these names. */
  lemma SlotsDistinctExactly(c: Config, generated: seq<Entry>)
    requires EntriesSorted(generated)
    ensures DistinctSlots(SlotsOf(c, generated)) <==>
            && (forall i, j :: 0 <= i < j < |c.customCalls| ==> c.customCalls[i] != c.customCalls[j])
            && "init" !in c.customCalls
            && (forall e :: e in generated && HasUnixCall(e) ==> !Taken(c.customCalls, e.name))
  {
    GeneratedSlotsDistinct(generated);
    DistinctAppend(FixedSlots(c.customCalls), GeneratedSlots(generated));
    assert SlotsOf(c, generated) == FixedSlots(c.customCalls) + GeneratedSlots(generated);
    FixedSlotsDistinct(c.customCalls);
    GeneratedNamesClash(generated, c.customCalls);
  }

  /** With distinct slot names, the call number the PE side uses for a function indexes that function's
      own handler, and no other. */
  lemma CallNumbersReachHandlers(c: Config, r: Registry, p: Plan, e: Entry, n: nat)
    requires PlanOk(c, r, p) && DistinctSlots(p.slots) && e in p.generated && HasUnixCall(e)
    requires CallNumber(p.slots, e.name, n)
    ensures p.slots[n].handler == HandlerOf(e)
  {
    GeneratedSlotAt(p.generated, e);
    var s := Slot(e.name, HandlerOf(e));
    assert s in p.slots;
    var k :| 0 <= k < |p.slots| && p.slots[k] == s;
  }

  /** Nothing but the generated functions, init and the custom calls has a slot, and a slot served by an
      automatic thunk belongs to a function whose unix half is automatic. */
  lemma SlotsComeFromSomewhere(c: Config, r: Registry, p: Plan, n: nat)
    requires PlanOk(c, r, p) && n < |p.slots|
    ensures || p.slots[n] == Slot("init", Wine("init"))
            || (p.slots[n].suffix in c.customCalls && p.slots[n].handler == Wine(p.slots[n].suffix))
            || (exists e :: e in p.generated && HasUnixCall(e) && p.slots[n] == Slot(e.name, HandlerOf(e))
                         && (p.slots[n].handler.Thunk? <==> e.info.policy.unix.Auto?))
  {
    if n > |c.customCalls| {
      assert p.slots[n] == GeneratedSlots(p.generated)[n - 1 - |c.customCalls|];
      GeneratedSlotFrom(p.generated, p.slots[n]);
      var e :| e in p.generated && HasUnixCall(e) && p.slots[n] == Slot(e.name, HandlerOf(e));
    }
  }

  // ---- Guard groups -------------------------------------------------------------------------------------

  const GUARD_ORDER: seq<Option<string>> :=
    [None, Some("XR_USE_GRAPHICS_API_D3D11"), Some("XR_USE_GRAPHICS_API_D3D12"), Some("XR_USE_GRAPHICS_API_METAL"),
     Some("XR_USE_PLATFORM_WIN32"), Some("XR_USE_TIMESPEC")]

  lemma GuardOrderIsDistinct()
    ensures DistinctGuards(GUARD_ORDER)
  {
  }

  predicate DistinctGuards(guards: seq<Option<string>>) {
    forall i, j :: 0 <= i < j < |guards| ==> guards[i] != guards[j]
  }

  /** The entries of one group, in order. */
  function Group(es: seq<Entry>, guard: Option<string>): seq<Entry> {
    if es == [] then []
    else
      var rest, last := Group(es[..|es| - 1], guard), es[|es| - 1];
      if last.info.guard == guard then rest + [last] else rest
  }

  /** Emission order: group after group. */
  function EmittedFrom(es: seq<Entry>, guards: seq<Option<string>>): seq<Entry> {
    if guards == [] then [] else Group(es, guards[0]) + EmittedFrom(es, guards[1..])
  }

  lemma {:induction false} EmptyEmits(guards: seq<Option<string>>)
    ensures EmittedFrom([], guards) == []
  {
    if guards != [] { EmptyEmits(guards[1..]); }
  }

  lemma {:induction false} OneMoreEmitted(es: seq<Entry>, e: Entry, guards: seq<Option<string>>)
    requires DistinctGuards(guards)
    ensures multiset(EmittedFrom(es + [e], guards)) ==
            multiset(EmittedFrom(es, guards)) + if e.info.guard in guards then multiset{e} else multiset{}
  {
    assert (es + [e])[..|es|] == es;
    if guards != [] {
      OneMoreEmitted(es, e, guards[1..]);
      assert e.info.guard in guards <==> e.info.guard == guards[0] || e.info.guard in guards[1..];
      assert e.info.guard == guards[0] ==> e.info.guard !in guards[1..];
    }
  }

  lemma {:induction false} KnownGuardsEmitAll(es: seq<Entry>, guards: seq<Option<string>>)
    requires DistinctGuards(guards) && forall e :: e in es ==> e.info.guard in guards
    ensures multiset(EmittedFrom(es, guards)) == multiset(es)
  {
    if es == [] {
      EmptyEmits(guards);
    } else {
      var front, last := es[..|es| - 1], es[|es| - 1];
      assert es == front + [last];
      KnownGuardsEmitAll(front, guards);
      OneMoreEmitted(front, last, guards);
    }
  }

  lemma {:induction false} GroupMembers(es: seq<Entry>, guard: Option<string>)
    ensures forall e :: e in Group(es, guard) ==> e in es && e.info.guard == guard
  {
    if es != [] { GroupMembers(es[..|es| - 1], guard); }
  }

  lemma {:induction false} EmittedMembers(es: seq<Entry>, guards: seq<Option<string>>)
    ensures forall e :: e in EmittedFrom(es, guards) ==> e in es && e.info.guard in guards
  {
    if guards != [] {
      GroupMembers(es, guards[0]);
      EmittedMembers(es, guards[1..]);
    }
  }

  /** Grouping by guard emits every entry exactly once, if and only if every guard is a known one. */
  lemma GroupingKeepsEveryEntry(es: seq<Entry>, guards: seq<Option<string>>)
    requires DistinctGuards(guards)
    ensures multiset(EmittedFrom(es, guards)) == multiset(es) <==> forall e :: e in es ==> e.info.guard in guards
  {
    if forall e :: e in es ==> e.info.guard in guards {
      KnownGuardsEmitAll(es, guards);
    } else {
      EmittedMembers(es, guards);
      var e :| e in es && e.info.guard !in guards;
      assert e in multiset(es) && e !in EmittedFrom(es, guards);
    }
  }

  /** group_by_guard; a guard without a group is Python's KeyError. */
  method GroupByGuard(es: seq<Entry>, guards: seq<Option<string>>) returns (r: Option<map<Option<string>, seq<Entry>>>)
    ensures r.Some? <==> forall e :: e in es ==> e.info.guard in guards
    ensures r.Some? ==> forall g :: g in guards ==> g in r.value && r.value[g] == Group(es, g)
  {
    var groups: map<Option<string>, seq<Entry>> := map g | g in guards :: [];
    for i := 0 to |es|
      invariant forall g :: g in groups <==> g in guards
      invariant forall g :: g in groups ==> groups[g] == Group(es[..i], g)
      invariant forall k :: 0 <= k < i ==> es[k].info.guard in guards
    {
      var guard := es[i].info.guard;
      assert es[..i + 1][..i] == es[..i];
      if guard !in groups { return None; }
      groups := groups[guard := groups[guard] + [es[i]]];
    }
    assert es[..|es|] == es;
    r := Some(groups);
  }

  /** emit_guarded: group after group. */
  method EmitGuarded(es: seq<Entry>, guards: seq<Option<string>>) returns (r: Option<seq<Entry>>)
    ensures r.Some? <==> forall e :: e in es ==> e.info.guard in guards
    ensures r.Some? ==> r.value == EmittedFrom(es, guards)
  {
    var groups := GroupByGuard(es, guards);
    if groups.None? { return None; }
    var out: seq<Entry> := [];
    for i := 0 to |guards|
      invariant out + EmittedFrom(es, guards[i..]) == EmittedFrom(es, guards)
    {
      assert guards[i..][1..] == guards[i + 1..] && guards[i] in guards;
      out := out + groups.value[guards[i]];
    }
    r := Some(out);
  }

  function WithUnixCall(es: seq<Entry>): seq<Entry> {
    if es == [] then []
    else
      var rest, last := WithUnixCall(es[..|es| - 1]), es[|es| - 1];
      if HasUnixCall(last) then rest + [last] else rest
  }

  function WithDispatch(es: seq<Entry>): seq<Entry> {
    if es == [] then []
    else
      var rest, last := WithDispatch(es[..|es| - 1]), es[|es| - 1];
      if last.info.policy.dispatch then rest + [last] else rest
  }

  lemma {:induction false} WithUnixCallIs(es: seq<Entry>)
    ensures forall e :: e in WithUnixCall(es) <==> e in es && HasUnixCall(e)
  {
    if es != [] { WithUnixCallIs(es[..|es| - 1]); }
  }

  lemma {:induction false} WithDispatchIs(es: seq<Entry>)
    ensures forall e :: e in WithDispatch(es) <==> e in es && e.info.policy.dispatch
  {
    if es != [] { WithDispatchIs(es[..|es| - 1]); }
  }

  /** Functions whose parameter struct the header defines, ... */
  function ParamStructs(generated: seq<Entry>): seq<Entry> {
    EmittedFrom(WithUnixCall(generated), GUARD_ORDER)
  }

  /** ... and functions with a field in the dispatch table, in the order of openxr_instance_functions. */
  function DispatchFields(generated: seq<Entry>, unixOnly: seq<Entry>): seq<Entry> {
    EmittedFrom(WithDispatch(generated + unixOnly), GUARD_ORDER)
  }

  lemma InEmitted(es: seq<Entry>, e: Entry)
    requires (forall x :: x in es ==> x.info.guard in GUARD_ORDER) && e in es
    ensures e in EmittedFrom(es, GUARD_ORDER)
  {
    GuardOrderIsDistinct();
    KnownGuardsEmitAll(es, GUARD_ORDER);
    assert e in multiset(es);
    assert e in multiset(EmittedFrom(es, GUARD_ORDER));
  }

  predicate PoliciesOk(es: seq<Entry>) {
    forall e :: e in es ==> PolicyOk(e.info.policy) && !e.info.policy.pe.Skip?
  }

  lemma ClassifiedPolicies(c: Config, r: Registry, names: set<string>, generated: seq<Entry>, unixOnly: seq<Entry>)
    requires ConfigOk(c) && Classified(c, r, names, generated, unixOnly)
    ensures PoliciesOk(generated)
  {
  }

  /** Every entry the emitters group lies behind a guard they know. */
  predicate GuardsKnown(generated: seq<Entry>, unixOnly: seq<Entry>) {
    && (forall e :: e in generated && HasUnixCall(e) ==> e.info.guard in GUARD_ORDER)
    && (forall e :: e in WithDispatch(generated + unixOnly) ==> e.info.guard in GUARD_ORDER)
  }

  /** A function that may cross the boundary lies behind such a guard. */
  lemma CrossingGuardIsKnown(r: Registry, e: Entry)
    requires CrossesSafely(r, e)
    ensures e.info.guard in GUARD_ORDER
  {
    assert GUARD_ORDER[1] in GUARD_ORDER && GUARD_ORDER[2] in GUARD_ORDER && GUARD_ORDER[4] in GUARD_ORDER;
  }

  // No name stands twice in the dispatch table.

  predicate DistinctNames(es: seq<Entry>) {
    forall i, j :: 0 <= i < j < |es| ==> es[i].name != es[j].name
  }

  lemma PlanNamesDistinct(c: Config, r: Registry, p: Plan)
    requires PlanOk(c, r, p)
    ensures DistinctNames(p.generated + p.unixOnly)
  {
    var es, m := p.generated + p.unixOnly, |p.generated|;
    forall i, j | 0 <= i < j < |es| ensures es[i].name != es[j].name {
      if j < m || m <= i {
        assert Less(es[i].name, es[j].name);
        Trichotomy(es[i].name, es[j].name);
      } else {
        assert es[i] in p.generated && es[j] in p.unixOnly;
      }
    }
  }

  lemma {:induction false} WithDispatchDistinct(es: seq<Entry>)
    requires DistinctNames(es)
    ensures DistinctNames(WithDispatch(es))
  {
    if es != [] {
      var front := es[..|es| - 1];
      WithDispatchDistinct(front);
      WithDispatchIs(front);
      forall e | e in WithDispatch(front) ensures e.name != es[|es| - 1].name { assert e in front; }
    }
  }

  lemma {:induction false} DistinctOnce(es: seq<Entry>, e: Entry)
    requires DistinctNames(es)
    ensures multiset(es)[e] <= 1
  {
    if es != [] {
      var front, last := es[..|es| - 1], es[|es| - 1];
      assert es == front + [last];
      DistinctOnce(front, e);
      if e == last { assert e !in front; }
    }
  }

  lemma TwiceMeansTwo(es: seq<Entry>, i: nat, j: nat)
    requires i < j < |es| && es[i] == es[j]
    ensures multiset(es)[es[i]] >= 2
  {
    assert es == es[..j] + es[j..];
    assert es[..j][i] == es[i] && es[j..][0] == es[j];
    assert es[i] in multiset(es[..j]) && es[i] in multiset(es[j..]);
  }

  /** Rearranging keeps names distinct. */
  lemma RearrangedDistinct(a: seq<Entry>, b: seq<Entry>)
    requires multiset(a) == multiset(b) && DistinctNames(a)
    ensures DistinctNames(b)
  {
    forall i, j | 0 <= i < j < |b| ensures b[i].name != b[j].name {
      assert b[i] in multiset(b) && b[j] in multiset(b);
      assert b[i] in a && b[j] in a;
      if b[i] == b[j] {
        TwiceMeansTwo(b, i, j);
        DistinctOnce(a, b[i]);
      }
    }
  }

  lemma DispatchNamesDistinct(c: Config, r: Registry, p: Plan)
    requires PlanOk(c, r, p) && GuardsKnown(p.generated, p.unixOnly)
    ensures DistinctNames(DispatchFields(p.generated, p.unixOnly))
  {
    var es := WithDispatch(p.generated + p.unixOnly);
    PlanNamesDistinct(c, r, p);
    WithDispatchDistinct(p.generated + p.unixOnly);
    GuardOrderIsDistinct();
    KnownGuardsEmitAll(es, GUARD_ORDER);
    RearrangedDistinct(es, DispatchFields(p.generated, p.unixOnly));
  }

  /** What the thunks of one function refer to: a call number and a parameter struct on the PE side, a
      dispatch field on the unix side. */
  ghost predicate ThunkFits(slots: seq<Slot>, generated: seq<Entry>, unixOnly: seq<Entry>, e: Entry) {
    && (e.info.policy.pe.Auto? ==> (exists n :: CallNumber(slots, e.name, n)) && e in ParamStructs(generated))
    && (e.info.policy.unix.Auto? ==> e in DispatchFields(generated, unixOnly))
  }

  /** No automatic PE thunk refers to a missing call number or parameter struct, and no automatic unix
      thunk to a missing dispatch field. */
  lemma ThunksReferToWhatExists(c: Config, generated: seq<Entry>, unixOnly: seq<Entry>, e: Entry)
    requires PoliciesOk(generated) && GuardsKnown(generated, unixOnly) && e in generated
    ensures ThunkFits(SlotsOf(c, generated), generated, unixOnly, e)
  {
    if e.info.policy.pe.Auto? {
      CallNumberExists(c, generated, e);
      WithUnixCallIs(generated);
      InEmitted(WithUnixCall(generated), e);
    }
    if e.info.policy.unix.Auto? {
      WithDispatchIs(generated + unixOnly);
      InEmitted(WithDispatch(generated + unixOnly), e);
    }
  }

  lemma CallNumberExists(c: Config, generated: seq<Entry>, e: Entry)
    requires e in generated && HasUnixCall(e)
    ensures exists n :: CallNumber(SlotsOf(c, generated), e.name, n)
  {
    GeneratedSlotAt(generated, e);
    var s, slots := Slot(e.name, HandlerOf(e)), SlotsOf(c, generated);
    assert s in slots;
    var n :| 0 <= n < |slots| && slots[n] == s;
    assert CallNumber(slots, e.name, n);
  }
}
