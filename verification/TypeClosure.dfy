/** The generator's type closure, and the check of what may cross the PE/Unix boundary. */
module TypeClosure {
  import opened Prelude
  import opened StringOrder

  datatype TypeInfo = TypeInfo(category: string, dependency: Option<string>, alias: Option<string>,
                               members: seq<string>)

  type Types = map<string, TypeInfo>

  /** b is the alias target or a member type of a. */
  predicate Edge(types: Types, a: string, b: string) {
    a in types && ((Present(types[a].alias) && types[a].alias.value == b) || b in types[a].members)
  }

  predicate Path(types: Types, roots: seq<string>, p: seq<string>, n: string) {
    && p != [] && p[0] in roots && p[|p| - 1] == n
    && forall i :: 0 <= i < |p| - 1 ==> Edge(types, p[i], p[i + 1])
  }

  ghost predicate Reachable(types: Types, roots: seq<string>, n: string) {
    exists p :: Path(types, roots, p, n)
  }

  lemma RootReachable(types: Types, roots: seq<string>, n: string)
    requires n in roots
    ensures Reachable(types, roots, n)
  {
    assert Path(types, roots, [n], n);
  }

  lemma EdgeReachable(types: Types, roots: seq<string>, a: string, b: string)
    requires Reachable(types, roots, a) && Edge(types, a, b)
    ensures Reachable(types, roots, b)
  {
    var p :| Path(types, roots, p, a);
    assert Path(types, roots, p + [b], b);
  }

  /** A set that holds the roots and is closed under edges holds everything reachable. */
  lemma {:induction false} ClosedHoldsPath(types: Types, roots: seq<string>, seen: set<string>, p: seq<string>,
                                           n: string)
    requires forall r :: r in roots ==> r in seen
    requires forall a, b :: a in seen && Edge(types, a, b) ==> b in seen
    requires Path(types, roots, p, n)
    ensures n in seen
    decreases |p|
  {
    if |p| > 1 {
      assert Path(types, roots, p[..|p| - 1], p[|p| - 2]);
      ClosedHoldsPath(types, roots, seen, p[..|p| - 1], p[|p| - 2]);
      assert Edge(types, p[|p| - 2], p[|p| - 2 + 1]);
    }
  }

  /** Push the alias, if any, and the members. */
  method Push(stack: seq<string>, information: TypeInfo) returns (r: seq<string>)
    ensures forall b :: b in r <==>
              b in stack || (Present(information.alias) && information.alias.value == b) || b in information.members
  {
    r := stack;
    if Present(information.alias) { r := r + [information.alias.value]; }
    r := r + information.members;
  }

  lemma ClosedHoldsReachable(types: Types, roots: seq<string>, seen: set<string>)
    requires forall r :: r in roots ==> r in seen
    requires forall a, b :: a in seen && Edge(types, a, b) ==> b in seen
    ensures forall n :: Reachable(types, roots, n) ==> n in seen
  {
    forall n | Reachable(types, roots, n) ensures n in seen {
      var p :| Path(types, roots, p, n);
      ClosedHoldsPath(types, roots, seen, p, n);
    }
  }

  lemma Pop(stack: seq<string>)
    requires stack != []
    ensures forall n :: n in stack <==> n == stack[|stack| - 1] || n in stack[..|stack| - 1]
  {
  }

  /** Registry.type_closure. A name the registry does not know is Python's KeyError. It terminates on
      cyclic graphs and repeated stack entries, and returns exactly the reachable types. */
  method Closure(types: Types, roots: seq<string>) returns (r: Result<set<string>, string>)
    ensures r.Ok? ==> forall n :: n in r.value <==> Reachable(types, roots, n)
    ensures r.Ok? <==> forall n :: Reachable(types, roots, n) ==> n in types
    ensures r.Err? ==> Reachable(types, roots, r.error) && r.error !in types
  {
    var seen, stack := {}, roots;
    forall n | n in stack ensures Reachable(types, roots, n) { RootReachable(types, roots, n); }
    while stack != []
      invariant seen <= types.Keys
      invariant forall n :: n in seen || n in stack ==> Reachable(types, roots, n)
      invariant forall n :: n in roots ==> n in seen || n in stack
      invariant forall a, b :: a in seen && Edge(types, a, b) ==> b in seen || b in stack
      decreases types.Keys - seen, |stack|
    {
      var name := stack[|stack| - 1];
      Pop(stack);
      stack := stack[..|stack| - 1];
      if name in seen { continue; }
      if name !in types { return Err(name); }
      forall b | Edge(types, name, b) ensures Reachable(types, roots, b) { EdgeReachable(types, roots, name, b); }
      seen := seen + {name};
      stack := Push(stack, types[name]);
    }
    ClosedHoldsReachable(types, roots, seen);
    r := Ok(seen);
  }

  // ---- boundary_violation -------------------------------------------------------------------------

  const PE_GUARDS: set<Option<string>> :=
    {None, Some("XR_USE_GRAPHICS_API_D3D11"), Some("XR_USE_GRAPHICS_API_D3D12"), Some("XR_USE_PLATFORM_WIN32")}

  const UNSUPPORTED_TYPES: set<string> := {"wchar_t"}

  const SUPPORTED_REQUIRES: set<string> := {"openxr_platform_defines", "d3dcommon.h", "d3d12.h", "windows.h"}

  datatype Violation =
    | PlatformGuard(guard: Option<string>)
    | UnsupportedType(name: string)
    | FunctionPointer(name: string)
    | Requires(name: string, what: string)

  /** What is wrong with one type, if anything. */
  function Forbids(types: Types, n: string): Option<Violation>
    requires n in types
  {
    var information := types[n];
    if n in UNSUPPORTED_TYPES then Some(UnsupportedType(n))
    else if information.category == "funcpointer" then Some(FunctionPointer(n))
    else if Present(information.dependency) && information.dependency.value !in SUPPORTED_REQUIRES then
      Some(Requires(n, information.dependency.value))
    else None
  }

  /** The verdict names the least reachable type that may not cross; None means the guard is allowed
      and every reachable type may. */
  method BoundaryViolation(types: Types, parameters: seq<string>, guard: Option<string>)
    returns (r: Result<Option<Violation>, string>)
    ensures guard !in PE_GUARDS ==> r == Ok(Some(PlatformGuard(guard)))
    ensures r.Err? <==> guard in PE_GUARDS && exists n :: Reachable(types, parameters, n) && n !in types
    ensures r == Ok(None) <==>
            guard in PE_GUARDS && forall n :: Reachable(types, parameters, n) ==> n in types && Forbids(types, n).None?
    ensures r.Ok? && r.value.Some? && guard in PE_GUARDS ==>
            exists n :: Reachable(types, parameters, n) && n in types && r.value == Forbids(types, n)
              && forall m :: Reachable(types, parameters, m) && Less(m, n) ==> m in types && Forbids(types, m).None?
  {
    if guard !in PE_GUARDS { return Ok(Some(PlatformGuard(guard))); }
    var closure := Closure(types, parameters);
    if closure.Err? { return Err(closure.error); }
    var names := SortNames(closure.value);
    for i := 0 to |names|
      invariant forall j :: 0 <= j < i ==> Forbids(types, names[j]).None?
    {
      var violation := Forbids(types, names[i]);
      if violation.Some? {
        forall m | Reachable(types, parameters, m) && Less(m, names[i])
          ensures m in types && Forbids(types, m).None?
        {
          assert m in names;
          var j :| 0 <= j < |names| && names[j] == m;
          Trichotomy(m, names[i]);
        }
        assert names[i] in names;
        return Ok(violation);
      }
    }
    forall n | Reachable(types, parameters, n) ensures n in types && Forbids(types, n).None? {
      assert n in names;
    }
    r := Ok(None);
  }
}
