/** Method interposition over a class hierarchy: the table of saved originals (g_orig), the
    installer and the lookup every hook makes before calling through. */
module Swizzle {
  import opened Prelude

  /** A class is its name and its superclass; Nil ends the chain. */
  datatype Class = Nil | Class(name: nat, super: Class)

  type Selector = nat

  datatype Imp = Original(id: nat) | Hook(id: nat)

  /** A Method of the runtime: the class that implements it, and its selector. */
  datatype Method = Method(cls: Class, sel: Selector)

  /** Each class's own methods and their current implementations. */
  type Methods = map<Method, Imp>

  datatype Entry = Entry(cls: Class, sel: Selector, imp: Imp)

  const MAX_ORIG := 256

  function Min(a: nat, b: nat): nat {
    if a < b then a else b
  }

  /** What every reader sees: the published entries, and the methods. */
  datatype Table = Table(entries: seq<Entry>, methods: Methods)

  /** class_getInstanceMethod: the nearest class on the chain that implements the selector. */
  function GetInstanceMethod(methods: Methods, c: Class, sel: Selector): (m: Option<Method>)
    ensures m.Some? ==> m.value in methods && m.value.sel == sel && !m.value.cls.Nil?
  {
    if c.Nil? then None
    else if Method(c, sel) in methods then Some(Method(c, sel))
    else GetInstanceMethod(methods, c.super, sel)
  }

  /** A class and its superclasses, nearest first. */
  function Chain(c: Class): seq<Class> {
    if c.Nil? then [] else [c] + Chain(c.super)
  }

  /** It is the first on the chain; without one nothing on the chain implements the selector. */
  lemma {:induction false} NearestMethod(methods: Methods, c: Class, sel: Selector)
    ensures var m := GetInstanceMethod(methods, c, sel);
            && (m.Some? ==> exists i :: 0 <= i < |Chain(c)| && Chain(c)[i] == m.value.cls
                              && forall j :: 0 <= j < i ==> Method(Chain(c)[j], sel) !in methods)
            && (m.None? ==> forall j :: 0 <= j < |Chain(c)| ==> Method(Chain(c)[j], sel) !in methods)
  {
    if !c.Nil? {
      NearestMethod(methods, c.super, sel);
      if Method(c, sel) in methods {
        assert Chain(c)[0] == c;
      } else {
        var m := GetInstanceMethod(methods, c.super, sel);
        if m.Some? {
          var i :| 0 <= i < |Chain(c.super)| && Chain(c.super)[i] == m.value.cls
            && forall j :: 0 <= j < i ==> Method(Chain(c.super)[j], sel) !in methods;
          assert Chain(c)[i + 1] == m.value.cls;
        }
      }
    }
  }

  /** The implementation a message to an instance of c reaches. */
  function Resolve(methods: Methods, c: Class, sel: Selector): Option<Imp> {
    if c.Nil? then None
    else if Method(c, sel) in methods then Some(methods[Method(c, sel)])
    else Resolve(methods, c.super, sel)
  }

  /** First entry recorded for exactly this class. */
  function Recorded(entries: seq<Entry>, c: Class, sel: Selector): Option<Imp> {
    if entries == [] then None
    else if entries[0].cls == c && entries[0].sel == sel then Some(entries[0].imp)
    else Recorded(entries[1..], c, sel)
  }

  /** lookup_orig: the class itself first, then its superclasses. */
  function LookupOrig(entries: seq<Entry>, c: Class, sel: Selector): Option<Imp> {
    if c.Nil? then None
    else if Recorded(entries, c, sel).Some? then Recorded(entries, c, sel)
    else LookupOrig(entries, c.super, sel)
  }

  /** The implementation that does the work: a hook passes on to what lookup_orig finds. */
  function Effective(entries: seq<Entry>, methods: Methods, c: Class, sel: Selector): Option<Imp> {
    var imp := Resolve(methods, c, sel);
    if imp.Some? && imp.value.Hook? then LookupOrig(entries, c, sel) else imp
  }

  function InstallOne(t: Table, c: Class, sel: Selector, repl: nat): (r: (Table, bool)) {
    var m := GetInstanceMethod(t.methods, c, sel);
    if m.None? then (t, false)
    else if Recorded(t.entries, m.value.cls, sel).Some? then (t, false)
    else if t.methods[m.value] == Hook(repl) then (t, false)
    else if |t.entries| >= MAX_ORIG then (t, false)
    else (Table(t.entries + [Entry(m.value.cls, sel, t.methods[m.value])], t.methods[m.value := Hook(repl)]), true)
  }

  datatype Job = Job(cls: Class, sel: Selector, repl: nat)

  function InstallAll(t: Table, jobs: seq<Job>): Table {
    if jobs == [] then t
    else
      var last := jobs[|jobs| - 1];
      InstallOne(InstallAll(t, jobs[..|jobs| - 1]), last.cls, last.sel, last.repl).0
  }

  predicate Unhooked(methods: Methods) {
    forall m :: m in methods ==> methods[m].Original? && !m.cls.Nil?
  }

  /** The originals are recorded, and only they: a hooked method has its original in the table, an
      unhooked one is as it was. Entries may be ahead of the methods, never behind. */
  predicate Faithful(original: Methods, entries: seq<Entry>, methods: Methods) {
    && methods.Keys == original.Keys
    && (forall i :: 0 <= i < |entries| ==>
          Method(entries[i].cls, entries[i].sel) in original
          && entries[i].imp == original[Method(entries[i].cls, entries[i].sel)])
    && (forall m :: m in methods ==>
          methods[m] == original[m] || (methods[m].Hook? && Recorded(entries, m.cls, m.sel).Some?))
  }

  lemma {:induction false} RecordedIsOriginal(original: Methods, entries: seq<Entry>, c: Class, sel: Selector)
    requires forall i :: 0 <= i < |entries| ==>
               Method(entries[i].cls, entries[i].sel) in original
               && entries[i].imp == original[Method(entries[i].cls, entries[i].sel)]
    ensures Recorded(entries, c, sel).Some? ==>
              Method(c, sel) in original && Recorded(entries, c, sel).value == original[Method(c, sel)]
  {
    if entries != [] { RecordedIsOriginal(original, entries[1..], c, sel); }
  }

  lemma {:induction false} RecordedGrows(entries: seq<Entry>, e: Entry, c: Class, sel: Selector)
    ensures Recorded(entries, c, sel).Some? ==> Recorded(entries + [e], c, sel) == Recorded(entries, c, sel)
    ensures Recorded(entries + [e], e.cls, e.sel).Some?
    ensures Recorded(entries + [e], c, sel).Some? ==> Recorded(entries, c, sel).Some? || (e.cls == c && e.sel == sel)
  {
    if entries != [] {
      RecordedGrows(entries[1..], e, c, sel);
      assert (entries + [e])[1..] == entries[1..] + [e];
    } else {
      assert entries + [e] == [e] && [e][1..] == [];
    }
  }

  /** Main result, for one table: whatever has been hooked, every message on every class does the
      work of the implementation it reached before any hook. */
  lemma {:induction false} FaithfulIsTransparent(original: Methods, entries: seq<Entry>, methods: Methods,
                                                 c: Class, sel: Selector)
    requires Unhooked(original) && Faithful(original, entries, methods)
    ensures Effective(entries, methods, c, sel) == Resolve(original, c, sel)
  {
    if !c.Nil? {
      RecordedIsOriginal(original, entries, c, sel);
      if Method(c, sel) !in methods { FaithfulIsTransparent(original, entries, methods, c.super, sel); }
    }
  }

  lemma {:induction false} ResolveIsMethod(methods: Methods, c: Class, sel: Selector)
    ensures var m := GetInstanceMethod(methods, c, sel);
            Resolve(methods, c, sel) == if m.Some? then Some(methods[m.value]) else None
  {
    if !c.Nil? { ResolveIsMethod(methods, c.super, sel); }
  }

  lemma InstallKeepsFaithful(original: Methods, t: Table, c: Class, sel: Selector, repl: nat)
    requires Unhooked(original) && Faithful(original, t.entries, t.methods)
    ensures var t' := InstallOne(t, c, sel, repl).0;
            Faithful(original, t'.entries, t'.methods) && t.entries <= t'.entries
  {
    var t' := InstallOne(t, c, sel, repl).0;
    if t' != t {
      var m := GetInstanceMethod(t.methods, c, sel).value;
      var e := Entry(m.cls, sel, t.methods[m]);
      assert t.methods[m] == original[m];
      forall k | k in t'.methods
        ensures t'.methods[k] == original[k] || (t'.methods[k].Hook? && Recorded(t'.entries, k.cls, k.sel).Some?)
      {
        RecordedGrows(t.entries, e, k.cls, k.sel);
      }
    }
  }

  lemma {:induction false} SameOwner(a: Methods, b: Methods, c: Class, sel: Selector)
    requires a.Keys == b.Keys
    ensures GetInstanceMethod(a, c, sel) == GetInstanceMethod(b, c, sel)
  {
    if !c.Nil? { SameOwner(a, b, c.super, sel); }
  }

  lemma {:induction false} InstallAllKeepsFaithful(original: Methods, jobs: seq<Job>)
    requires Unhooked(original)
    ensures var t := InstallAll(Table([], original), jobs);
            Faithful(original, t.entries, t.methods) && |t.entries| <= MAX_ORIG
  {
    if jobs != [] {
      InstallAllKeepsFaithful(original, jobs[..|jobs| - 1]);
      var last := jobs[|jobs| - 1];
      var before := InstallAll(Table([], original), jobs[..|jobs| - 1]);
      InstallKeepsFaithful(original, before, last.cls, last.sel, last.repl);
    }
  }

  /** Between installs, recorded means hooked. */
  predicate Settled(t: Table) {
    forall m :: m in t.methods && Recorded(t.entries, m.cls, m.sel).Some? ==> t.methods[m].Hook?
  }

  lemma InstallKeepsSettled(t: Table, c: Class, sel: Selector, repl: nat)
    requires Settled(t)
    ensures Settled(InstallOne(t, c, sel, repl).0)
  {
    var t' := InstallOne(t, c, sel, repl).0;
    if t' != t {
      forall m | m in t'.methods && Recorded(t'.entries, m.cls, m.sel).Some? ensures t'.methods[m].Hook? {
        RecordedGrows(t.entries, t'.entries[|t.entries|], m.cls, m.sel);
      }
    }
  }

  /** A table between installs: each hooked method has its original recorded, and only those. */
  predicate InOrder(original: Methods, t: Table) {
    Unhooked(original) && Faithful(original, t.entries, t.methods) && Settled(t) && |t.entries| <= MAX_ORIG
  }

  /** One install, on any such table: it takes effect exactly if the method that responds to the
      selector is not hooked and there is room. It then answers with this replacement, its original is
      saved, and nothing else changes. */
  lemma InstallTakesEffect(original: Methods, t: Table, c: Class, sel: Selector, repl: nat)
    requires InOrder(original, t)
    ensures var (t', installed) := InstallOne(t, c, sel, repl); var before := Resolve(t.methods, c, sel);
            && InOrder(original, t')
            && (installed <==> before.Some? && before.value.Original? && |t.entries| < MAX_ORIG)
            && (installed ==> Resolve(t'.methods, c, sel) == Some(Hook(repl)))
            && (installed ==>
                  var m := GetInstanceMethod(t.methods, c, sel);
                  && m.Some? && t'.methods == t.methods[m.value := Hook(repl)]
                  && t'.entries == t.entries + [Entry(m.value.cls, sel, original[m.value])])
            && (!installed ==> t' == t)
  {
    InstallKeepsFaithful(original, t, c, sel, repl);
    InstallKeepsSettled(t, c, sel, repl);
    ResolveIsMethod(t.methods, c, sel);
    var t' := InstallOne(t, c, sel, repl).0;
    assert t'.methods.Keys == t.methods.Keys;
    SameOwner(t.methods, t'.methods, c, sel);
    ResolveIsMethod(t'.methods, c, sel);
  }

  /** The method a job hooks. */
  function Target(methods: Methods, job: Job): Option<Method> {
    GetInstanceMethod(methods, job.cls, job.sel)
  }

  /** The methods these jobs ask for that are not hooked yet. */
  function Fresh(methods: Methods, jobs: seq<Job>): set<Method> {
    if jobs == [] then {}
    else
      var m, before := Target(methods, jobs[|jobs| - 1]), Fresh(methods, jobs[..|jobs| - 1]);
      if m.Some? && methods[m.value].Original? then before + {m.value} else before
  }

  /** The first job for a method, or the number of jobs. */
  function FirstFor(methods: Methods, jobs: seq<Job>, m: Method): (j: nat)
    ensures j <= |jobs| && (j < |jobs| ==> Target(methods, jobs[j]) == Some(m))
    ensures forall i :: 0 <= i < j ==> Target(methods, jobs[i]) != Some(m)
  {
    if jobs == [] then 0
    else
      var n := |jobs| - 1;
      var j := FirstFor(methods, jobs[..n], m);
      if j == n && Target(methods, jobs[n]) != Some(m) then n + 1 else j
  }

  /** What jobs leave of a method that was not hooked: the replacement of the first job for it, if there was
      still room then. A hooked one stays as it is. */
  function Outcome(t: Table, jobs: seq<Job>, m: Method): Imp
    requires m in t.methods
  {
    var j := FirstFor(t.methods, jobs, m);
    if t.methods[m].Original? && j < |jobs| && |t.entries| + |Fresh(t.methods, jobs[..j])| < MAX_ORIG
    then Hook(jobs[j].repl)
    else t.methods[m]
  }

  lemma {:induction false} FreshHas(methods: Methods, jobs: seq<Job>, m: Method)
    ensures m in Fresh(methods, jobs) <==>
              m in methods && methods[m].Original? && FirstFor(methods, jobs, m) < |jobs|
  {
    if jobs != [] { FreshHas(methods, jobs[..|jobs| - 1], m); }
  }

  lemma FreshSnoc(methods: Methods, jobs: seq<Job>)
    requires jobs != []
    ensures var m, before := Target(methods, jobs[|jobs| - 1]), Fresh(methods, jobs[..|jobs| - 1]);
            |Fresh(methods, jobs)| == |before| +
              if m.Some? && methods[m.value].Original? && m.value !in before then 1 else 0
  {
    var m, before := Target(methods, jobs[|jobs| - 1]), Fresh(methods, jobs[..|jobs| - 1]);
    if m.Some? && m.value in before { assert before + {m.value} == before; }
  }

  lemma {:induction false} FreshGrows(methods: Methods, jobs: seq<Job>, j: nat)
    requires j <= |jobs|
    ensures |Fresh(methods, jobs[..j])| <= |Fresh(methods, jobs)|
    decreases |jobs|
  {
    if j == |jobs| {
      assert jobs[..j] == jobs;
    } else {
      var front := jobs[..|jobs| - 1];
      assert front[..j] == jobs[..j];
      FreshGrows(methods, front, j);
      FreshSnoc(methods, jobs);
    }
  }

  /** The last job matters to a method exactly if no other is for it, it is not hooked and there is room. */
  lemma LastJob(t: Table, jobs: seq<Job>, m: Method)
    requires jobs != [] && m in t.methods
    ensures var front, last := jobs[..|jobs| - 1], jobs[|jobs| - 1];
            var room := |t.entries| + |Fresh(t.methods, front)| < MAX_ORIG;
            Outcome(t, jobs, m) ==
            if Target(t.methods, last) == Some(m) && Outcome(t, front, m).Original? && room then Hook(last.repl)
            else Outcome(t, front, m)
  {
    var front := jobs[..|jobs| - 1];
    var j := FirstFor(t.methods, front, m);
    assert front[..j] == jobs[..j];
    FreshGrows(t.methods, front, j);
  }

  /** Over any jobs, in order, on any table between installs, full tables included: each method ends up
      with the replacement of the first job for it, if the table still had room then, and otherwise as it
      was ... */
  lemma {:induction false} FirstJobWins(original: Methods, t: Table, jobs: seq<Job>, m: Method)
    requires InOrder(original, t) && m in t.methods
    ensures var t' := InstallAll(t, jobs);
            InOrder(original, t') && t'.methods.Keys == t.methods.Keys && t'.methods[m] == Outcome(t, jobs, m)
    decreases |jobs|
  {
    if jobs != [] {
      var front, last := jobs[..|jobs| - 1], jobs[|jobs| - 1];
      FirstJobWins(original, t, front, m);
      EachHookIsRecorded(original, t, front);
      var t1 := InstallAll(t, front);
      InstallTakesEffect(original, t1, last.cls, last.sel, last.repl);
      SameOwner(t.methods, t1.methods, last.cls, last.sel);
      ResolveIsMethod(t1.methods, last.cls, last.sel);
      LastJob(t, jobs, m);
    }
  }

  /** ... and the table holds one original for each method it hooked. */
  lemma {:induction false} EachHookIsRecorded(original: Methods, t: Table, jobs: seq<Job>)
    requires InOrder(original, t)
    ensures var t' := InstallAll(t, jobs);
            InOrder(original, t') && |t'.entries| == Min(MAX_ORIG, |t.entries| + |Fresh(t.methods, jobs)|)
    decreases |jobs|
  {
    if jobs != [] {
      var front, last := jobs[..|jobs| - 1], jobs[|jobs| - 1];
      EachHookIsRecorded(original, t, front);
      var t1 := InstallAll(t, front);
      InstallTakesEffect(original, t1, last.cls, last.sel, last.repl);
      ResolveIsMethod(t1.methods, last.cls, last.sel);
      SameOwner(t.methods, t1.methods, last.cls, last.sel);
      FreshSnoc(t.methods, jobs);
      var target := Target(t.methods, last);
      if target.Some? {
        FirstJobWins(original, t, front, target.value);
        FreshHas(t.methods, front, target.value);
        FreshGrows(t.methods, front, FirstFor(t.methods, front, target.value));
      }
    }
  }

  /** After any sequence of installs over any hierarchy, full table included. */
  lemma SwizzleTransparency(original: Methods, jobs: seq<Job>, c: Class, sel: Selector)
    requires Unhooked(original)
    ensures var t := InstallAll(Table([], original), jobs);
            Effective(t.entries, t.methods, c, sel) == Resolve(original, c, sel)
  {
    InstallAllKeepsFaithful(original, jobs);
    var t := InstallAll(Table([], original), jobs);
    FaithfulIsTransparent(original, t.entries, t.methods, c, sel);
  }

  /** Saved originals are never hooks, so a hook never calls itself through the table. */
  lemma SavedOriginalsAreNotHooks(original: Methods, jobs: seq<Job>, i: nat)
    requires Unhooked(original) && i < |InstallAll(Table([], original), jobs).entries|
    ensures InstallAll(Table([], original), jobs).entries[i].imp.Original?
  {
    InstallAllKeepsFaithful(original, jobs);
  }

  // ---- Readers in between ----------------------------------------------------------------------

  /** Memory as another thread finds it while an install is under way: slots beyond `count` may
      hold anything. */
  datatype Memory = Memory(slots: seq<Entry>, count: nat, methods: Methods)

  /** The three stores of an install, in program order. */
  datatype Store = WriteSlot(e: Entry) | PublishCount | SetImplementation(m: Method, repl: nat)

  predicate StoreOk(original: Methods, mem: Memory, store: Store) {
    match store
    case WriteSlot(e) => mem.count < |mem.slots|
    case PublishCount =>
      && mem.count < |mem.slots|
      && var e := mem.slots[mem.count];
         Method(e.cls, e.sel) in original && e.imp == original[Method(e.cls, e.sel)]
    case SetImplementation(m, _) =>
      m in mem.methods && mem.count <= |mem.slots| && Recorded(mem.slots[..mem.count], m.cls, m.sel).Some?
  }

  function DoStore(original: Methods, mem: Memory, store: Store): Memory
    requires StoreOk(original, mem, store)
  {
    match store
    case WriteSlot(e) => mem.(slots := mem.slots[mem.count := e])
    case PublishCount => mem.(count := mem.count + 1)
    case SetImplementation(m, repl) => mem.(methods := mem.methods[m := Hook(repl)])
  }

  predicate Stores(original: Methods, m1: Memory, stores: seq<Store>, m2: Memory)
    decreases |stores|
  {
    if stores == [] then m1 == m2
    else StoreOk(original, m1, stores[0]) && Stores(original, DoStore(original, m1, stores[0]), stores[1..], m2)
  }

  predicate Consistent(original: Methods, mem: Memory) {
    mem.count <= |mem.slots| && Faithful(original, mem.slots[..mem.count], mem.methods)
  }

  lemma StoreKeepsConsistent(original: Methods, mem: Memory, store: Store)
    requires Unhooked(original) && Consistent(original, mem) && StoreOk(original, mem, store)
    ensures Consistent(original, DoStore(original, mem, store))
    ensures mem.slots[..mem.count] <= DoStore(original, mem, store).slots[..DoStore(original, mem, store).count]
  {
    match store
    case WriteSlot(e) =>
      assert mem.slots[mem.count := e][..mem.count] == mem.slots[..mem.count];
    case PublishCount =>
      var e := mem.slots[mem.count];
      assert mem.slots[..mem.count + 1] == mem.slots[..mem.count] + [e];
      forall k | k in mem.methods
        ensures Recorded(mem.slots[..mem.count], k.cls, k.sel).Some?
                ==> Recorded(mem.slots[..mem.count + 1], k.cls, k.sel).Some?
      {
        RecordedGrows(mem.slots[..mem.count], e, k.cls, k.sel);
      }
    case SetImplementation(m, repl) =>
  }

  lemma {:induction false} StoresKeepConsistent(original: Methods, m1: Memory, stores: seq<Store>, m2: Memory)
    requires Unhooked(original) && Consistent(original, m1) && Stores(original, m1, stores, m2)
    ensures Consistent(original, m2) && m1.slots[..m1.count] <= m2.slots[..m2.count]
    decreases |stores|
  {
    if stores != [] {
      StoreKeepsConsistent(original, m1, stores[0]);
      StoresKeepConsistent(original, DoStore(original, m1, stores[0]), stores[1..], m2);
    }
  }

  lemma {:induction false} RecordedStays(a: seq<Entry>, b: seq<Entry>, c: Class, sel: Selector)
    requires a <= b && Recorded(a, c, sel).Some?
    ensures Recorded(b, c, sel) == Recorded(a, c, sel)
  {
    if !(a[0].cls == c && a[0].sel == sel) { RecordedStays(a[1..], b[1..], c, sel); }
  }

  /** A thread that entered a hook at m1 and looks its original up at any later point, in the middle
      of whatever installs, still gets the implementation from before all hooks. */
  lemma {:induction false} LateLookupIsTransparent(original: Methods, m1: Memory, stores: seq<Store>, m2: Memory,
                                                   c: Class, sel: Selector)
    requires Unhooked(original) && Consistent(original, m1) && Stores(original, m1, stores, m2)
    requires Resolve(m1.methods, c, sel).Some? && Resolve(m1.methods, c, sel).value.Hook?
    ensures m2.count <= |m2.slots| && LookupOrig(m2.slots[..m2.count], c, sel) == Resolve(original, c, sel)
  {
    StoresKeepConsistent(original, m1, stores, m2);
    var before, after := m1.slots[..m1.count], m2.slots[..m2.count];
    RecordedIsOriginal(original, after, c, sel);
    if Method(c, sel) in m1.methods {
      RecordedStays(before, after, c, sel);
    } else {
      LateLookupIsTransparent(original, m1, stores, m2, c.super, sel);
    }
  }

  lemma InstallStores(original: Methods, mem: Memory, m: Method, repl: nat)
    requires mem.count < |mem.slots| && m in mem.methods && m in original && mem.methods[m] == original[m]
    ensures var e := Entry(m.cls, m.sel, mem.methods[m]);
            Stores(original, mem, [WriteSlot(e), PublishCount, SetImplementation(m, repl)],
                   Memory(mem.slots[mem.count := e], mem.count + 1, mem.methods[m := Hook(repl)]))
  {
    var e := Entry(m.cls, m.sel, mem.methods[m]);
    var stores := [WriteSlot(e), PublishCount, SetImplementation(m, repl)];
    var mem1 := DoStore(original, mem, stores[0]);
    var mem2 := DoStore(original, mem1, stores[1]);
    assert mem2.slots[..mem2.count] == mem.slots[..mem.count] + [e];
    RecordedGrows(mem.slots[..mem.count], e, m.cls, m.sel);
    var mem3 := DoStore(original, mem2, stores[2]);
    assert Stores(original, mem3, stores[1..][1..][1..], mem3);
    assert Stores(original, mem2, stores[1..][1..], mem3);
    assert Stores(original, mem1, stores[1..], mem3);
  }

  // ---- The code ---------------------------------------------------------------------------------

  class OrigTable {
    const slots: array<Entry>
    var count: nat
    var methods: Methods
    ghost const original: Methods

    ghost predicate Valid()
      reads this, slots
    {
      slots.Length == MAX_ORIG && count <= MAX_ORIG && InOrder(original, Table(slots[..count], methods))
    }

    ghost function Abs(): Table
      reads this, slots
      requires count <= slots.Length
    {
      Table(slots[..count], methods)
    }

    ghost function Mem(): Memory
      reads this, slots
    {
      Memory(slots[..], count, methods)
    }

    constructor (methods: Methods)
      requires Unhooked(methods)
      ensures Valid() && Abs() == Table([], methods) && original == methods
    {
      slots := new Entry[MAX_ORIG](_ => Entry(Nil, 0, Original(0)));
      count := 0;
      this.methods := methods;
      original := methods;
    }

    method RecordedFor(c: Class, sel: Selector) returns (imp: Option<Imp>)
      requires count <= slots.Length
      ensures imp == Recorded(slots[..count], c, sel)
    {
      for i := 0 to count
        invariant Recorded(slots[..count], c, sel) == Recorded(slots[i..count], c, sel)
      {
        if slots[i].cls == c && slots[i].sel == sel { return Some(slots[i].imp); }
        assert slots[i..count][1..] == slots[i + 1..count];
      }
      imp := None;
    }

    method Lookup(c: Class, sel: Selector) returns (imp: Option<Imp>)
      requires count <= slots.Length
      ensures imp == LookupOrig(slots[..count], c, sel)
    {
      var k := c;
      while !k.Nil?
        invariant LookupOrig(slots[..count], c, sel) == LookupOrig(slots[..count], k, sel)
        decreases k
      {
        imp := RecordedFor(k, sel);
        if imp.Some? { return; }
        k := k.super;
      }
      imp := None;
    }

    /** implementing_class: the class on the chain whose own list holds exactly this Method. */
    method ImplementingClass(c: Class, m: Method) returns (owner: Class)
      requires GetInstanceMethod(methods, c, m.sel) == Some(m)
      ensures owner == m.cls
    {
      var k := c;
      while !k.Nil?
        invariant GetInstanceMethod(methods, k, m.sel) == Some(m)
        decreases k
      {
        if Method(k, m.sel) in methods && Method(k, m.sel) == m { return k; }
        k := k.super;
      }
      assert false;
      owner := c;
    }

    /** install_one, under g_install_lock. Every store is one of the machine above, so a reader may
        look in anywhere. */
    method Install(c: Class, sel: Selector, repl: nat) returns (installed: bool, ghost stores: seq<Store>)
      requires Valid()
      modifies this`count, this`methods, slots
      ensures Valid()
      ensures (Abs(), installed) == InstallOne(old(Abs()), c, sel, repl)
      ensures var m := GetInstanceMethod(old(methods), c, sel);
              && (installed <==> m.Some? && old(methods)[m.value].Original? && old(count) < MAX_ORIG)
              && (installed ==>
                    && methods == old(methods)[m.value := Hook(repl)]
                    && slots[..count] == old(slots[..count]) + [Entry(m.value.cls, sel, original[m.value])])
              && (!installed ==> Abs() == old(Abs()))
      ensures Stores(original, old(Mem()), stores, Mem())
    {
      stores := [];
      InstallTakesEffect(original, Abs(), c, sel, repl);
      ResolveIsMethod(methods, c, sel);
      var found := GetInstanceMethod(methods, c, sel);
      if found.None? { return false, []; }
      var m := found.value;
      var owner := ImplementingClass(c, m);
      var ours := RecordedFor(owner, sel);
      if ours.Some? || methods[m] == Hook(repl) || count >= MAX_ORIG { return false, []; }

      ghost var t0, mem0 := Abs(), Mem();
      InstallStores(original, mem0, m, repl);
      var e := Entry(owner, sel, methods[m]);
      slots[count] := e;
      count := count + 1;
      methods := methods[m := Hook(repl)];
      stores := [WriteSlot(e), PublishCount, SetImplementation(m, repl)];
      assert slots[..] == mem0.slots[mem0.count := e] && slots[..count] == t0.entries + [e];
      installed := true;
    }

    /** install_jobs: one lock, every job in order. */
    method InstallJobs(c: Class, jobs: seq<Job>)
      requires Valid() && forall j :: 0 <= j < |jobs| ==> jobs[j].cls == c
      modifies this`count, this`methods, slots
      ensures Valid()
      ensures Abs() == InstallAll(old(Abs()), jobs)
      ensures forall m :: m in old(methods) ==> m in methods && methods[m] == Outcome(old(Abs()), jobs, m)
    {
      for i := 0 to |jobs|
        invariant Valid() && Abs() == InstallAll(old(Abs()), jobs[..i])
      {
        var installed; ghost var stores;
        installed, stores := Install(c, jobs[i].sel, jobs[i].repl);
        assert jobs[..i + 1][..i] == jobs[..i];
      }
      assert jobs[..|jobs|] == jobs;
      forall m | m in old(methods) ensures m in methods && methods[m] == Outcome(old(Abs()), jobs, m) {
        FirstJobWins(original, old(Abs()), jobs, m);
      }
    }
  }
}
