/** Name lookup over the generated tables, and the gate of xrGetInstanceProcAddr. */
module Lookup {
  import opened Prelude
  import opened StringOrder

  /** struct openxr_function; `extension` indexes the extension table, -1 for core functions. */
  datatype Row = Row(name: string, pfn: nat, extension: int, coreMinor: nat, global: bool)

  predicate RowsSorted(rows: seq<Row>) {
    forall i, j :: 0 <= i < j < |rows| ==> Less(rows[i].name, rows[j].name)
  }

  predicate HasRow(rows: seq<Row>, name: string, row: Row) {
    row in rows && row.name == name
  }

  lemma SortedRowsUnique(rows: seq<Row>, name: string, r1: Row, r2: Row)
    requires RowsSorted(rows) && HasRow(rows, name, r1) && HasRow(rows, name, r2)
    ensures r1 == r2
  {
    var i :| 0 <= i < |rows| && rows[i] == r1;
    var j :| 0 <= j < |rows| && rows[j] == r2;
    Trichotomy(name, name);
  }

  /** What the middle of a sorted table says about everything on one side of it. */
  lemma LeftOf(names: seq<string>, middle: nat, name: string)
    requires Sorted(names) && middle < |names| && Less(names[middle], name)
    ensures forall k :: 0 <= k <= middle ==> names[k] != name
  {
    forall k | 0 <= k <= middle ensures names[k] != name { Trichotomy(name, names[middle]); }
  }

  lemma RightOf(names: seq<string>, middle: nat, name: string)
    requires Sorted(names) && middle < |names| && Less(name, names[middle])
    ensures forall k :: middle <= k < |names| ==> names[k] != name
  {
    forall k | middle <= k < |names| ensures names[k] != name { Trichotomy(name, names[middle]); }
  }

  function Names(rows: seq<Row>): (r: seq<string>)
    ensures |r| == |rows| && forall i :: 0 <= i < |r| ==> r[i] == rows[i].name
  {
    seq(|rows|, i requires 0 <= i < |rows| => rows[i].name)
  }

  /** wine_xr_extension_index: the position of a name in a sorted table, or -1. */
  method ExtensionIndex(names: seq<string>, name: string) returns (index: int)
    requires Sorted(names)
    ensures if name in names then 0 <= index < |names| && names[index] == name else index == -1
  {
    var low, high := 0, |names|;
    while low < high
      invariant 0 <= low <= high <= |names|
      invariant forall k :: 0 <= k < low || high <= k < |names| ==> names[k] != name
    {
      var middle := (low + high) / 2;
      var comparison := Compare(names[middle], name);
      if comparison == 0 { return middle; }
      if comparison < 0 {
        LeftOf(names, middle, name);
        low := middle + 1;
      } else {
        Trichotomy(names[middle], name);
        RightOf(names, middle, name);
        high := middle;
      }
    }
    index := -1;
  }

  /** wine_xr_find_function. */
  method FindFunction(rows: seq<Row>, name: string) returns (row: Option<Row>)
    requires RowsSorted(rows)
    ensures row.Some? ==> HasRow(rows, name, row.value)
    ensures row.None? ==> forall r :: r in rows ==> r.name != name
  {
    var low, high := 0, |rows|;
    ghost var names := Names(rows);
    while low < high
      invariant 0 <= low <= high <= |rows|
      invariant forall k :: 0 <= k < low || high <= k < |rows| ==> rows[k].name != name
    {
      var middle := (low + high) / 2;
      var comparison := Compare(rows[middle].name, name);
      if comparison == 0 { return Some(rows[middle]); }
      if comparison < 0 {
        LeftOf(names, middle, name);
        forall k | 0 <= k <= middle ensures rows[k].name != name { assert names[k] != name; }
        low := middle + 1;
      } else {
        Trichotomy(rows[middle].name, name);
        RightOf(names, middle, name);
        forall k | middle <= k < |rows| ensures rows[k].name != name { assert names[k] != name; }
        high := middle;
      }
    }
    row := None;
  }

  // ---- The enabled-extension bitset ---------------------------------------------------------------

  function BitIndex(k: nat): bv6
    requires k < 64
  {
    k as bv6
  }

  function Mask(b: bv6): bv64 {
    (1 as bv64) << b
  }

  lemma BitIndexInverse(k: nat)
    requires k < 64
    ensures BitIndex(k) as nat == k
  {
  }

  lemma BitIndexInjective(j: nat, k: nat)
    requires j < 64 && k < 64
    ensures BitIndex(j) == BitIndex(k) ==> j == k
  {
    BitIndexInverse(j);
    BitIndexInverse(k);
  }

  lemma OrMask(w: bv64, j: bv6, k: bv6)
    ensures ((w | Mask(j)) & Mask(k) != 0) <==> (j == k || w & Mask(k) != 0)
  {
  }

  function SetBit(w: bv64, j: bv6): bv64 {
    w | Mask(j)
  }

  predicate BitOf(w: bv64, k: bv6) {
    w & Mask(k) != 0
  }

  lemma SetBitOf(w: bv64, j: bv6, k: bv6)
    ensures BitOf(SetBit(w, j), k) <==> j == k || BitOf(w, k)
  {
    OrMask(w, j, k);
  }

  lemma EmptyWord(k: bv6)
    ensures !BitOf(0, k)
  {
  }

  predicate TestBit(words: seq<bv64>, i: nat)
    requires i / 64 < |words|
  {
    BitOf(words[i / 64], BitIndex(i % 64))
  }

  lemma SetWordBit(words: seq<bv64>, bit: nat, i: nat)
    requires bit / 64 < |words| && i / 64 < |words|
    ensures TestBit(words[bit / 64 := SetBit(words[bit / 64], BitIndex(bit % 64))], i) <==>
            i == bit || TestBit(words, i)
  {
    if i / 64 == bit / 64 {
      SetBitOf(words[bit / 64], BitIndex(bit % 64), BitIndex(i % 64));
      BitIndexInjective(bit % 64, i % 64);
    }
  }

  lemma SortedUnique(names: seq<string>, i: nat, j: nat)
    requires Sorted(names) && i < |names| && j < |names| && names[i] == names[j]
    ensures i == j
  {
    Trichotomy(names[i], names[j]);
  }

  /** The end of xrCreateInstance: one bit per extension of the application's list; names the bridge
      does not know set none. */
  method EnableExtensions(names: seq<string>, app: seq<string>) returns (words: seq<bv64>)
    requires Sorted(names)
    ensures |words| == (|names| + 63) / 64
    ensures forall i :: 0 <= i < |names| ==> (TestBit(words, i) <==> names[i] in app)
  {
    words := seq((|names| + 63) / 64, _ => 0);
    forall i | 0 <= i < |names| ensures !TestBit(words, i) { EmptyWord(BitIndex(i % 64)); }
    for n := 0 to |app|
      invariant |words| == (|names| + 63) / 64
      invariant forall i :: 0 <= i < |names| ==> (TestBit(words, i) <==> names[i] in app[..n])
    {
      var bit := ExtensionIndex(names, app[n]);
      assert app[..n + 1] == app[..n] + [app[n]];
      if bit >= 0 {
        ghost var before := words;
        words := words[bit / 64 := SetBit(words[bit / 64], BitIndex(bit % 64))];
        forall i | 0 <= i < |names| ensures TestBit(words, i) <==> names[i] in app[..n + 1] {
          SetWordBit(before, bit, i);
          if names[i] == app[n] { SortedUnique(names, i, bit); }
        }
      }
    }
    assert app[..|app|] == app;
  }

  // ---- xrGetInstanceProcAddr ------------------------------------------------------------------------

  datatype Instance = Instance(words: seq<bv64>, apiMinor: nat)

  datatype Answer = Success(pfn: nat) | ValidationFailure | FunctionUnsupported | HandleInvalid

  const LOADER_INIT := "xrInitializeLoaderKHR"

  /** The gate on a live instance: the extension is enabled, or the core version is high enough. */
  predicate Opens(instance: Instance, row: Row) {
    if row.extension >= 0 then row.extension / 64 < |instance.words| && TestBit(instance.words, row.extension)
    else row.coreMinor <= instance.apiMinor
  }

  ghost predicate Provides(rows: seq<Row>, instance: Option<Instance>, name: string, row: Row) {
    HasRow(rows, name, row) && if instance.None? then row.global else Opens(instance.value, row)
  }

  /** For a non-null name and result pointer, success means exactly one thing: without an instance,
      a global row of that name; with one, a row of that name that the gate opens. */
  method GetInstanceProcAddr(rows: seq<Row>, instance: Option<Instance>, name: Option<string>, hasResult: bool)
    returns (answer: Answer)
    requires RowsSorted(rows)
    requires instance.Some? ==> forall r :: r in rows ==> r.extension / 64 < |instance.value.words|
    ensures !hasResult || name.None? ==> answer == ValidationFailure
    ensures hasResult && name.Some? ==>
              (forall pfn :: answer == Success(pfn) <==>
                 name.value != LOADER_INIT && exists row :: Provides(rows, instance, name.value, row) && row.pfn == pfn)
    ensures hasResult && name.Some? && name.value != LOADER_INIT ==>
              forall row :: HasRow(rows, name.value, row) ==>
                (answer == Success(row.pfn) <==>
                 if instance.None? then row.global
                 else if row.extension >= 0 then TestBit(instance.value.words, row.extension)
                 else row.coreMinor <= instance.value.apiMinor)
    ensures hasResult && name.Some? && !answer.Success? ==>
              answer == if instance.None? && name.value != LOADER_INIT then HandleInvalid else FunctionUnsupported
  {
    if !hasResult || name.None? { return ValidationFailure; }
    if name.value == LOADER_INIT { return FunctionUnsupported; }
    var entry := FindFunction(rows, name.value);
    if entry.Some? {
      forall r | HasRow(rows, name.value, r) ensures r == entry.value {
        SortedRowsUnique(rows, name.value, r, entry.value);
      }
    }
    if instance.None? {
      if entry.Some? && entry.value.global { return Success(entry.value.pfn); }
      return HandleInvalid;
    }
    if entry.None? { return FunctionUnsupported; }
    var row := entry.value;
    if row.extension >= 0 {
      if !BitOf(instance.value.words[row.extension / 64], BitIndex(row.extension % 64)) { return FunctionUnsupported; }
    } else if instance.value.apiMinor < row.coreMinor {
      return FunctionUnsupported;
    }
    answer := Success(row.pfn);
  }
}
