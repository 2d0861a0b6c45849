/** Code-point order on strings: Python's sort order, and strcmp on the ASCII names of the registry. */
module StringOrder {

  predicate Less(a: string, b: string) {
    if b == [] then false
    else if a == [] then true
    else a[0] < b[0] || (a[0] == b[0] && Less(a[1..], b[1..]))
  }

  /** Sign of strcmp. */
  function Compare(a: string, b: string): int {
    if a == b then 0 else if Less(a, b) then -1 else 1
  }

  lemma {:induction false} Trichotomy(a: string, b: string)
    ensures a == b || Less(a, b) || Less(b, a)
    ensures !(Less(a, b) && Less(b, a)) && (a == b ==> !Less(a, b))
  {
    if a != [] && b != [] && a[0] == b[0] {
      Trichotomy(a[1..], b[1..]);
      assert a == [a[0]] + a[1..] && b == [b[0]] + b[1..];
    }
  }

  lemma {:induction false} Transitive(a: string, b: string, c: string)
    requires Less(a, b) && Less(b, c)
    ensures Less(a, c)
  {
    if a != [] && a[0] == b[0] && b[0] == c[0] { Transitive(a[1..], b[1..], c[1..]); }
  }

  /** Strictly increasing, hence without repetitions. */
  predicate Sorted(s: seq<string>) {
    forall i, j :: 0 <= i < j < |s| ==> Less(s[i], s[j])
  }

  /** sorted() of a set. */
  method SortNames(names: set<string>) returns (sorted: seq<string>)
    ensures Sorted(sorted)
    ensures forall n :: n in sorted <==> n in names
  {
    sorted := [];
    var rest := names;
    while rest != {}
      invariant rest <= names
      invariant Sorted(sorted)
      invariant forall n :: n in names <==> n in sorted || n in rest
      invariant forall i, n :: 0 <= i < |sorted| && n in rest ==> Less(sorted[i], n)
      decreases rest
    {
      var least := Least(rest);
      forall n | n in rest - {least} ensures Less(least, n) {
        Trichotomy(least, n);
      }
      sorted := sorted + [least];
      rest := rest - {least};
    }
  }

  method Least(names: set<string>) returns (least: string)
    requires names != {}
    ensures least in names && forall n :: n in names ==> !Less(n, least)
  {
    least :| least in names;
    var rest := names - {least};
    Trichotomy(least, least);
    while rest != {}
      invariant rest <= names && least in names
      invariant forall n :: n in names - rest ==> !Less(n, least)
      decreases rest
    {
      var n :| n in rest;
      rest := rest - {n};
      Trichotomy(n, n);
      if Less(n, least) {
        forall m | m in names - rest ensures !Less(m, n) {
          if Less(m, n) { Transitive(m, n, least); }
        }
        least := n;
      }
    }
  }
}
