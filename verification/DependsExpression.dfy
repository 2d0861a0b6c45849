/** The registry's dependency expressions: names joined by '+' (and) and ',' (or), with
    parentheses. Both operators bind equally and associate to the left. */
module DependsExpression {

  // ---- What depends_satisfiable computes, on any text ---------------------------------------

  /** Characters str.strip removes. */
  predicate IsSpace(c: char) {
    || '\U{9}' <= c <= '\U{d}' || '\U{1c}' <= c <= ' ' || c == '\U{85}' || c == '\U{a0}' || c == '\U{1680}'
    || '\U{2000}' <= c <= '\U{200a}' || c == '\U{2028}' || c == '\U{2029}' || c == '\U{202f}'
    || c == '\U{205f}' || c == '\U{3000}'
  }

  function StripLeft(s: string): (r: string)
    ensures |r| <= |s|
  {
    if s != [] && IsSpace(s[0]) then StripLeft(s[1..]) else s
  }

  function StripRight(s: string): (r: string)
    ensures |r| <= |s|
  {
    if s != [] && IsSpace(s[|s| - 1]) then StripRight(s[..|s| - 1]) else s
  }

  function Strip(s: string): (r: string)
    ensures |r| <= |s|
  {
    StripRight(StripLeft(s))
  }

  /** Progress of the scan: the atoms so far (the last one still growing), the operators between
      them, and the nesting depth, which unbalanced text may drive below zero. */
  datatype Scan = Scan(atoms: seq<string>, ops: string, depth: int)

  function Depth(c: char, depth: int): int {
    if c == '(' then depth + 1 else if c == ')' then depth - 1 else depth
  }

  predicate IsOp(c: char) {
    c == '+' || c == ','
  }

  predicate ScanOk(s: Scan) {
    |s.atoms| == |s.ops| + 1
  }

  function Append(s: Scan, t: string): Scan
    requires ScanOk(s)
  {
    s.(atoms := s.atoms[|s.atoms| - 1 := s.atoms[|s.atoms| - 1] + t])
  }

  function Advance(s: Scan, c: char): (r: Scan)
    requires ScanOk(s)
    ensures ScanOk(r)
  {
    var depth := Depth(c, s.depth);
    if IsOp(c) && depth == 0 then Scan(s.atoms + [""], s.ops + [c], depth)
    else Append(s, [c]).(depth := depth)
  }

  function ScanFrom(s: Scan, text: string): (r: Scan)
    requires ScanOk(s)
    ensures ScanOk(r)
    decreases |text|
  {
    if text == [] then s else Advance(ScanFrom(s, text[..|text| - 1]), text[|text| - 1])
  }

  const START := Scan([""], "", 0)

  function MaxLength(atoms: seq<string>): nat {
    if atoms == [] then 0
    else
      var rest := MaxLength(atoms[1..]);
      if |atoms[0]| > rest then |atoms[0]| else rest
  }

  lemma {:induction false} MaxLengthBound(atoms: seq<string>, n: nat)
    requires forall i :: 0 <= i < |atoms| ==> |atoms[i]| <= n
    ensures MaxLength(atoms) <= n
  {
    if atoms != [] { MaxLengthBound(atoms[1..], n); }
  }

  lemma {:induction false} MaxLengthAt(atoms: seq<string>, i: nat)
    requires i < |atoms|
    ensures |atoms[i]| <= MaxLength(atoms)
  {
    if i != 0 { MaxLengthAt(atoms[1..], i - 1); }
  }

  lemma {:induction false} AtomsFit(text: string)
    ensures forall i :: 0 <= i < |ScanFrom(START, text).atoms| ==> |ScanFrom(START, text).atoms[i]| <= |text|
  {
    if text != [] { AtomsFit(text[..|text| - 1]); }
  }

  /** atom[1:-1]. */
  function Inner(a: string): (r: string)
    requires a != []
    ensures |r| < |a|
  {
    if |a| == 1 then [] else a[1..|a| - 1]
  }

  function AtomSatisfiable(atom: string, satisfied: set<string>): bool
    decreases |atom|, 0, 0
  {
    var a := Strip(atom);
    if a != [] && a[0] == '(' then Satisfiable(Inner(a), satisfied) else a in satisfied
  }

  /** The left fold over atoms 0..n. */
  function Fold(atoms: seq<string>, ops: string, n: nat, satisfied: set<string>): bool
    requires |atoms| == |ops| + 1 && n < |atoms|
    decreases MaxLength(atoms), 1, n
  {
    MaxLengthAt(atoms, n);
    var atom := AtomSatisfiable(atoms[n], satisfied);
    if n == 0 then atom
    else if ops[n - 1] == '+' then Fold(atoms, ops, n - 1, satisfied) && atom
    else Fold(atoms, ops, n - 1, satisfied) || atom
  }

  function Satisfiable(text: string, satisfied: set<string>): bool
    decreases |text|, 2, 0
  {
    AtomsFit(text);
    var s := ScanFrom(START, text);
    MaxLengthBound(s.atoms, |text|);
    Fold(s.atoms, s.ops, |s.ops|, satisfied)
  }

  // ---- Expressions and their meaning ------------------------------------------------------------

  datatype Operator = And | Or

  datatype Atom = Name(name: string) | Group(e: Expr)

  /** An atom with the white space around it. */
  datatype Padded = Padded(left: string, atom: Atom, right: string)

  /** Left-nested, as the expression is evaluated. */
  datatype Expr = One(p: Padded) | Then(e: Expr, op: Operator, p: Padded)

  predicate AllSpace(s: string) {
    forall i :: 0 <= i < |s| ==> IsSpace(s[i])
  }

  /** Any name the grammar can hold: no operator or parenthesis, and no white space at its ends. */
  predicate NameOk(s: string) {
    && (forall i :: 0 <= i < |s| ==> !IsOp(s[i]) && s[i] != '(' && s[i] != ')')
    && (s != [] ==> !IsSpace(s[0]) && !IsSpace(s[|s| - 1]))
  }

  predicate PaddedOk(p: Padded) {
    && AllSpace(p.left) && AllSpace(p.right)
    && match p.atom
       case Name(name) => NameOk(name)
       case Group(e) => ExprOk(e)
  }

  predicate ExprOk(e: Expr) {
    match e
    case One(p) => PaddedOk(p)
    case Then(e1, _, p) => ExprOk(e1) && PaddedOk(p)
  }

  function EvalPadded(p: Padded, satisfied: set<string>): bool {
    match p.atom
    case Name(name) => name in satisfied
    case Group(e) => Eval(e, satisfied)
  }

  function Eval(e: Expr, satisfied: set<string>): bool {
    match e
    case One(p) => EvalPadded(p, satisfied)
    case Then(e1, op, p) =>
      if op.And? then Eval(e1, satisfied) && EvalPadded(p, satisfied)
      else Eval(e1, satisfied) || EvalPadded(p, satisfied)
  }

  function OpChar(op: Operator): char {
    if op.And? then '+' else ','
  }

  function PrintAtom(a: Atom): string {
    match a
    case Name(name) => name
    case Group(e) => "(" + Print(e) + ")"
  }

  function PrintPadded(p: Padded): string {
    p.left + PrintAtom(p.atom) + p.right
  }

  function Print(e: Expr): string {
    match e
    case One(p) => PrintPadded(p)
    case Then(e1, op, p) => Print(e1) + [OpChar(op)] + PrintPadded(p)
  }

  /** The printed atoms of the outermost level, and the operators between them. */
  function Atoms(e: Expr): seq<string> {
    match e
    case One(p) => [PrintPadded(p)]
    case Then(e1, _, p) => Atoms(e1) + [PrintPadded(p)]
  }

  function Ops(e: Expr): (r: string)
    ensures |Atoms(e)| == |r| + 1
  {
    match e
    case One(_) => ""
    case Then(e1, op, _) => Ops(e1) + [OpChar(op)]
  }

  // ---- The scan finds the outermost level ---------------------------------------------------------

  lemma {:induction false} ScanThen(s: Scan, a: string, b: string)
    requires ScanOk(s)
    ensures ScanFrom(s, a + b) == ScanFrom(ScanFrom(s, a), b)
    decreases |b|
  {
    if b == [] {
      assert a + b == a;
    } else {
      ScanThen(s, a, b[..|b| - 1]);
      assert (a + b)[..|a + b| - 1] == a + b[..|b| - 1];
    }
  }

  /** Text that adds itself to the growing atom and ends at the depth it started from. */
  ghost predicate Inert(s: Scan, t: string) {
    ScanOk(s) && ScanFrom(s, t) == Append(s, t)
  }

  lemma InertThen(s: Scan, a: string, b: string)
    requires Inert(s, a) && Inert(Append(s, a), b)
    ensures Inert(s, a + b)
  {
    ScanThen(s, a, b);
    var last := s.atoms[|s.atoms| - 1];
    assert last + a + b == last + (a + b);
  }

  lemma {:induction false} PlainIsInert(s: Scan, t: string)
    requires ScanOk(s) && forall i :: 0 <= i < |t| ==> !IsOp(t[i]) && t[i] != '(' && t[i] != ')'
    ensures Inert(s, t)
    decreases |t|
  {
    var last := s.atoms[|s.atoms| - 1];
    if t == [] {
      assert last + t == last;
    } else {
      PlainIsInert(s, t[..|t| - 1]);
      assert last + t[..|t| - 1] + [t[|t| - 1]] == last + t;
    }
  }

  lemma OneChar(s: Scan, c: char)
    requires ScanOk(s)
    ensures ScanFrom(s, [c]) == Advance(s, c)
  {
  }

  lemma {:induction false} GroupIsInert(s: Scan, e: Expr)
    requires ScanOk(s) && s.depth >= 0 && ExprOk(e)
    ensures Inert(s, "(" + Print(e) + ")")
    decreases e, 2
  {
    var t := Print(e);
    var s1 := Append(s, "(").(depth := s.depth + 1);
    OneChar(s, '(');
    ExprIsInert(s1, e);
    OneChar(Append(s1, t), ')');
    ScanThen(s, "(", t);
    ScanThen(s, "(" + t, ")");
    var last := s.atoms[|s.atoms| - 1];
    assert last + "(" + t + ")" == last + ("(" + t + ")");
  }

  lemma {:induction false} PaddedIsInert(s: Scan, p: Padded)
    requires ScanOk(s) && s.depth >= 0 && PaddedOk(p)
    ensures Inert(s, PrintPadded(p))
    decreases p, 3
  {
    PlainIsInert(s, p.left);
    var s1 := Append(s, p.left);
    match p.atom {
      case Name(name) => PlainIsInert(s1, name);
      case Group(e) => GroupIsInert(s1, e);
    }
    InertThen(s, p.left, PrintAtom(p.atom));
    PlainIsInert(Append(s, p.left + PrintAtom(p.atom)), p.right);
    InertThen(s, p.left + PrintAtom(p.atom), p.right);
  }

  /** Inside parentheses the operators are ordinary characters. */
  lemma {:induction false} ExprIsInert(s: Scan, e: Expr)
    requires ScanOk(s) && s.depth >= 1 && ExprOk(e)
    ensures Inert(s, Print(e))
    decreases e, 1
  {
    match e
    case One(p) => PaddedIsInert(s, p);
    case Then(e1, op, p) =>
      ExprIsInert(s, e1);
      var s1 := Append(s, Print(e1));
      OneChar(s1, OpChar(op));
      InertThen(s, Print(e1), [OpChar(op)]);
      PaddedIsInert(Append(s, Print(e1) + [OpChar(op)]), p);
      InertThen(s, Print(e1) + [OpChar(op)], PrintPadded(p));
  }

  lemma FillLastAtom(atoms: seq<string>, ops: string, t: string)
    requires |atoms| == |ops|
    ensures Append(Scan(atoms + [""], ops, 0), t) == Scan(atoms + [t], ops, 0)
  {
    assert "" + t == t;
    assert (atoms + [""])[|atoms| := t] == atoms + [t];
  }

  /** At the outermost level, scanning a printed expression finds its atoms and operators. */
  lemma {:induction false} ScanFindsAtoms(e: Expr)
    requires ExprOk(e)
    ensures ScanFrom(START, Print(e)) == Scan(Atoms(e), Ops(e), 0)
  {
    match e
    case One(p) =>
      PaddedIsInert(START, p);
      assert [] + [""] == [""] && [] + [PrintPadded(p)] == [PrintPadded(p)];
      FillLastAtom([], "", PrintPadded(p));
    case Then(e1, op, p) =>
      ScanFindsAtoms(e1);
      ScanThen(START, Print(e1), [OpChar(op)]);
      OneChar(Scan(Atoms(e1), Ops(e1), 0), OpChar(op));
      ScanThen(START, Print(e1) + [OpChar(op)], PrintPadded(p));
      PaddedIsInert(Scan(Atoms(e1) + [""], Ops(e1) + [OpChar(op)], 0), p);
      FillLastAtom(Atoms(e1), Ops(e1) + [OpChar(op)], PrintPadded(p));
  }

  // ---- Stripping -----------------------------------------------------------------------------------

  lemma TailOfAppend(a: string, b: string)
    requires a != []
    ensures (a + b)[0] == a[0] && (a + b)[1..] == a[1..] + b
  {
  }

  lemma FrontOfAppend(a: string, b: string)
    requires b != []
    ensures (a + b)[|a + b| - 1] == b[|b| - 1] && (a + b)[..|a + b| - 1] == a + b[..|b| - 1]
  {
  }

  lemma {:induction false} StripLeftPad(pad: string, s: string)
    requires AllSpace(pad)
    ensures StripLeft(pad + s) == StripLeft(s)
  {
    if pad == [] {
      assert pad + s == s;
    } else {
      TailOfAppend(pad, s);
      StripLeftPad(pad[1..], s);
    }
  }

  lemma {:induction false} StripRightPad(s: string, pad: string)
    requires AllSpace(pad)
    ensures StripRight(s + pad) == StripRight(s)
    decreases |pad|
  {
    if pad == [] {
      assert s + pad == s;
    } else {
      FrontOfAppend(s, pad);
      StripRightPad(s, pad[..|pad| - 1]);
    }
  }

  lemma StripPads(left: string, core: string, right: string)
    requires AllSpace(left) && AllSpace(right)
    requires core != [] ==> !IsSpace(core[0]) && !IsSpace(core[|core| - 1])
    ensures Strip(left + core + right) == core
  {
    assert left + core + right == left + (core + right);
    StripLeftPad(left, core + right);
    if core == [] {
      assert core + right == right && right + [] == right;
      StripLeftPad(right, []);
    } else {
      assert StripLeft(core + right) == core + right;
      StripRightPad(core, right);
    }
  }

  // ---- The theorem ---------------------------------------------------------------------------------

  lemma {:induction false} FoldPrefix(atoms: seq<string>, ops: string, atom: string, op: char, n: nat,
                                      satisfied: set<string>)
    requires |atoms| == |ops| + 1 && n < |atoms|
    ensures Fold(atoms + [atom], ops + [op], n, satisfied) == Fold(atoms, ops, n, satisfied)
    decreases n
  {
    if n != 0 { FoldPrefix(atoms, ops, atom, op, n - 1, satisfied); }
  }

  lemma {:induction false} PaddedMeans(p: Padded, satisfied: set<string>)
    requires PaddedOk(p)
    ensures AtomSatisfiable(PrintPadded(p), satisfied) == EvalPadded(p, satisfied)
    decreases p, 1
  {
    var core := PrintAtom(p.atom);
    StripPads(p.left, core, p.right);
    match p.atom
    case Name(name) =>
    case Group(e) =>
      assert Inner(core) == Print(e);
      PrintedExpressionMeans(e, satisfied);
  }

  lemma {:induction false} FoldMeans(e: Expr, satisfied: set<string>)
    requires ExprOk(e)
    ensures Fold(Atoms(e), Ops(e), |Ops(e)|, satisfied) == Eval(e, satisfied)
    decreases e, 1
  {
    match e
    case One(p) => PaddedMeans(p, satisfied);
    case Then(e1, op, p) =>
      FoldMeans(e1, satisfied);
      FoldPrefix(Atoms(e1), Ops(e1), PrintPadded(p), OpChar(op), |Ops(e1)|, satisfied);
      PaddedMeans(p, satisfied);
  }

  /** Printing any well-formed expression, with any white space around its atoms, and evaluating the
      text gives the left-to-right, equal-precedence value of the expression. */
  lemma {:induction false} PrintedExpressionMeans(e: Expr, satisfied: set<string>)
    requires ExprOk(e)
    ensures Satisfiable(Print(e), satisfied) == Eval(e, satisfied)
    decreases e, 2
  {
    ScanFindsAtoms(e);
    FoldMeans(e, satisfied);
  }

  lemma {:induction false} AtomMonotone(atom: string, small: set<string>, large: set<string>)
    requires small <= large
    ensures AtomSatisfiable(atom, small) ==> AtomSatisfiable(atom, large)
    decreases |atom|, 0, 0
  {
    var a := Strip(atom);
    if a != [] && a[0] == '(' { Monotone(Inner(a), small, large); }
  }

  lemma {:induction false} FoldMonotone(atoms: seq<string>, ops: string, n: nat, small: set<string>, large: set<string>)
    requires small <= large && |atoms| == |ops| + 1 && n < |atoms|
    ensures Fold(atoms, ops, n, small) ==> Fold(atoms, ops, n, large)
    decreases MaxLength(atoms), 1, n
  {
    MaxLengthAt(atoms, n);
    AtomMonotone(atoms[n], small, large);
    if n != 0 { FoldMonotone(atoms, ops, n - 1, small, large); }
  }

  /** On any text at all, balanced or not: satisfying more names never makes it unsatisfiable. */
  lemma {:induction false} Monotone(text: string, small: set<string>, large: set<string>)
    requires small <= large
    ensures Satisfiable(text, small) ==> Satisfiable(text, large)
    decreases |text|, 2, 0
  {
    AtomsFit(text);
    var s := ScanFrom(START, text);
    MaxLengthBound(s.atoms, |text|);
    FoldMonotone(s.atoms, s.ops, |s.ops|, small, large);
  }

  // ---- The code ------------------------------------------------------------------------------------

  /** depends_satisfiable. */
  method DependsSatisfiable(expression: string, satisfied: set<string>) returns (result: bool)
    ensures result == Satisfiable(expression, satisfied)
    decreases |expression|, 1
  {
    var atoms, operators, depth := [""], "", 0;
    for i := 0 to |expression|
      invariant |atoms| == |operators| + 1
      invariant Scan(atoms, operators, depth) == ScanFrom(START, expression[..i])
    {
      var character := expression[i];
      assert expression[..i + 1][..i] == expression[..i];
      if character == '(' {
        depth := depth + 1;
      } else if character == ')' {
        depth := depth - 1;
      }
      if (character == '+' || character == ',') && depth == 0 {
        operators := operators + [character];
        atoms := atoms + [""];
      } else {
        atoms := atoms[|atoms| - 1 := atoms[|atoms| - 1] + [character]];
      }
    }
    assert expression[..|expression|] == expression;
    AtomsFit(expression);

    result := AtomHolds(atoms[0], satisfied, |expression|);
    for n := 0 to |operators|
      invariant result == Fold(atoms, operators, n, satisfied)
    {
      var atom := AtomHolds(atoms[n + 1], satisfied, |expression|);
      if operators[n] == '+' {
        result := result && atom;
      } else {
        result := result || atom;
      }
    }
  }

  method AtomHolds(atom: string, satisfied: set<string>, ghost bound: nat) returns (result: bool)
    requires |atom| <= bound
    ensures result == AtomSatisfiable(atom, satisfied)
    decreases bound, 0
  {
    var a := Strip(atom);
    if a != [] && a[0] == '(' {
      result := DependsSatisfiable(Inner(a), satisfied);
    } else {
      result := a in satisfied;
    }
  }
}
