/** Triangular parts of a CSR matrix and the serial substitutions, over the reals. */
module TriangularSolve {
  import opened Csr
  import Rounding

  // ---- parts of a row ------------------------------------------------------------

  function Below(es: seq<Entry>, i: nat): seq<Entry> {
    if es == [] then [] else Below(es[..|es| - 1], i) + If(es[|es| - 1].col < i, es[|es| - 1])
  }

  function NotBelow(es: seq<Entry>, i: nat): seq<Entry> {
    if es == [] then [] else NotBelow(es[..|es| - 1], i) + If(es[|es| - 1].col >= i, es[|es| - 1])
  }

  function Above(es: seq<Entry>, i: nat): seq<Entry> { NotBelow(es, i + 1) }

  /** The diagonal value that the backward loop keeps: the last one stored. */
  function LastDiagonal(es: seq<Entry>, i: nat): real {
    if es == [] then 0.0 else if es[|es| - 1].col == i then es[|es| - 1].val else LastDiagonal(es[..|es| - 1], i)
  }

  function LowerUnitRow(es: seq<Entry>, i: nat): seq<Entry> { Below(es, i) + [Entry(i, 1.0)] }

  ghost function LowerRows(a: Matrix, k: nat): seq<seq<Entry>>
    requires Valid(a) && k <= a.nrows
  {
    seq(k, i requires 0 <= i < k => LowerUnitRow(Row(a, i), i))
  }

  ghost function UpperRows(a: Matrix, k: nat): seq<seq<Entry>>
    requires Valid(a) && k <= a.nrows
  {
    seq(k, i requires 0 <= i < k => NotBelow(Row(a, i), i))
  }

  lemma NextLower(a: Matrix, i: nat, before: Matrix, es: seq<Entry>, cols: seq<nat>, vals: seq<real>, after: Matrix)
    requires Valid(a) && i < a.nrows && before.nrows == i && before == FromRows(before.ncols, LowerRows(a, i))
    requires es == LowerUnitRow(Row(a, i), i) && cols == before.colIdx + Cols(es) && vals == before.vals + Vals(es)
    requires after == Matrix(i + 1, before.ncols, before.rowPtr + [|cols|], cols, vals)
    ensures after == FromRows(before.ncols, LowerRows(a, i + 1))
  {
    NextRow(before.ncols, LowerRows(a, i), LowerRows(a, i + 1), es, before);
  }

  lemma NextUpper(a: Matrix, i: nat, before: Matrix, es: seq<Entry>, cols: seq<nat>, vals: seq<real>, after: Matrix)
    requires Valid(a) && i < a.nrows && before.nrows == i && before == FromRows(before.ncols, UpperRows(a, i))
    requires es == NotBelow(Row(a, i), i) && cols == before.colIdx + Cols(es) && vals == before.vals + Vals(es)
    requires after == Matrix(i + 1, before.ncols, before.rowPtr + [|cols|], cols, vals)
    ensures after == FromRows(before.ncols, UpperRows(a, i + 1))
  {
    NextRow(before.ncols, UpperRows(a, i), UpperRows(a, i + 1), es, before);
  }

  lemma BelowStep(a: Matrix, i: nat, p: nat, e: Entry, part: seq<Entry>)
    requires Valid(a) && i < a.nrows && a.rowPtr[i] <= p < a.rowPtr[i + 1] && e == Entry(a.colIdx[p], a.vals[p])
    requires part == Below(RowTo(a, i, p), i)
    ensures Below(RowTo(a, i, p + 1), i) == part + If(e.col < i, e)
  {
    RowToGrows(a, i, p, e, RowTo(a, i, p), RowTo(a, i, p + 1));
    BelowLast(RowTo(a, i, p), e, i, RowTo(a, i, p + 1));
  }

  lemma BelowLast(es: seq<Entry>, e: Entry, i: nat, es': seq<Entry>)
    requires es' == es + [e]
    ensures Below(es', i) == Below(es, i) + If(e.col < i, e)
  {
    assert es'[..|es|] == es;
  }

  lemma NotBelowStep(a: Matrix, i: nat, p: nat, e: Entry, k: nat, part: seq<Entry>)
    requires Valid(a) && i < a.nrows && a.rowPtr[i] <= p < a.rowPtr[i + 1] && e == Entry(a.colIdx[p], a.vals[p])
    requires part == NotBelow(RowTo(a, i, p), k)
    ensures NotBelow(RowTo(a, i, p + 1), k) == part + If(e.col >= k, e)
  {
    RowToGrows(a, i, p, e, RowTo(a, i, p), RowTo(a, i, p + 1));
    NotBelowLast(RowTo(a, i, p), e, k, RowTo(a, i, p + 1));
  }

  lemma NotBelowLast(es: seq<Entry>, e: Entry, k: nat, es': seq<Entry>)
    requires es' == es + [e]
    ensures NotBelow(es', k) == NotBelow(es, k) + If(e.col >= k, e)
  {
    assert es'[..|es|] == es;
  }

  method PushBelow(a: Matrix, i: nat, cols: seq<nat>, vals: seq<real>) returns (cj: seq<nat>, vv: seq<real>)
    requires Valid(a) && i < a.nrows
    ensures cj == cols + Cols(Below(Row(a, i), i)) && vv == vals + Vals(Below(Row(a, i), i))
  {
    cj, vv := cols, vals;
    ghost var part: seq<Entry> := [];
    for p := a.rowPtr[i] to a.rowPtr[i + 1]
      invariant part == Below(RowTo(a, i, p), i)
      invariant cj == cols + Cols(part) && vv == vals + Vals(part)
    {
      var j := a.colIdx[p];
      BelowStep(a, i, p, Entry(j, a.vals[p]), part);
      PushedOne(cols, vals, part, j < i, Entry(j, a.vals[p]));
      part := part + If(j < i, Entry(j, a.vals[p]));
      if j < i { cj, vv := cj + [j], vv + [a.vals[p]]; }
    }
  }

  method PushLowerUnit(a: Matrix, i: nat, cols: seq<nat>, vals: seq<real>) returns (cj: seq<nat>, vv: seq<real>)
    requires Valid(a) && i < a.nrows
    ensures cj == cols + Cols(LowerUnitRow(Row(a, i), i)) && vv == vals + Vals(LowerUnitRow(Row(a, i), i))
  {
    cj, vv := PushBelow(a, i, cols, vals);
    PushedOne(cols, vals, Below(Row(a, i), i), true, Entry(i, 1.0));
    cj, vv := cj + [i], vv + [1.0];
  }

  method PushNotBelow(a: Matrix, i: nat, cols: seq<nat>, vals: seq<real>) returns (cj: seq<nat>, vv: seq<real>)
    requires Valid(a) && i < a.nrows
    ensures cj == cols + Cols(NotBelow(Row(a, i), i)) && vv == vals + Vals(NotBelow(Row(a, i), i))
  {
    cj, vv := cols, vals;
    ghost var part: seq<Entry> := [];
    for p := a.rowPtr[i] to a.rowPtr[i + 1]
      invariant part == NotBelow(RowTo(a, i, p), i)
      invariant cj == cols + Cols(part) && vv == vals + Vals(part)
    {
      var j := a.colIdx[p];
      NotBelowStep(a, i, p, Entry(j, a.vals[p]), i, part);
      PushedOne(cols, vals, part, j >= i, Entry(j, a.vals[p]));
      part := part + If(j >= i, Entry(j, a.vals[p]));
      if j >= i { cj, vv := cj + [j], vv + [a.vals[p]]; }
    }
  }

  method AppendLower(a: Matrix, i: nat, ghost n: nat, rp: seq<nat>, cj: seq<nat>, vv: seq<real>)
    returns (rp': seq<nat>, cj': seq<nat>, vv': seq<real>)
    requires Valid(a) && i < a.nrows && Matrix(i, n, rp, cj, vv) == FromRows(n, LowerRows(a, i))
    ensures Matrix(i + 1, n, rp', cj', vv') == FromRows(n, LowerRows(a, i + 1))
  {
    cj', vv' := PushLowerUnit(a, i, cj, vv);
    rp' := rp + [|cj'|];
    NextLower(a, i, Matrix(i, n, rp, cj, vv), LowerUnitRow(Row(a, i), i), cj', vv', Matrix(i + 1, n, rp', cj', vv'));
  }

  method ExtractLowerUnit(a: Matrix) returns (l: Matrix)
    requires Valid(a)
    ensures l == FromRows(a.nrows, LowerRows(a, a.nrows)) && l.nrows == a.nrows
  {
    var n := a.nrows;
    var rp: seq<nat>, cj: seq<nat>, vv: seq<real> := [0], [], [];
    for i := 0 to n
      invariant Matrix(i, n, rp, cj, vv) == FromRows(n, LowerRows(a, i))
    {
      rp, cj, vv := AppendLower(a, i, n, rp, cj, vv);
    }
    l := Matrix(n, n, rp, cj, vv);
  }

  method AppendUpper(a: Matrix, i: nat, ghost n: nat, rp: seq<nat>, cj: seq<nat>, vv: seq<real>)
    returns (rp': seq<nat>, cj': seq<nat>, vv': seq<real>)
    requires Valid(a) && i < a.nrows && Matrix(i, n, rp, cj, vv) == FromRows(n, UpperRows(a, i))
    ensures Matrix(i + 1, n, rp', cj', vv') == FromRows(n, UpperRows(a, i + 1))
  {
    cj', vv' := PushNotBelow(a, i, cj, vv);
    rp' := rp + [|cj'|];
    NextUpper(a, i, Matrix(i, n, rp, cj, vv), NotBelow(Row(a, i), i), cj', vv', Matrix(i + 1, n, rp', cj', vv'));
  }

  method ExtractUpper(a: Matrix) returns (u: Matrix)
    requires Valid(a)
    ensures u == FromRows(a.nrows, UpperRows(a, a.nrows)) && u.nrows == a.nrows
  {
    var n := a.nrows;
    var rp: seq<nat>, cj: seq<nat>, vv: seq<real> := [0], [], [];
    for i := 0 to n
      invariant Matrix(i, n, rp, cj, vv) == FromRows(n, UpperRows(a, i))
    {
      rp, cj, vv := AppendUpper(a, i, n, rp, cj, vv);
    }
    u := Matrix(n, n, rp, cj, vv);
  }

  // ---- what the parts stand for -----------------------------------------------------

  lemma {:induction false} PartsFit(es: seq<Entry>, n: nat, i: nat)
    requires Fit(n, es)
    ensures Fit(n, Below(es, i)) && Fit(n, NotBelow(es, i))
  {
    if es != [] { PartsFit(es[..|es| - 1], n, i); }
  }

  lemma {:induction false} PartValues(es: seq<Entry>, i: nat, j: nat)
    ensures ValueAt(Below(es, i), j) == if j < i then ValueAt(es, j) else 0.0
    ensures ValueAt(NotBelow(es, i), j) == if j >= i then ValueAt(es, j) else 0.0
  {
    if es != [] {
      var front, e := es[..|es| - 1], es[|es| - 1];
      PartValues(front, i, j);
      ValueOfLonger(Below(front, i), e.col < i, e, j);
      ValueOfLonger(NotBelow(front, i), e.col >= i, e, j);
    }
  }

  lemma FactorRows(a: Matrix, l: Matrix, u: Matrix)
    requires Valid(a) && a.nrows == a.ncols
    requires l == FromRows(a.nrows, LowerRows(a, a.nrows)) && u == FromRows(a.nrows, UpperRows(a, a.nrows))
    ensures HasRows(l, a.nrows, LowerRows(a, a.nrows)) && HasRows(u, a.nrows, UpperRows(a, a.nrows))
  {
    var n := a.nrows;
    forall i | 0 <= i < n ensures Fit(n, LowerRows(a, n)[i]) && Fit(n, UpperRows(a, n)[i]) {
      PartsFit(Row(a, i), n, i);
    }
    FromRowsHasRows(n, LowerRows(a, n), l);
    FromRowsHasRows(n, UpperRows(a, n), u);
  }

  /** L is unit lower triangular, U upper triangular, and dense(L) + dense(U) - I is dense(A):
      below the diagonal L carries A, on and above it U does. */
  lemma FactorsSplitTheMatrix(a: Matrix, l: Matrix, u: Matrix, i: nat, j: nat)
    requires Valid(a) && a.nrows == a.ncols && i < a.nrows && j < a.nrows
    requires l == FromRows(a.nrows, LowerRows(a, a.nrows)) && u == FromRows(a.nrows, UpperRows(a, a.nrows))
    ensures Valid(l) && Valid(u) && l.nrows == u.nrows == a.nrows
    ensures Dense(l, i, j) == if j < i then Dense(a, i, j) else if j == i then 1.0 else 0.0
    ensures Dense(u, i, j) == if j < i then 0.0 else Dense(a, i, j)
    ensures Dense(l, i, j) + Dense(u, i, j) - (if i == j then 1.0 else 0.0) == Dense(a, i, j)
  {
    FactorRows(a, l, u);
    PartValues(Row(a, i), i, j);
    assert If(true, Entry(i, 1.0)) == [Entry(i, 1.0)];
    ValueOfLonger(Below(Row(a, i), i), true, Entry(i, 1.0), j);
  }

  // ---- forward substitution ----------------------------------------------------------

  /** What the forward loop assigns to x[i]; it reads x below i only. */
  ghost function ForwardStep(mul: Mul, l: Matrix, b: seq<real>, x: seq<real>, i: nat): real
    requires Valid(l) && i < l.nrows
  {
    Get(b, i) - RowDotBy(mul, Below(Row(l, i), i), x)
  }

  /** The first n unknowns obey the step. */
  ghost predicate ForwardTo(mul: Mul, l: Matrix, b: seq<real>, x: seq<real>, n: nat)
    requires Valid(l) && n <= l.nrows <= |x|
  {
    forall i :: 0 <= i < n ==> x[i] == ForwardStep(mul, l, b, x, i)
  }

  lemma ForwardAgrees(mul: Mul, l: Matrix, b: seq<real>, x: seq<real>, y: seq<real>, k: nat)
    requires Valid(l) && k < l.nrows && forall i :: 0 <= i < k ==> Get(x, i) == Get(y, i)
    ensures ForwardStep(mul, l, b, x, k) == ForwardStep(mul, l, b, y, k)
  {
    BelowAgrees(mul, Row(l, k), k, x, y);
  }

  lemma ForwardOne(mul: Mul, l: Matrix, b: seq<real>, x: seq<real>, i: nat, v: real, y: seq<real>)
    requires Valid(l) && i < l.nrows <= |x| && ForwardTo(mul, l, b, x, i) && v == ForwardStep(mul, l, b, x, i)
    requires y == x[i := v]
    ensures ForwardTo(mul, l, b, y, i + 1)
  {
    forall k | 0 <= k <= i ensures y[k] == ForwardStep(mul, l, b, y, k) { ForwardAgrees(mul, l, b, x, y, k); }
  }

  /** Multiplication is a parameter of the code; the theorems below say what they need of it.
      False stands for the assertions on the lengths. */
  method ForwardUnitDiag(mul: Mul, l: Matrix, b: array<real>, x: array<real>) returns (ok: bool)
    requires Valid(l) && b != x
    modifies x
    ensures ok <==> b.Length == l.nrows && x.Length == l.nrows
    ensures !ok ==> x[..] == old(x[..])
    ensures ok ==> ForwardTo(mul, l, b[..], x[..], l.nrows)
  {
    if b.Length != l.nrows || x.Length != l.nrows { return false; }
    for i := 0 to l.nrows
      invariant ForwardTo(mul, l, b[..], x[..], i)
    {
      var sum := SumBelow(mul, l, x, i);
      ghost var y := x[..][i := b[i] - sum];
      ForwardOne(mul, l, b[..], x[..], i, b[i] - sum, y);
      x[i] := b[i] - sum;
      assert x[..] == y;
    }
    ok := true;
  }

  method SumBelow(mul: Mul, l: Matrix, x: array<real>, i: nat) returns (sum: real)
    requires Valid(l) && i < l.nrows == x.Length
    ensures sum == RowDotBy(mul, Below(Row(l, i), i), x[..])
  {
    sum := 0.0;
    ghost var xs := x[..];
    var lo, hi := l.rowPtr[i], l.rowPtr[i + 1];
    assert lo <= hi <= |l.colIdx|;
    for p := lo to hi
      invariant sum == RowDotBy(mul, Below(RowTo(l, i, p), i), xs)
    {
      var j, v := l.colIdx[p], l.vals[p];
      var next := if j < i then sum + mul(v, x[j]) else sum;
      SumBelowStep(mul, l, xs, i, p, j, v, sum, next);
      sum := next;
    }
  }

  lemma SumBelowStep(mul: Mul, l: Matrix, x: seq<real>, i: nat, p: nat, j: nat, v: real, sum: real, sum': real)
    requires Valid(l) && i < l.nrows && l.rowPtr[i] <= p < l.rowPtr[i + 1] && j == l.colIdx[p] && v == l.vals[p]
    requires sum == RowDotBy(mul, Below(RowTo(l, i, p), i), x)
    requires sum' == if j < i then sum + mul(v, Get(x, j)) else sum
    ensures sum' == RowDotBy(mul, Below(RowTo(l, i, p + 1), i), x)
  {
    var before, after := Below(RowTo(l, i, p), i), Below(RowTo(l, i, p + 1), i);
    BelowStep(l, i, p, Entry(j, v), before);
    RowDotOfLonger(mul, before, j < i, Entry(j, v), x, after);
  }

  lemma RowDotOfLonger(mul: Mul, es: seq<Entry>, b: bool, e: Entry, x: seq<real>, es': seq<Entry>)
    requires es' == es + If(b, e)
    ensures RowDotBy(mul, es', x) == RowDotBy(mul, es, x) + if b then mul(e.val, Get(x, e.col)) else 0.0
  {
    SumOfLonger(es, b, e, TimesBy(mul, x));
  }

  lemma {:induction false} SumAgrees(es: seq<Entry>, f: Entry -> real, g: Entry -> real)
    requires forall k :: 0 <= k < |es| ==> f(es[k]) == g(es[k])
    ensures SumOf(es, f) == SumOf(es, g)
  {
    if es != [] { SumAgrees(es[..|es| - 1], f, g); }
  }

  lemma {:induction false} PartCols(es: seq<Entry>, i: nat)
    ensures forall k :: 0 <= k < |Below(es, i)| ==> Below(es, i)[k].col < i
    ensures forall k :: 0 <= k < |NotBelow(es, i)| ==> NotBelow(es, i)[k].col >= i
  {
    if es != [] { PartCols(es[..|es| - 1], i); }
  }

  lemma BelowAgrees(mul: Mul, es: seq<Entry>, i: nat, x: seq<real>, y: seq<real>)
    requires forall k :: 0 <= k < i ==> Get(x, k) == Get(y, k)
    ensures RowDotBy(mul, Below(es, i), x) == RowDotBy(mul, Below(es, i), y)
  {
    PartCols(es, i);
    SumAgrees(Below(es, i), TimesBy(mul, x), TimesBy(mul, y));
  }

  // ---- backward substitution ---------------------------------------------------------

  const TINY: real := 0.00000000000001

  /** What the backward loop assigns to x[i]; it reads x above i only. */
  ghost function BackwardStep(mul: Mul, div: Mul, u: Matrix, b: seq<real>, x: seq<real>, i: nat): real
    requires Valid(u) && i < u.nrows
  {
    var diag := LastDiagonal(Row(u, i), i);
    if Rounding.Abs(diag) > TINY then div(Get(b, i) - RowDotBy(mul, Above(Row(u, i), i), x), diag) else 0.0
  }

  /** The unknowns from n on obey the step. */
  ghost predicate BackwardFrom(mul: Mul, div: Mul, u: Matrix, b: seq<real>, x: seq<real>, n: nat)
    requires Valid(u) && |x| == u.nrows
  {
    forall i :: n <= i < u.nrows ==> x[i] == BackwardStep(mul, div, u, b, x, i)
  }

  lemma BackwardAgrees(mul: Mul, div: Mul, u: Matrix, b: seq<real>, x: seq<real>, y: seq<real>, k: nat)
    requires Valid(u) && k < u.nrows && forall i :: i > k ==> Get(x, i) == Get(y, i)
    ensures BackwardStep(mul, div, u, b, x, k) == BackwardStep(mul, div, u, b, y, k)
  {
    AboveAgrees(mul, Row(u, k), k, x, y);
  }

  lemma BackwardOne(mul: Mul, div: Mul, u: Matrix, b: seq<real>, x: seq<real>, i: nat, v: real, y: seq<real>)
    requires Valid(u) && i < u.nrows == |x| && BackwardFrom(mul, div, u, b, x, i + 1)
    requires v == BackwardStep(mul, div, u, b, x, i)
    requires y == x[i := v]
    ensures BackwardFrom(mul, div, u, b, y, i)
  {
    forall k | i <= k < u.nrows ensures y[k] == BackwardStep(mul, div, u, b, y, k) {
      BackwardAgrees(mul, div, u, b, x, y, k);
    }
  }

  /** Every stored column is a row number, so that the loop stays inside x. */
  ghost predicate StaysInside(u: Matrix) { forall t :: 0 <= t < |u.colIdx| ==> u.colIdx[t] < u.nrows }

  method Backward(mul: Mul, div: Mul, u: Matrix, b: array<real>, x: array<real>) returns (ok: bool)
    requires Valid(u) && StaysInside(u) && b != x
    modifies x
    ensures ok <==> b.Length == u.nrows && x.Length == u.nrows
    ensures !ok ==> x[..] == old(x[..])
    ensures ok ==> BackwardFrom(mul, div, u, b[..], x[..], 0)
  {
    if b.Length != u.nrows || x.Length != u.nrows { return false; }
    for i := u.nrows downto 0
      invariant BackwardFrom(mul, div, u, b[..], x[..], i)
    {
      var sum, diag := SumAbove(mul, u, x, i);
      var v := if Rounding.Abs(diag) > TINY then div(b[i] - sum, diag) else 0.0;
      ghost var y := x[..][i := v];
      BackwardOne(mul, div, u, b[..], x[..], i, v, y);
      x[i] := v;
      assert x[..] == y;
    }
    ok := true;
  }

  method SumAbove(mul: Mul, u: Matrix, x: array<real>, i: nat) returns (sum: real, diag: real)
    requires Valid(u) && StaysInside(u) && i < u.nrows == x.Length
    ensures sum == RowDotBy(mul, Above(Row(u, i), i), x[..]) && diag == LastDiagonal(Row(u, i), i)
  {
    sum, diag := 0.0, 0.0;
    ghost var xs := x[..];
    for p := u.rowPtr[i] to u.rowPtr[i + 1]
      invariant sum == RowDotBy(mul, Above(RowTo(u, i, p), i), xs)
      invariant diag == LastDiagonal(RowTo(u, i, p), i)
    {
      var j, v := u.colIdx[p], u.vals[p];
      SumAboveStep(mul, u, xs, i, p, j, v);
      if j == i { diag := v; } else if j > i { sum := sum + mul(v, x[j]); }
    }
  }

  lemma SumAboveStep(mul: Mul, u: Matrix, x: seq<real>, i: nat, p: nat, j: nat, v: real)
    requires Valid(u) && i < u.nrows && u.rowPtr[i] <= p < u.rowPtr[i + 1] && j == u.colIdx[p] && v == u.vals[p]
    ensures RowDotBy(mul, Above(RowTo(u, i, p + 1), i), x) ==
      RowDotBy(mul, Above(RowTo(u, i, p), i), x) + if j > i then mul(v, Get(x, j)) else 0.0
    ensures LastDiagonal(RowTo(u, i, p + 1), i) == if j == i then v else LastDiagonal(RowTo(u, i, p), i)
  {
    var before, after := RowTo(u, i, p), RowTo(u, i, p + 1);
    NotBelowStep(u, i, p, Entry(j, v), i + 1, Above(before, i));
    RowDotOfLonger(mul, Above(before, i), j > i, Entry(j, v), x, Above(after, i));
    RowToGrows(u, i, p, Entry(j, v), before, after);
    DiagonalOfLonger(before, Entry(j, v), i, after);
  }

  lemma DiagonalOfLonger(es: seq<Entry>, e: Entry, i: nat, es': seq<Entry>)
    requires es' == es + [e]
    ensures LastDiagonal(es', i) == if e.col == i then e.val else LastDiagonal(es, i)
  {
    assert es'[..|es|] == es;
  }

  lemma AboveAgrees(mul: Mul, es: seq<Entry>, i: nat, x: seq<real>, y: seq<real>)
    requires forall k :: k > i ==> Get(x, k) == Get(y, k)
    ensures RowDotBy(mul, Above(es, i), x) == RowDotBy(mul, Above(es, i), y)
  {
    PartCols(es, i + 1);
    SumAgrees(Above(es, i), TimesBy(mul, x), TimesBy(mul, y));
  }

  // ---- the substitutions solve their systems --------------------------------------------

  /** Every entry off column i. */
  function Off(es: seq<Entry>, i: nat): seq<Entry> {
    if es == [] then [] else Off(es[..|es| - 1], i) + If(es[|es| - 1].col != i, es[|es| - 1])
  }

  lemma {:induction false} OffIsPart(es: seq<Entry>, i: nat)
    ensures (forall k :: 0 <= k < |es| ==> es[k].col <= i) ==> Off(es, i) == Below(es, i)
    ensures (forall k :: 0 <= k < |es| ==> es[k].col >= i) ==> Off(es, i) == Above(es, i)
  {
    if es != [] { OffIsPart(es[..|es| - 1], i); }
  }

  lemma TimesSum(mul: Mul, a: real, b: real, x: real)
    requires Lawful(mul)
    ensures mul(a + b, x) == mul(a, x) + mul(b, x) && mul(0.0, x) == 0.0
  {
    assert CommutesAt(mul, a + b, 0.0, x) && CommutesAt(mul, a, 0.0, x) && CommutesAt(mul, b, 0.0, x);
    assert DistributesAt(mul, x, a, b) && CommutesAt(mul, 0.0, 0.0, x) && ZeroAt(mul, x);
  }

  /** A row times x, with the diagonal apart. */
  lemma {:induction false} DiagonalApart(mul: Mul, es: seq<Entry>, i: nat, x: seq<real>, off: real)
    requires Lawful(mul) && off == RowDotBy(mul, Off(es, i), x)
    ensures RowDotBy(mul, es, x) == off + mul(ValueAt(es, i), Get(x, i))
  {
    if es == [] {
      TimesSum(mul, 0.0, 0.0, Get(x, i));
    } else {
      var front, e := es[..|es| - 1], es[|es| - 1];
      var offFront := RowDotBy(mul, Off(front, i), x);
      DiagonalApart(mul, front, i, x, offFront);
      if e.col == i {
        assert Off(es, i) == Off(front, i);
        TimesSum(mul, ValueAt(front, i), e.val, Get(x, i));
      } else {
        RowDotOfLonger(mul, Off(front, i), true, e, x, Off(es, i));
      }
    }
  }

  predicate UnitLowerRow(es: seq<Entry>, i: nat) {
    ValueAt(es, i) == 1.0 && forall k :: 0 <= k < |es| ==> es[k].col <= i
  }

  /** Nothing below the diagonal, and the diagonal not stored twice. */
  predicate UpperRow(es: seq<Entry>, i: nat) {
    ValueAt(es, i) == LastDiagonal(es, i) && forall k :: 0 <= k < |es| ==> es[k].col >= i
  }

  ghost predicate UnitLower(l: Matrix)
    requires Valid(l)
  {
    forall i :: 0 <= i < l.nrows ==> UnitLowerRow(Row(l, i), i)
  }

  ghost predicate Upper(u: Matrix)
    requires Valid(u)
  {
    forall i :: 0 <= i < u.nrows ==> UpperRow(Row(u, i), i)
  }

  ghost predicate UnitAt(mul: Mul, a: real) { mul(1.0, a) == a }

  ghost predicate DividesAt(mul: Mul, div: Mul, a: real, d: real, q: real) {
    Rounding.Abs(d) > TINY ==> (mul(d, q) == a <==> q == div(a, d))
  }

  /** The row equation says that x[i] is what the loop assigns. */
  lemma ForwardRow(mul: Mul, l: Matrix, b: seq<real>, x: seq<real>, i: nat)
    requires Lawful(mul) && Valid(l) && UnitLower(l) && i < l.nrows == |b| == |x| && UnitAt(mul, x[i])
    ensures RowDotBy(mul, Row(l, i), x) == b[i] <==> x[i] == ForwardStep(mul, l, b, x, i)
  {
    OffIsPart(Row(l, i), i);
    DiagonalApart(mul, Row(l, i), i, x, RowDotBy(mul, Off(Row(l, i), i), x));
  }

  lemma {:induction false} ForwardIsUnique(mul: Mul, l: Matrix, b: seq<real>, x: seq<real>, y: seq<real>, n: nat)
    requires Valid(l) && n <= l.nrows == |x| == |y| && ForwardTo(mul, l, b, x, l.nrows)
    requires ForwardTo(mul, l, b, y, l.nrows)
    ensures forall k :: 0 <= k < n ==> x[k] == y[k]
  {
    if n > 0 {
      ForwardIsUnique(mul, l, b, x, y, n - 1);
      ForwardAgrees(mul, l, b, x, y, n - 1);
    }
  }

  /** The row equation, for diagonal d and `rest` off the diagonal. */
  lemma BackwardRow(mul: Mul, div: Mul, es: seq<Entry>, i: nat, b: real, x: seq<real>, d: real, rest: real)
    requires Lawful(mul) && UpperRow(es, i) && d == LastDiagonal(es, i) && rest == RowDotBy(mul, Above(es, i), x)
    requires DividesAt(mul, div, b - rest, d, Get(x, i))
    ensures Rounding.Abs(d) > TINY ==> (RowDotBy(mul, es, x) == b <==> Get(x, i) == div(b - rest, d))
    ensures Get(x, i) == 0.0 ==> RowDotBy(mul, es, x) == rest
  {
    OffIsPart(es, i);
    DiagonalApart(mul, es, i, x, rest);
    assert ZeroAt(mul, d);
  }

  lemma {:induction false} BackwardIsUnique(mul: Mul, div: Mul, u: Matrix, b: seq<real>, x: seq<real>, y: seq<real>,
                                            n: nat)
    requires Valid(u) && n <= u.nrows == |x| == |y| && BackwardFrom(mul, div, u, b, x, 0)
    requires BackwardFrom(mul, div, u, b, y, 0)
    ensures forall k :: n <= k < u.nrows ==> x[k] == y[k]
    decreases u.nrows - n
  {
    if n < u.nrows {
      BackwardIsUnique(mul, div, u, b, x, y, n + 1);
      BackwardAgrees(mul, div, u, b, x, y, n);
    }
  }

  function RealDiv(): Mul { (a: real, d: real) => if d == 0.0 then 0.0 else a / d }

  lemma RealsDivide(a: real, d: real, q: real)
    ensures DividesAt(RealMul(), RealDiv(), a, d, q)
  {
    if d != 0.0 && d * q == a { assert q == a / d; }
  }

  /** Over the reals, forward substitution on a unit lower matrix gives the one solution of L x = b. */
  lemma ForwardSolves(l: Matrix, b: seq<real>, x: seq<real>)
    requires Valid(l) && UnitLower(l) && l.nrows == |b| == |x| && ForwardTo(RealMul(), l, b, x, l.nrows)
    ensures Product(l, x) == b
    ensures forall y: seq<real> :: |y| == l.nrows && Product(l, y) == b ==> y == x
  {
    RealMulIsLawful();
    ProductByIsProduct(l, x);
    forall i | 0 <= i < l.nrows ensures Product(l, x)[i] == b[i] { ForwardRow(RealMul(), l, b, x, i); }
    forall y: seq<real> | |y| == l.nrows && Product(l, y) == b ensures y == x {
      ProductByIsProduct(l, y);
      forall i | 0 <= i < l.nrows ensures y[i] == ForwardStep(RealMul(), l, b, y, i) {
        assert Product(l, y)[i] == b[i];
        ForwardRow(RealMul(), l, b, y, i);
      }
      ForwardIsUnique(RealMul(), l, b, x, y, l.nrows);
    }
  }

  /** A diagonal entry that backward substitution divides by: more than 1e-14 in magnitude. */
  predicate IsPivot(d: real) { d > 0.00000000000001 || d < -0.00000000000001 }

  ghost predicate Pivots(u: Matrix)
    requires Valid(u)
  {
    forall i :: 0 <= i < u.nrows ==> IsPivot(LastDiagonal(Row(u, i), i))
  }

  /** What one result satisfies: row i, if the diagonal exceeds 1e-14; otherwise x[i] is zero and the row
      holds only if the rest of it meets b[i] by itself. */
  lemma BackwardMeetsRow(u: Matrix, b: seq<real>, x: seq<real>, i: nat)
    requires Valid(u) && Upper(u) && i < u.nrows == |b| == |x| && BackwardFrom(RealMul(), RealDiv(), u, b, x, 0)
    ensures Product(u, x)[i] == b[i] <==>
      IsPivot(LastDiagonal(Row(u, i), i)) || RowDot(Above(Row(u, i), i), x) == b[i]
    ensures !IsPivot(LastDiagonal(Row(u, i), i)) ==> x[i] == 0.0
  {
    RealRow(u, b, x, i);
  }

  lemma RealRow(u: Matrix, b: seq<real>, y: seq<real>, i: nat)
    requires Valid(u) && Upper(u) && i < u.nrows == |b| == |y|
    ensures Rounding.Abs(LastDiagonal(Row(u, i), i)) > TINY ==>
      (Product(u, y)[i] == b[i] <==> y[i] == BackwardStep(RealMul(), RealDiv(), u, b, y, i))
    ensures y[i] == 0.0 ==> Product(u, y)[i] == RowDot(Above(Row(u, i), i), y)
  {
    var es, d := Row(u, i), LastDiagonal(Row(u, i), i);
    var rest := RowDotBy(RealMul(), Above(es, i), y);
    RealMulIsLawful();
    RowDotByIsRowDot(es, y);
    RowDotByIsRowDot(Above(es, i), y);
    RealsDivide(b[i] - rest, d, y[i]);
    BackwardRow(RealMul(), RealDiv(), es, i, b[i], y, d, rest);
  }

  /** If every diagonal exceeds the threshold, it is the one solution of U x = b. */
  lemma BackwardSolves(u: Matrix, b: seq<real>, x: seq<real>)
    requires Valid(u) && Upper(u) && Pivots(u) && u.nrows == |b| == |x|
    requires BackwardFrom(RealMul(), RealDiv(), u, b, x, 0)
    ensures Product(u, x) == b
    ensures forall y: seq<real> :: |y| == u.nrows && Product(u, y) == b ==> y == x
  {
    forall i | 0 <= i < u.nrows ensures Product(u, x)[i] == b[i] { BackwardMeetsRow(u, b, x, i); }
    forall y: seq<real> | |y| == u.nrows && Product(u, y) == b ensures y == x {
      forall i | 0 <= i < u.nrows ensures y[i] == BackwardStep(RealMul(), RealDiv(), u, b, y, i) {
        assert Product(u, y)[i] == b[i];
        RealRow(u, b, y, i);
      }
      BackwardIsUnique(RealMul(), RealDiv(), u, b, x, y, 0);
    }
  }

  // ---- exactly when backward substitution solves -----------------------------------------

  lemma BackwardRuns(mul: Mul, div: Mul, u: Matrix, b: seq<real>, n: nat) returns (x: seq<real>)
    requires Valid(u) && n <= u.nrows
    ensures |x| == u.nrows && BackwardFrom(mul, div, u, b, x, n)
    decreases u.nrows - n
  {
    if n == u.nrows {
      x := seq(n, _ => 0.0);
    } else {
      var y := BackwardRuns(mul, div, u, b, n + 1);
      x := y[n := BackwardStep(mul, div, u, b, y, n)];
      BackwardOne(mul, div, u, b, y, n, x[n], x);
    }
  }

  lemma {:induction false} ZeroSum(mul: Mul, es: seq<Entry>, x: seq<real>)
    requires Lawful(mul) && forall k :: 0 <= k < |es| ==> Get(x, es[k].col) == 0.0
    ensures RowDotBy(mul, es, x) == 0.0
  {
    if es != [] {
      ZeroSum(mul, es[..|es| - 1], x);
      assert ZeroAt(mul, es[|es| - 1].val);
    }
  }

  /** Above the last nonzero of b, backward substitution gives zeros. */
  lemma {:induction false} ZeroAbove(u: Matrix, b: seq<real>, x: seq<real>, n: nat)
    requires Valid(u) && n <= u.nrows == |x| && BackwardFrom(RealMul(), RealDiv(), u, b, x, 0)
    requires forall k :: n <= k < |b| ==> b[k] == 0.0
    ensures forall k :: n <= k < u.nrows ==> x[k] == 0.0
    decreases u.nrows - n
  {
    if n < u.nrows {
      ZeroAbove(u, b, x, n + 1);
      PartCols(Row(u, n), n + 1);
      RealMulIsLawful();
      ZeroSum(RealMul(), Above(Row(u, n), n), x);
      assert x[n] == BackwardStep(RealMul(), RealDiv(), u, b, x, n);
    }
  }

  function UnitVector(n: nat, i: nat): seq<real> { seq(n, k => if k == i then 1.0 else 0.0) }

  /** A diagonal entry within the threshold, for which row i of U x = b is missed: b is the i-th unit vector. */
  lemma SmallDiagonalFails(u: Matrix, i: nat) returns (b: seq<real>, x: seq<real>)
    requires Valid(u) && Upper(u) && i < u.nrows && !IsPivot(LastDiagonal(Row(u, i), i))
    ensures b == UnitVector(u.nrows, i) && |x| == u.nrows && BackwardFrom(RealMul(), RealDiv(), u, b, x, 0)
    ensures Product(u, x)[i] == 0.0 != b[i]
  {
    b := UnitVector(u.nrows, i);
    x := BackwardRuns(RealMul(), RealDiv(), u, b, 0);
    ZeroAbove(u, b, x, i + 1);
    PartCols(Row(u, i), i + 1);
    RealMulIsLawful();
    ZeroSum(RealMul(), Above(Row(u, i), i), x);
    RowDotByIsRowDot(Above(Row(u, i), i), x);
    assert x[i] == BackwardStep(RealMul(), RealDiv(), u, b, x, i);
    RealRow(u, b, x, i);
  }

  /** Row i is satisfied for every right-hand side exactly when its diagonal exceeds the threshold. */
  lemma BackwardSolvesRowIff(u: Matrix, i: nat)
    requires Valid(u) && Upper(u) && i < u.nrows
    ensures
      (forall b, x :: |b| == |x| == u.nrows && BackwardFrom(RealMul(), RealDiv(), u, b, x, 0) ==>
        Product(u, x)[i] == b[i]) <==>
      IsPivot(LastDiagonal(Row(u, i), i))
  {
    if IsPivot(LastDiagonal(Row(u, i), i)) {
      forall b: seq<real>, x: seq<real> | |b| == |x| == u.nrows && BackwardFrom(RealMul(), RealDiv(), u, b, x, 0)
        ensures Product(u, x)[i] == b[i]
      {
        BackwardMeetsRow(u, b, x, i);
      }
    } else {
      var b, x := SmallDiagonalFails(u, i);
    }
  }

  /** Backward substitution solves U x = b for every right-hand side exactly when every diagonal exceeds
      the threshold. */
  lemma BackwardSolvesIffPivots(u: Matrix)
    requires Valid(u) && Upper(u)
    ensures
      (forall b, x :: |b| == |x| == u.nrows && BackwardFrom(RealMul(), RealDiv(), u, b, x, 0) ==>
        Product(u, x) == b) <==>
      Pivots(u)
  {
    if Pivots(u) {
      forall b: seq<real>, x: seq<real> | |b| == |x| == u.nrows && BackwardFrom(RealMul(), RealDiv(), u, b, x, 0)
        ensures Product(u, x) == b
      {
        BackwardSolves(u, b, x);
      }
    } else {
      var i :| 0 <= i < u.nrows && !IsPivot(LastDiagonal(Row(u, i), i));
      var b, x := SmallDiagonalFails(u, i);
    }
  }

  lemma FactorRow(es: seq<Entry>, i: nat, lower: seq<Entry>, upper: seq<Entry>)
    requires lower == LowerUnitRow(es, i) && upper == NotBelow(es, i)
    ensures UnitLowerRow(lower, i)
    ensures ValueAt(es, i) == LastDiagonal(es, i) ==> UpperRow(upper, i)
    ensures LastDiagonal(upper, i) == LastDiagonal(es, i)
  {
    PartValues(es, i, i);
    PartCols(es, i);
    SameDiagonal(es, i);
    ValueOfLonger(Below(es, i), true, Entry(i, 1.0), i);
    assert If(true, Entry(i, 1.0)) == [Entry(i, 1.0)];
  }

  lemma {:induction false} SameDiagonal(es: seq<Entry>, i: nat)
    ensures LastDiagonal(NotBelow(es, i), i) == LastDiagonal(es, i)
  {
    if es != [] {
      var front, e := es[..|es| - 1], es[|es| - 1];
      SameDiagonal(front, i);
      if e.col >= i {
        DiagonalOfLonger(NotBelow(front, i), e, i, NotBelow(es, i));
      } else {
        assert NotBelow(es, i) == NotBelow(front, i);
      }
    }
  }

  /** The extracted factors meet the conditions of the solves if no row stores its diagonal twice. */
  lemma FactorsAreTriangular(a: Matrix, l: Matrix, u: Matrix)
    requires Valid(a) && a.nrows == a.ncols
    requires l == FromRows(a.nrows, LowerRows(a, a.nrows)) && u == FromRows(a.nrows, UpperRows(a, a.nrows))
    requires forall i :: 0 <= i < a.nrows ==> ValueAt(Row(a, i), i) == LastDiagonal(Row(a, i), i)
    ensures Valid(l) && UnitLower(l) && Valid(u) && Upper(u)
    ensures Pivots(u) <==> forall i :: 0 <= i < a.nrows ==> IsPivot(LastDiagonal(Row(a, i), i))
  {
    FactorRows(a, l, u);
    forall i | 0 <= i < a.nrows
      ensures UnitLowerRow(Row(l, i), i) && UpperRow(Row(u, i), i)
      ensures LastDiagonal(Row(u, i), i) == LastDiagonal(Row(a, i), i)
    {
      FactorRow(Row(a, i), i, Row(l, i), Row(u, i));
    }
  }
}
