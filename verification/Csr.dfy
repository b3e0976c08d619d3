/** Compressed sparse rows, read as lists of entries per row and as a dense matrix. */
module Csr {
  datatype Matrix = Matrix(nrows: nat, ncols: nat, rowPtr: seq<nat>, colIdx: seq<nat>, vals: seq<real>)

  datatype Entry = Entry(col: nat, val: real)

  ghost predicate Monotone(ptr: seq<nat>) { forall i, k :: 0 <= i <= k < |ptr| ==> ptr[i] <= ptr[k] }

  ghost predicate Valid(m: Matrix) {
    && |m.rowPtr| == m.nrows + 1 && m.rowPtr[0] == 0 && Monotone(m.rowPtr)
    && m.rowPtr[m.nrows] == |m.colIdx| == |m.vals|
    && forall t :: 0 <= t < |m.colIdx| ==> m.colIdx[t] < m.ncols
  }

  /** The entries at positions lo to hi. */
  function Entries(cols: seq<nat>, vals: seq<real>, lo: nat, hi: nat): seq<Entry>
    requires lo <= hi <= |cols| == |vals|
  {
    seq(hi - lo, k requires 0 <= k < hi - lo => Entry(cols[lo + k], vals[lo + k]))
  }

  function Row(m: Matrix, i: nat): seq<Entry>
    requires i + 1 < |m.rowPtr| && m.rowPtr[i] <= m.rowPtr[i + 1] <= |m.colIdx| == |m.vals|
  {
    Entries(m.colIdx, m.vals, m.rowPtr[i], m.rowPtr[i + 1])
  }

  /** The value a row stands for at column j: entries of one column add up. */
  function ValueAt(es: seq<Entry>, j: nat): real {
    if es == [] then 0.0
    else ValueAt(es[..|es| - 1], j) + if es[|es| - 1].col == j then es[|es| - 1].val else 0.0
  }

  ghost function Dense(m: Matrix, i: nat, j: nat): real
    requires Valid(m) && i < m.nrows
  {
    ValueAt(Row(m, i), j)
  }

  function Get(x: seq<real>, k: nat): real { if k < |x| then x[k] else 0.0 }

  /** The sum over the entries of a row. */
  function SumOf(es: seq<Entry>, f: Entry -> real): real {
    if es == [] then 0.0 else SumOf(es[..|es| - 1], f) + f(es[|es| - 1])
  }

  function Times(x: seq<real>): Entry -> real { (e: Entry) => e.val * Get(x, e.col) }

  /** A row times a vector. */
  function RowDot(es: seq<Entry>, x: seq<real>): real { SumOf(es, Times(x)) }

  ghost function Product(m: Matrix, x: seq<real>): seq<real>
    requires Valid(m)
  {
    seq(m.nrows, i requires 0 <= i < m.nrows => RowDot(Row(m, i), x))
  }

  function Dot(x: seq<real>, y: seq<real>): real
    requires |x| == |y|
  {
    if x == [] then 0.0 else Dot(x[..|x| - 1], y[..|y| - 1]) + x[|x| - 1] * y[|y| - 1]
  }

  predicate Sorted(es: seq<Entry>) { forall a, b :: 0 <= a < b < |es| ==> es[a].col <= es[b].col }

  predicate StrictlySorted(es: seq<Entry>) { forall a, b :: 0 <= a < b < |es| ==> es[a].col < es[b].col }

  ghost predicate RowsSorted(m: Matrix)
    requires Valid(m)
  {
    forall i :: 0 <= i < m.nrows ==> Sorted(Row(m, i))
  }

  ghost predicate RowsStrictlySorted(m: Matrix)
    requires Valid(m)
  {
    forall i :: 0 <= i < m.nrows ==> StrictlySorted(Row(m, i))
  }

  // ---- the nonzeros in storage order -------------------------------------------

  datatype Nonzero = Nonzero(row: nat, col: nat, val: real)

  function InRow(i: nat, es: seq<Entry>): seq<Nonzero> {
    seq(|es|, k requires 0 <= k < |es| => Nonzero(i, es[k].col, es[k].val))
  }

  /** The nonzeros of the first k rows. */
  ghost function Nonzeros(m: Matrix, k: nat): (s: seq<Nonzero>)
    requires Valid(m) && k <= m.nrows
    ensures |s| == m.rowPtr[k]
    ensures forall t :: 0 <= t < |s| ==> s[t].row < k && s[t].col == m.colIdx[t] && s[t].val == m.vals[t]
  {
    if k == 0 then [] else Nonzeros(m, k - 1) + InRow(k - 1, Row(m, k - 1))
  }

  ghost function All(m: Matrix): seq<Nonzero>
    requires Valid(m)
  {
    Nonzeros(m, m.nrows)
  }

  lemma {:induction false} NonzerosPrefix(m: Matrix, k: nat)
    requires Valid(m) && k <= m.nrows
    ensures Nonzeros(m, k) == All(m)[..m.rowPtr[k]]
    decreases m.nrows - k
  {
    if k < m.nrows { NonzerosPrefix(m, k + 1); }
  }

  lemma NonzeroAt(m: Matrix, i: nat, t: nat)
    requires Valid(m) && i < m.nrows && m.rowPtr[i] <= t < m.rowPtr[i + 1]
    ensures All(m)[t] == Nonzero(i, m.colIdx[t], m.vals[t])
  {
    NonzerosPrefix(m, i + 1);
    assert Nonzeros(m, i + 1)[t] == InRow(i, Row(m, i))[t - m.rowPtr[i]];
  }

  /** The entries of row i among nonzeros, in their order. */
  function RowPart(s: seq<Nonzero>, i: nat): seq<Entry> {
    if s == [] then []
    else RowPart(s[..|s| - 1], i) + if s[|s| - 1].row == i then [Entry(s[|s| - 1].col, s[|s| - 1].val)] else []
  }

  /** The entries of column j among nonzeros, in their order; an entry names its row. */
  function ColPart(s: seq<Nonzero>, j: nat): seq<Entry> {
    if s == [] then []
    else ColPart(s[..|s| - 1], j) + if s[|s| - 1].col == j then [Entry(s[|s| - 1].row, s[|s| - 1].val)] else []
  }

  lemma {:induction false} RowPartConcat(a: seq<Nonzero>, b: seq<Nonzero>, i: nat)
    ensures RowPart(a + b, i) == RowPart(a, i) + RowPart(b, i)
  {
    if b == [] {
      assert a + b == a;
    } else {
      assert (a + b)[..|a + b| - 1] == a + b[..|b| - 1];
      RowPartConcat(a, b[..|b| - 1], i);
    }
  }

  lemma {:induction false} RowPartOfRow(i: nat, es: seq<Entry>, k: nat)
    ensures RowPart(InRow(i, es), k) == if i == k then es else []
  {
    if es != [] {
      assert InRow(i, es)[..|es| - 1] == InRow(i, es[..|es| - 1]);
      RowPartOfRow(i, es[..|es| - 1], k);
    }
  }

  lemma AppendRow(s: seq<Nonzero>, r: nat, es: seq<Entry>, i: nat, before: seq<Entry>, after: seq<Entry>)
    requires before == RowPart(s, i) && after == RowPart(s + InRow(r, es), i)
    ensures after == before + if r == i then es else []
  {
    RowPartConcat(s, InRow(r, es), i);
    RowPartOfRow(r, es, i);
  }

  lemma {:induction false} RowPartOfRows(m: Matrix, k: nat, i: nat, part: seq<Entry>)
    requires Valid(m) && k <= m.nrows && i < m.nrows && part == RowPart(Nonzeros(m, k), i)
    ensures part == if i < k then Row(m, i) else []
  {
    if k > 0 {
      var before := RowPart(Nonzeros(m, k - 1), i);
      RowPartOfRows(m, k - 1, i, before);
      AppendRow(Nonzeros(m, k - 1), k - 1, Row(m, k - 1), i, before, part);
    }
  }

  /** Two valid matrices of one shape with the same rows are the same arrays. */
  lemma SameRows(a: Matrix, b: Matrix)
    requires Valid(a) && Valid(b) && a.nrows == b.nrows && a.ncols == b.ncols
    requires forall i :: 0 <= i < a.nrows ==> Row(a, i) == Row(b, i)
    ensures a == b
  {
    SameRowPtr(a, b, a.nrows);
    SameNonzeros(a, b, a.nrows);
    assert |a.colIdx| == |b.colIdx|;
    forall t | 0 <= t < |a.colIdx| ensures a.colIdx[t] == b.colIdx[t] && a.vals[t] == b.vals[t] {
      assert All(a)[t] == All(b)[t];
    }
    assert a.rowPtr == b.rowPtr && a.colIdx == b.colIdx && a.vals == b.vals;
  }

  lemma {:induction false} SameRowPtr(a: Matrix, b: Matrix, k: nat)
    requires Valid(a) && Valid(b) && a.nrows == b.nrows && k <= a.nrows
    requires forall i :: 0 <= i < a.nrows ==> Row(a, i) == Row(b, i)
    ensures a.rowPtr[..k + 1] == b.rowPtr[..k + 1]
  {
    if k > 0 {
      SameRowPtr(a, b, k - 1);
      assert |Row(a, k - 1)| == |Row(b, k - 1)|;
      assert a.rowPtr[k - 1] == a.rowPtr[..k][k - 1] == b.rowPtr[..k][k - 1];
      assert a.rowPtr[..k + 1] == a.rowPtr[..k] + [a.rowPtr[k]] && b.rowPtr[..k + 1] == b.rowPtr[..k] + [b.rowPtr[k]];
    }
  }

  lemma {:induction false} SameNonzeros(a: Matrix, b: Matrix, k: nat)
    requires Valid(a) && Valid(b) && a.nrows == b.nrows && k <= a.nrows
    requires forall i :: 0 <= i < a.nrows ==> Row(a, i) == Row(b, i)
    ensures Nonzeros(a, k) == Nonzeros(b, k)
  {
    if k > 0 { SameNonzeros(a, b, k - 1); }
  }

  // ---- one entry more --------------------------------------------------------------

  function If<T>(b: bool, t: T): seq<T> { if b then [t] else [] }

  lemma ValueOfLonger(es: seq<Entry>, b: bool, e: Entry, j: nat)
    ensures ValueAt(es + If(b, e), j) == ValueAt(es, j) + if b && e.col == j then e.val else 0.0
  {
    if b { assert (es + [e])[..|es|] == es; } else { assert es + [] == es; }
  }

  lemma SumOfLonger(es: seq<Entry>, b: bool, e: Entry, f: Entry -> real)
    ensures SumOf(es + If(b, e), f) == SumOf(es, f) + if b then f(e) else 0.0
  {
    if b { assert (es + [e])[..|es|] == es; } else { assert es + [] == es; }
  }

  // ---- building row by row -------------------------------------------------------

  function Cols(es: seq<Entry>): seq<nat> { seq(|es|, k requires 0 <= k < |es| => es[k].col) }

  function Vals(es: seq<Entry>): seq<real> { seq(|es|, k requires 0 <= k < |es| => es[k].val) }

  /** One more row at the end. */
  function Extend(m: Matrix, es: seq<Entry>): Matrix {
    Matrix(m.nrows + 1, m.ncols, m.rowPtr + [|m.colIdx| + |es|], m.colIdx + Cols(es), m.vals + Vals(es))
  }

  function FromRows(ncols: nat, rows: seq<seq<Entry>>): Matrix {
    if rows == [] then Matrix(0, ncols, [0], [], []) else Extend(FromRows(ncols, rows[..|rows| - 1]), rows[|rows| - 1])
  }

  predicate Fit(ncols: nat, es: seq<Entry>) { forall k :: 0 <= k < |es| ==> es[k].col < ncols }

  ghost predicate HasRows(m: Matrix, ncols: nat, rows: seq<seq<Entry>>) {
    Valid(m) && m.nrows == |rows| && m.ncols == ncols && forall i :: 0 <= i < |rows| ==> Row(m, i) == rows[i]
  }

  lemma {:induction false} FromRowsHasRows(ncols: nat, rows: seq<seq<Entry>>, m: Matrix)
    requires m == FromRows(ncols, rows) && forall i :: 0 <= i < |rows| ==> Fit(ncols, rows[i])
    ensures HasRows(m, ncols, rows)
  {
    if rows != [] {
      var n := |rows| - 1;
      var front := FromRows(ncols, rows[..n]);
      FromRowsHasRows(ncols, rows[..n], front);
      ExtendHasRows(front, ncols, rows[..n], rows[n], m);
      assert rows == rows[..n] + [rows[n]];
    }
  }

  lemma ExtendHasRows(m: Matrix, ncols: nat, rows: seq<seq<Entry>>, es: seq<Entry>, m': Matrix)
    requires HasRows(m, ncols, rows) && Fit(ncols, es) && m' == Extend(m, es)
    ensures HasRows(m', ncols, rows + [es])
  {
    assert Valid(m');
    forall i | 0 <= i < |rows| ensures Row(m', i) == rows[i] { assert Row(m, i) == rows[i]; }
    assert Row(m', |rows|) == es;
  }

  /** A row loop that pushes entry by entry. */
  method PushRow(cols: seq<nat>, vals: seq<real>, es: seq<Entry>) returns (cols': seq<nat>, vals': seq<real>)
    ensures cols' == cols + Cols(es) && vals' == vals + Vals(es)
  {
    cols', vals' := cols, vals;
    for k := 0 to |es|
      invariant cols' == cols + Cols(es[..k]) && vals' == vals + Vals(es[..k])
    {
      cols', vals' := cols' + [es[k].col], vals' + [es[k].val];
    }
    assert es[..|es|] == es;
  }

  // ---- reading a row and pushing part of it --------------------------------------------

  /** The entries of row i before position p. */
  ghost function RowTo(a: Matrix, i: nat, p: nat): seq<Entry>
    requires Valid(a) && i < a.nrows && a.rowPtr[i] <= p <= a.rowPtr[i + 1]
  {
    Entries(a.colIdx, a.vals, a.rowPtr[i], p)
  }

  lemma RowToGrows(a: Matrix, i: nat, p: nat, e: Entry, es: seq<Entry>, es': seq<Entry>)
    requires Valid(a) && i < a.nrows && a.rowPtr[i] <= p < a.rowPtr[i + 1] && e == Entry(a.colIdx[p], a.vals[p])
    requires es == RowTo(a, i, p) && es' == RowTo(a, i, p + 1)
    ensures es' == es + [e]
  {
  }

  /** Growing two arrays by an entry, or not. */
  lemma PushedOne(cols: seq<nat>, vals: seq<real>, es: seq<Entry>, b: bool, e: Entry)
    ensures cols + Cols(es + If(b, e)) == cols + Cols(es) + If(b, e.col)
    ensures vals + Vals(es + If(b, e)) == vals + Vals(es) + If(b, e.val)
  {
  }

  lemma NextRow(n: nat, rows: seq<seq<Entry>>, rows': seq<seq<Entry>>, es: seq<Entry>, before: Matrix)
    requires rows' == rows + [es] && before == FromRows(n, rows)
    ensures FromRows(n, rows') == Extend(before, es)
  {
    assert rows'[..|rows'| - 1] == rows;
  }

  // ---- multiplication through its laws ---------------------------------------------

  /** A product known only by distributivity, zero and commutation. */
  type Mul = (real, real) -> real

  ghost predicate DistributesAt(mul: Mul, a: real, b: real, c: real) { mul(a, b + c) == mul(a, b) + mul(a, c) }

  ghost predicate ZeroAt(mul: Mul, a: real) { mul(a, 0.0) == 0.0 }

  ghost predicate CommutesAt(mul: Mul, a: real, v: real, b: real) {
    mul(a, b) == mul(b, a) && mul(a, mul(v, b)) == mul(b, mul(v, a))
  }

  ghost predicate Lawful(mul: Mul) {
    && (forall a, b, c :: DistributesAt(mul, a, b, c))
    && (forall a :: ZeroAt(mul, a))
    && (forall a, v, b :: CommutesAt(mul, a, v, b))
  }

  function DotBy(mul: Mul, x: seq<real>, y: seq<real>): real
    requires |x| == |y|
  {
    if x == [] then 0.0 else DotBy(mul, x[..|x| - 1], y[..|y| - 1]) + mul(x[|x| - 1], y[|y| - 1])
  }

  function RealMul(): Mul { (a: real, b: real) => a * b }

  lemma RealMulIsLawful()
    ensures Lawful(RealMul())
  {
    forall a, b, c ensures DistributesAt(RealMul(), a, b, c) {}
    forall a, v, b ensures CommutesAt(RealMul(), a, v, b) {}
  }

  lemma {:induction false} DotByIsDot(x: seq<real>, y: seq<real>)
    requires |x| == |y|
    ensures DotBy(RealMul(), x, y) == Dot(x, y)
  {
    if x != [] { DotByIsDot(x[..|x| - 1], y[..|y| - 1]); }
  }

  function TimesBy(mul: Mul, x: seq<real>): Entry -> real { (e: Entry) => mul(e.val, Get(x, e.col)) }

  function RowDotBy(mul: Mul, es: seq<Entry>, x: seq<real>): real { SumOf(es, TimesBy(mul, x)) }

  ghost function ProductBy(mul: Mul, m: Matrix, x: seq<real>): seq<real>
    requires Valid(m)
  {
    seq(m.nrows, i requires 0 <= i < m.nrows => RowDotBy(mul, Row(m, i), x))
  }

  lemma {:induction false} SameSum(es: seq<Entry>, f: Entry -> real, g: Entry -> real)
    requires forall e :: f(e) == g(e)
    ensures SumOf(es, f) == SumOf(es, g)
  {
    if es != [] { SameSum(es[..|es| - 1], f, g); }
  }

  lemma RowDotByIsRowDot(es: seq<Entry>, x: seq<real>)
    ensures RowDotBy(RealMul(), es, x) == RowDot(es, x)
  {
    SameSum(es, TimesBy(RealMul(), x), Times(x));
  }

  lemma ProductByIsProduct(m: Matrix, x: seq<real>)
    requires Valid(m)
    ensures ProductBy(RealMul(), m, x) == Product(m, x)
  {
    forall i | 0 <= i < m.nrows ensures ProductBy(RealMul(), m, x)[i] == Product(m, x)[i] {
      RowDotByIsRowDot(Row(m, i), x);
    }
  }
}
