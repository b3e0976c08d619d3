/** Injection from a grid coarsened by two in each direction, and its transpose. */
module Prolongation {
  import opened Basics
  import opened Csr
  import opened CsrTranspose
  import opened Poisson2D
  import PoissonLaws
  import TransposeLaws

  /** Grid point (i, j) takes the value of coarse point (i / 2, j / 2). */
  function CoarseRow(n: nat, i: nat, j: nat): seq<Entry> { [Entry(At(n / 2, i / 2, j / 2), 1.0)] }

  function CoarseRows(n: nat): (nat, nat) -> seq<Entry> { (i: nat, j: nat) => CoarseRow(n, i, j) }

  function RowsBefore(n: nat, nc: nat, i: nat, j: nat): Matrix { FromRows(nc, Cells(CoarseRows(n), n, i, j)) }

  function Injection(n: nat): Matrix { RowsBefore(n, Size(n / 2), n, 0) }

  /** None stands for the assertion that n is even. */
  method Prolong(n: nat) returns (p: Option<Matrix>)
    ensures p == if n % 2 == 0 then Some(Injection(n)) else None
  {
    if n % 2 != 0 { return None; }
    AtIsProduct(n, n, 0);
    AtIsProduct(n / 2, n / 2, 0);
    var nf, nc := n * n, (n / 2) * (n / 2);
    var rp: seq<nat>, cj: seq<nat>, vv: seq<real> := [0], [], [];
    for i := 0 to n
      invariant |rp| == At(n, i, 0) + 1 && rp[|rp| - 1] == |cj|
      invariant Matrix(At(n, i, 0), nc, rp, cj, vv) == RowsBefore(n, nc, i, 0)
    {
      for j := 0 to n
        invariant |rp| == At(n, i, j) + 1 && rp[|rp| - 1] == |cj|
        invariant Matrix(At(n, i, j), nc, rp, cj, vv) == RowsBefore(n, nc, i, j)
      {
        AtIsProduct(n / 2, i / 2, j / 2);
        var c := (i / 2) * (n / 2) + j / 2;
        NextPoint(n, nc, i, j, c, rp, cj, vv);
        cj, vv := cj + [c], vv + [1.0];
        rp := rp + [rp[|rp| - 1] + 1];
      }
      AtShift(n, i, n);
    }
    p := Some(Matrix(nf, nc, rp, cj, vv));
  }

  lemma NextPoint(n: nat, nc: nat, i: nat, j: nat, c: nat, rp: seq<nat>, cj: seq<nat>, vv: seq<real>)
    requires Matrix(At(n, i, j), nc, rp, cj, vv) == RowsBefore(n, nc, i, j) && c == At(n / 2, i / 2, j / 2)
    ensures Matrix(At(n, i, j + 1), nc, rp + [|cj| + 1], cj + [c], vv + [1.0]) == RowsBefore(n, nc, i, j + 1)
    ensures At(n, i, j + 1) == At(n, i, j) + 1
  {
    AtShift(n, i, j);
    AtShift(n, i, j + 1);
    NextRow(nc, Cells(CoarseRows(n), n, i, j), Cells(CoarseRows(n), n, i, j + 1), CoarseRow(n, i, j),
      RowsBefore(n, nc, i, j));
    assert Cols(CoarseRow(n, i, j)) == [c] && Vals(CoarseRow(n, i, j)) == [1.0];
  }

  ghost predicate HasCoarseRow(n: nat, p: Matrix, i: nat, j: nat)
    requires Valid(p)
  {
    At(n, i, j) < p.nrows && Row(p, At(n, i, j)) == CoarseRow(n, i, j)
  }

  ghost predicate IsInjection(n: nat, p: Matrix) {
    && Valid(p) && p.nrows == Size(n) && p.ncols == Size(n / 2)
    && forall i, j :: 0 <= i < n && 0 <= j < n ==> HasCoarseRow(n, p, i, j)
  }

  lemma {:induction false} CoarseFits(n: nat, i: nat, j: nat, rows: seq<seq<Entry>>)
    requires n % 2 == 0 && i <= n && j <= n && (i == n ==> j == 0) && rows == Cells(CoarseRows(n), n, i, j)
    ensures forall r :: 0 <= r < |rows| ==> Fit(Size(n / 2), rows[r])
    decreases i, j
  {
    if j > 0 {
      CoarseFits(n, i, j - 1, Cells(CoarseRows(n), n, i, j - 1));
      GridPoint(n / 2, i / 2, (j - 1) / 2);
    } else if i > 0 {
      CoarseFits(n, i - 1, n, rows);
    }
  }

  lemma InjectionRows(n: nat, p: Matrix)
    requires n % 2 == 0 && p == Injection(n)
    ensures IsInjection(n, p)
  {
    var rows := Cells(CoarseRows(n), n, n, 0);
    CellsLength(CoarseRows(n), n, n, 0);
    CoarseFits(n, n, 0, rows);
    FromRowsHasRows(Size(n / 2), rows, p);
    forall i, j | 0 <= i < n && 0 <= j < n ensures HasCoarseRow(n, p, i, j) {
      CellAtIndex(CoarseRows(n), n, n, 0, i, j, rows, At(n, i, j));
    }
  }

  lemma OneEntryDot(c: nat, x: seq<real>, v: real)
    requires v == Get(x, c)
    ensures RowDot([Entry(c, 1.0)], x) == v
  {
    SumOfLonger([], true, Entry(c, 1.0), Times(x));
    assert [] + If(true, Entry(c, 1.0)) == [Entry(c, 1.0)];
    assert 1.0 * v == v;
  }

  /** Every grid point takes the value of its coarse point. */
  lemma ProlongCopies(n: nat, p: Matrix, x: seq<real>, i: nat, j: nat)
    requires n % 2 == 0 && IsInjection(n, p) && |x| == p.ncols && i < n && j < n
    ensures At(n, i, j) < p.nrows && At(n / 2, i / 2, j / 2) < |x|
    ensures Product(p, x)[At(n, i, j)] == x[At(n / 2, i / 2, j / 2)]
  {
    assert HasCoarseRow(n, p, i, j);
    GridPoint(n / 2, i / 2, j / 2);
    OneEntryDot(At(n / 2, i / 2, j / 2), x, x[At(n / 2, i / 2, j / 2)]);
  }

  // ---- four grid points per coarse point ---------------------------------------------------

  function Clip(a: int): int { if a < 0 then 0 else if a > 2 then 2 else a }

  /** Grid points before (i, j) whose coarse point is (ci, cj). */
  function Seen(i: nat, j: nat, ci: nat, cj: nat): int {
    2 * Clip(i - 2 * ci) + if i / 2 == ci then Clip(j - 2 * cj) else 0
  }

  lemma OneMoreNonzero(p: Matrix, t: nat, e: Entry, c: nat)
    requires Valid(p) && t < p.nrows && Row(p, t) == [e]
    ensures |ColPart(Nonzeros(p, t + 1), c)| == |ColPart(Nonzeros(p, t), c)| + if e.col == c then 1 else 0
  {
    assert InRow(t, Row(p, t)) == [Nonzero(t, e.col, e.val)];
    TransposeLaws.ColPartOfLonger(Nonzeros(p, t), Nonzero(t, e.col, e.val), c);
  }

  lemma SeenStep(i: nat, j: nat, ci: nat, cj: nat)
    ensures Seen(i, j + 1, ci, cj) == Seen(i, j, ci, cj) + if i / 2 == ci && j / 2 == cj then 1 else 0
  {
  }

  lemma SeenRow(n: nat, i: nat, ci: nat, cj: nat)
    requires n % 2 == 0 && cj < n / 2
    ensures Seen(i + 1, 0, ci, cj) == Seen(i, n, ci, cj)
  {
  }

  lemma SameCoarsePoint(n: nat, i: nat, j: nat, ci: nat, cj: nat)
    requires n % 2 == 0 && j < n && cj < n / 2
    ensures At(n / 2, i / 2, j / 2) == At(n / 2, ci, cj) <==> i / 2 == ci && j / 2 == cj
  {
    if At(n / 2, i / 2, j / 2) == At(n / 2, ci, cj) { PoissonLaws.AtInjective(n / 2, i / 2, j / 2, ci, cj); }
  }

  /** Grid points among the first t whose coarse index is c. */
  ghost function Hits(p: Matrix, c: nat): nat -> int
    requires Valid(p)
  {
    (t: nat) => if t <= p.nrows then |ColPart(Nonzeros(p, t), c)| else 0
  }

  ghost predicate HitAt(n: nat, hits: nat -> int, ci: nat, cj: nat, i: nat, j: nat) {
    hits(At(n, i, j) + 1) == hits(At(n, i, j)) + if i / 2 == ci && j / 2 == cj then 1 else 0
  }

  lemma PointHits(n: nat, p: Matrix, i: nat, j: nat, ci: nat, cj: nat, c: nat)
    requires n % 2 == 0 && IsInjection(n, p) && cj < n / 2 && i < n && j < n && c == At(n / 2, ci, cj)
    ensures HitAt(n, Hits(p, c), ci, cj, i, j)
  {
    assert HasCoarseRow(n, p, i, j);
    OneMoreNonzero(p, At(n, i, j), Entry(At(n / 2, i / 2, j / 2), 1.0), c);
    SameCoarsePoint(n, i, j, ci, cj);
  }

  lemma {:induction false} CountSeen(n: nat, hits: nat -> int, ci: nat, cj: nat, i: nat, j: nat)
    requires n % 2 == 0 && cj < n / 2 && ((i < n && j <= n) || (i == n && j == 0))
    requires hits(0) == 0 && forall k, l :: 0 <= k < n && 0 <= l < n ==> HitAt(n, hits, ci, cj, k, l)
    ensures hits(At(n, i, j)) == Seen(i, j, ci, cj)
    decreases i, j
  {
    if j > 0 {
      PoissonLaws.OnePointBack(n, i, j);
      CountSeen(n, hits, ci, cj, i, j - 1);
      assert HitAt(n, hits, ci, cj, i, j - 1);
      SeenStep(i, j - 1, ci, cj);
    } else if i > 0 {
      AtShift(n, i - 1, n);
      CountSeen(n, hits, ci, cj, i - 1, n);
      SeenRow(n, i - 1, ci, cj);
    }
  }

  function Repeat(k: nat, v: real): real { if k == 0 then 0.0 else Repeat(k - 1, v) + v }

  lemma {:induction false} SumOfEqual(s: seq<Nonzero>, c: nat, f: Entry -> real, v: real)
    requires forall t :: 0 <= t < |s| && s[t].col == c ==> f(Entry(s[t].row, s[t].val)) == v
    ensures SumOf(ColPart(s, c), f) == Repeat(|ColPart(s, c)|, v)
  {
    if s != [] {
      SumOfEqual(s[..|s| - 1], c, f, v);
      SumOfLonger(ColPart(s[..|s| - 1], c), s[|s| - 1].col == c, Entry(s[|s| - 1].row, s[|s| - 1].val), f);
    }
  }

  /** A nonzero of P has value 1, and its row carries x at its column. */
  lemma NonzeroOfInjection(n: nat, p: Matrix, x: seq<real>, t: nat)
    requires n % 2 == 0 && IsInjection(n, p) && |x| == p.ncols && t < |All(p)|
    ensures All(p)[t].val == 1.0 && Get(Product(p, x), All(p)[t].row) == Get(x, All(p)[t].col)
  {
    var r := SlotOwner(p.rowPtr, t, p.nrows);
    NonzeroAt(p, r, t);
    var i, j := PoissonLaws.Coordinates(n, n, r);
    assert HasCoarseRow(n, p, i, j);
    assert Row(p, r)[t - p.rowPtr[r]] == Entry(p.colIdx[t], p.vals[t]);
    ProlongCopies(n, p, x, i, j);
  }

  lemma TermsOfColumn(n: nat, p: Matrix, x: seq<real>, c: nat, f: Entry -> real)
    requires n % 2 == 0 && IsInjection(n, p) && |x| == p.ncols && c < |x| && f == Times(Product(p, x))
    ensures forall t :: 0 <= t < |All(p)| && All(p)[t].col == c ==> f(Entry(All(p)[t].row, All(p)[t].val)) == x[c]
  {
    forall t | 0 <= t < |All(p)| && All(p)[t].col == c ensures f(Entry(All(p)[t].row, All(p)[t].val)) == x[c] {
      NonzeroOfInjection(n, p, x, t);
    }
  }

  lemma RepeatFour(v: real)
    ensures Repeat(4, v) == 4.0 * v
  {
    assert Repeat(2, v) == Repeat(0, v) + v + v;
    assert Repeat(4, v) == Repeat(2, v) + v + v;
  }

  lemma FourEqual(s: seq<Nonzero>, c: nat, f: Entry -> real, v: real)
    requires forall t :: 0 <= t < |s| && s[t].col == c ==> f(Entry(s[t].row, s[t].val)) == v
    requires |ColPart(s, c)| == 4
    ensures SumOf(ColPart(s, c), f) == 4.0 * v
  {
    SumOfEqual(s, c, f, v);
    RepeatFour(v);
  }

  lemma FourPoints(n: nat, p: Matrix, c: nat)
    requires n % 2 == 0 && IsInjection(n, p) && c < p.ncols
    ensures |ColPart(All(p), c)| == 4
  {
    var ci, cj := PoissonLaws.Coordinates(n / 2, n / 2, c);
    forall i, j | 0 <= i < n && 0 <= j < n ensures HitAt(n, Hits(p, c), ci, cj, i, j) {
      PointHits(n, p, i, j, ci, cj, c);
    }
    CountSeen(n, Hits(p, c), ci, cj, n, 0);
    assert Hits(p, c)(p.nrows) == |ColPart(All(p), c)|;
  }

  /** Restricting what was prolonged multiplies by four: every coarse point has four grid points. */
  lemma RestrictProlong(n: nat, p: Matrix, r: Matrix, x: seq<real>, c: nat)
    requires n % 2 == 0 && IsInjection(n, p) && IsTranspose(p, r) && |x| == p.ncols && c < |x|
    ensures |Row(r, c)| == 4 && Product(r, Product(p, x))[c] == 4.0 * x[c]
  {
    FourPoints(n, p, c);
    TermsOfColumn(n, p, x, c, Times(Product(p, x)));
    FourEqual(All(p), c, Times(Product(p, x)), x[c]);
  }
}
