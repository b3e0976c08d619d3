/** The assembled matrix is the Laplacian of the grid graph: symmetric, with zero row sums, and
    its quadratic form is the sum over the grid's edges of squared differences. */
module PoissonLaws {
  import opened Csr
  import opened Poisson2D

  // ---- dense form ------------------------------------------------------------------

  /** Manhattan distance one. */
  predicate Adjacent(i: nat, j: nat, k: nat, l: nat) {
    (i == k && (j == l + 1 || l == j + 1)) || (j == l && (i == k + 1 || k == i + 1))
  }

  function Laplacian(n: nat, i: nat, j: nat, k: nat, l: nat): real {
    if i == k && j == l then Degree(n, i, j) else if Adjacent(i, j, k, l) then -1.0 else 0.0
  }

  lemma AtInjective(n: nat, i: nat, j: nat, k: nat, l: nat)
    requires j < n && l < n && At(n, i, j) == At(n, k, l)
    ensures i == k && j == l
  {
    AtShift(n, i, j);
    AtShift(n, k, l);
    if i < k { AtGrows(n, i, k); }
    if k < i { AtGrows(n, k, i); }
  }

  function Hit(b: bool, w: real): real { if b then w else 0.0 }

  lemma StencilSum(n: nat, i: nat, j: nat, at: nat, f: Entry -> real)
    ensures SumOf(Stencil(n, i, j, at), f) ==
      Hit(i > 0, f(Entry(Less(at, n), -1.0))) + Hit(j > 0, f(Entry(Less(at, 1), -1.0))) + f(Entry(at, Degree(n, i, j)))
      + Hit(j + 1 < n, f(Entry(at + 1, -1.0))) + Hit(i + 1 < n, f(Entry(at + n, -1.0)))
  {
    var north, west := Entry(Less(at, n), -1.0), Entry(Less(at, 1), -1.0);
    var diag, east, south := Entry(at, Degree(n, i, j)), Entry(at + 1, -1.0), Entry(at + n, -1.0);
    assert [] + If(i > 0, north) == If(i > 0, north) && [diag] == If(true, diag);
    SumOfLonger([], i > 0, north, f);
    SumOfLonger(If(i > 0, north), j > 0, west, f);
    SumOfLonger(If(i > 0, north) + If(j > 0, west), true, diag, f);
    SumOfLonger(If(i > 0, north) + If(j > 0, west) + [diag], j + 1 < n, east, f);
    SumOfLonger(If(i > 0, north) + If(j > 0, west) + [diag] + If(j + 1 < n, east), i + 1 < n, south, f);
  }

  function Pick(v: nat): Entry -> real { (e: Entry) => if e.col == v then e.val else 0.0 }

  lemma {:induction false} ValueIsSum(es: seq<Entry>, v: nat)
    ensures ValueAt(es, v) == SumOf(es, Pick(v))
  {
    if es != [] { ValueIsSum(es[..|es| - 1], v); }
  }

  lemma StencilValue(n: nat, i: nat, j: nat, at: nat, v: nat)
    ensures ValueAt(Stencil(n, i, j, at), v) ==
      Hit(i > 0 && Less(at, n) == v, -1.0) + Hit(j > 0 && Less(at, 1) == v, -1.0) + Hit(at == v, Degree(n, i, j))
      + Hit(j + 1 < n && at + 1 == v, -1.0) + Hit(i + 1 < n && at + n == v, -1.0)
  {
    ValueIsSum(Stencil(n, i, j, at), v);
    StencilSum(n, i, j, at, Pick(v));
  }

  lemma NorthWest(n: nat, i: nat, j: nat, k: nat, l: nat, at: nat, v: nat)
    requires i < n && j < n && k < n && l < n && at == At(n, i, j) && v == At(n, k, l)
    ensures (i > 0 && Less(at, n) == v) <==> (i == k + 1 && j == l)
    ensures (j > 0 && Less(at, 1) == v) <==> (i == k && j == l + 1)
  {
    GridPoint(n, i, j);
    if i > 0 && Less(at, n) == v { AtInjective(n, i - 1, j, k, l); }
    if j > 0 && Less(at, 1) == v { AtInjective(n, i, j - 1, k, l); }
  }

  lemma Neighbours(n: nat, i: nat, j: nat, k: nat, l: nat, at: nat, v: nat)
    requires i < n && j < n && k < n && l < n && at == At(n, i, j) && v == At(n, k, l)
    ensures (i > 0 && Less(at, n) == v) <==> (i == k + 1 && j == l)
    ensures (j > 0 && Less(at, 1) == v) <==> (i == k && j == l + 1)
    ensures at == v <==> i == k && j == l
    ensures (j + 1 < n && at + 1 == v) <==> (k == i && l == j + 1)
    ensures (i + 1 < n && at + n == v) <==> (k == i + 1 && l == j)
  {
    NorthWest(n, i, j, k, l, at, v);
    if at == v { AtInjective(n, i, j, k, l); }
    SouthEast(n, i, j, k, l, at, v);
  }

  /** East and south are west and north seen from the other side. */
  lemma SouthEast(n: nat, i: nat, j: nat, k: nat, l: nat, at: nat, v: nat)
    requires i < n && j < n && k < n && l < n && at == At(n, i, j) && v == At(n, k, l)
    ensures (j + 1 < n && at + 1 == v) <==> (k == i && l == j + 1)
    ensures (i + 1 < n && at + n == v) <==> (k == i + 1 && l == j)
  {
    AtShift(n, i, j);
    AtShift(n, i, j + 1);
    if j + 1 < n && at + 1 == v { AtInjective(n, i, j + 1, k, l); }
    if i + 1 < n && at + n == v { AtInjective(n, i + 1, j, k, l); }
  }

  /** An entry of the dense matrix depends on the distance of its grid points only. */
  lemma DenseIsLaplacian(n: nat, m: Matrix, i: nat, j: nat, k: nat, l: nat)
    requires IsGridMatrix(n, m) && i < n && j < n && k < n && l < n
    ensures At(n, i, j) < m.nrows && Dense(m, At(n, i, j), At(n, k, l)) == Laplacian(n, i, j, k, l)
  {
    assert HasStencil(n, m, i, j);
    StencilValue(n, i, j, At(n, i, j), At(n, k, l));
    Neighbours(n, i, j, k, l, At(n, i, j), At(n, k, l));
  }

  lemma {:induction false} Coordinates(n: nat, rows: nat, u: nat) returns (i: nat, j: nat)
    requires u < At(n, rows, 0)
    ensures i < rows && j < n && u == At(n, i, j)
  {
    if u < At(n, rows - 1, 0) {
      i, j := Coordinates(n, rows - 1, u);
    } else {
      i, j := rows - 1, u - At(n, rows - 1, 0);
      AtShift(n, i, j);
    }
  }

  lemma AssembledIsSymmetric(n: nat, m: Matrix, u: nat, v: nat)
    requires IsGridMatrix(n, m) && u < Size(n) && v < Size(n)
    ensures Dense(m, u, v) == Dense(m, v, u)
  {
    var i, j := Coordinates(n, n, u);
    var k, l := Coordinates(n, n, v);
    DenseIsLaplacian(n, m, i, j, k, l);
    DenseIsLaplacian(n, m, k, l, i, j);
  }

  // ---- action on a vector ------------------------------------------------------------

  function Diff(x: seq<real>, u: nat, v: nat): real { Get(x, u) - Get(x, v) }

  /** The differences to the neighbours. */
  function Pull(n: nat, i: nat, j: nat, at: nat, x: seq<real>): real {
    Hit(i > 0, Diff(x, at, Less(at, n))) + Hit(j > 0, Diff(x, at, Less(at, 1)))
    + Hit(j + 1 < n, Diff(x, at, at + 1)) + Hit(i + 1 < n, Diff(x, at, at + n))
  }

  lemma DegreeTimes(a: bool, b: bool, c: bool, d: bool, x: real)
    ensures (One(a) + One(b) + One(c) + One(d)) * x == Hit(a, x) + Hit(b, x) + Hit(c, x) + Hit(d, x)
  {
    assert 0.0 * x == 0.0 && 1.0 * x == x && 2.0 * x == x + x && 3.0 * x == x + x + x && 4.0 * x == x + x + x + x;
  }

  ghost predicate NegatesAt(f: Entry -> real, x: seq<real>, c: nat) { f(Entry(c, -1.0)) == -Get(x, c) }

  lemma PullFrom(n: nat, i: nat, j: nat, at: nat, x: seq<real>, f: Entry -> real)
    requires forall c: nat :: NegatesAt(f, x, c)
    requires f(Entry(at, Degree(n, i, j))) == Hit(j > 0, Get(x, at)) + Hit(j + 1 < n, Get(x, at))
      + Hit(i > 0, Get(x, at)) + Hit(i + 1 < n, Get(x, at))
    ensures SumOf(Stencil(n, i, j, at), f) == Pull(n, i, j, at, x)
  {
    StencilSum(n, i, j, at, f);
    assert NegatesAt(f, x, Less(at, n)) && NegatesAt(f, x, Less(at, 1)) && NegatesAt(f, x, at + 1);
    assert NegatesAt(f, x, at + n);
  }

  /** A row of the product sums the differences to the neighbours. */
  lemma StencilDot(n: nat, i: nat, j: nat, at: nat, x: seq<real>)
    ensures RowDot(Stencil(n, i, j, at), x) == Pull(n, i, j, at, x)
  {
    forall c: nat ensures NegatesAt(Times(x), x, c) {}
    DegreeTimes(j > 0, j + 1 < n, i > 0, i + 1 < n, Get(x, at));
    PullFrom(n, i, j, at, x, Times(x));
  }

  /** Constants are in the kernel; with the constant 1, every row sums to zero. */
  lemma ConstantsVanish(n: nat, m: Matrix, x: seq<real>, u: nat)
    requires IsGridMatrix(n, m) && u < Size(n) && |x| == Size(n)
    requires forall v :: 0 <= v < |x| ==> x[v] == x[0]
    ensures Product(m, x)[u] == 0.0
  {
    var i, j := Coordinates(n, n, u);
    assert HasStencil(n, m, i, j);
    GridPoint(n, i, j);
    StencilDot(n, i, j, u, x);
  }

  // ---- quadratic form ------------------------------------------------------------------

  type PairWeight = (nat, nat) -> real

  /** What the row of (i, j) contributes: one weight per neighbour. */
  function Flow(d: PairWeight, n: nat, i: nat, j: nat, at: nat): real {
    Hit(i > 0, d(at, Less(at, n))) + Hit(j > 0, d(at, Less(at, 1))) + Hit(j + 1 < n, d(at, at + 1))
      + Hit(i + 1 < n, d(at, at + n))
  }

  function Pulls(mul: Mul, x: seq<real>): PairWeight { (u: nat, v: nat) => mul(Get(x, u), Diff(x, u, v)) }

  function Squares(x: seq<real>): PairWeight { (u: nat, v: nat) => Diff(x, u, v) * Diff(x, u, v) }

  lemma TimesHit(mul: Mul, a: real, b: bool, p: real, rest: real)
    requires Lawful(mul)
    ensures mul(a, rest + Hit(b, p)) == mul(a, rest) + Hit(b, mul(a, p))
  {
    assert DistributesAt(mul, a, rest, Hit(b, p)) && ZeroAt(mul, a);
  }

  lemma PointEnergy(mul: Mul, n: nat, i: nat, j: nat, at: nat, x: seq<real>)
    requires Lawful(mul)
    ensures mul(Get(x, at), Pull(n, i, j, at, x)) == Flow(Pulls(mul, x), n, i, j, at)
  {
    var a, north, west := Get(x, at), Hit(i > 0, Diff(x, at, Less(at, n))), Hit(j > 0, Diff(x, at, Less(at, 1)));
    var east := Hit(j + 1 < n, Diff(x, at, at + 1));
    assert ZeroAt(mul, a);
    TimesHit(mul, a, i > 0, Diff(x, at, Less(at, n)), 0.0);
    TimesHit(mul, a, j > 0, Diff(x, at, Less(at, 1)), north);
    TimesHit(mul, a, j + 1 < n, Diff(x, at, at + 1), north + west);
    TimesHit(mul, a, i + 1 < n, Diff(x, at, at + n), north + west + east);
  }

  /** All contributions of the grid points before (i, j). */
  function FlowSum(d: PairWeight, n: nat, i: nat, j: nat): real {
    if j > 0 then FlowSum(d, n, i, j - 1) + Flow(d, n, i, j - 1, At(n, i, j - 1))
    else if i > 0 then FlowSum(d, n, i - 1, n)
    else 0.0
  }

  /** The weights along m points of a row of the grid. */
  function Along(s: PairWeight, n: nat, i: nat, m: nat): real {
    if m <= 1 then 0.0 else Along(s, n, i, m - 1) + s(At(n, i, m - 2), At(n, i, m - 1))
  }

  /** The weights from m points of row i to their neighbours in row k. */
  function Across(s: PairWeight, n: nat, i: nat, k: nat, m: nat): real {
    if m == 0 then 0.0 else Across(s, n, i, k, m - 1) + s(At(n, i, m - 1), At(n, k, m - 1))
  }

  /** The weight of every edge among the first k rows of the grid, each edge once. */
  function Edges(s: PairWeight, n: nat, k: nat): real {
    if k == 0 then 0.0
    else Edges(s, n, k - 1) + Along(s, n, k - 1, n) + if k == 1 then 0.0 else Across(s, n, k - 2, k - 1, n)
  }

  ghost predicate SplitsAt(d: PairWeight, s: PairWeight, u: nat, v: nat) { s(u, v) == d(u, v) + d(v, u) }

  ghost predicate Splits(d: PairWeight, s: PairWeight) { forall u, v :: SplitsAt(d, s, u, v) }

  lemma {:induction false} AcrossSplits(d: PairWeight, s: PairWeight, n: nat, i: nat, k: nat, m: nat)
    requires Splits(d, s)
    ensures Across(s, n, i, k, m) == Across(d, n, i, k, m) + Across(d, n, k, i, m)
  {
    if m > 0 {
      AcrossSplits(d, s, n, i, k, m - 1);
      assert SplitsAt(d, s, At(n, i, m - 1), At(n, k, m - 1));
    }
  }

  lemma FlowAt(d: PairWeight, n: nat, i: nat, j: nat)
    requires i < n && j < n
    ensures Flow(d, n, i, j, At(n, i, j)) ==
      (if i > 0 then d(At(n, i, j), At(n, i - 1, j)) else 0.0)
      + (if j > 0 then d(At(n, i, j), At(n, i, j - 1)) else 0.0)
      + Hit(j + 1 < n, d(At(n, i, j), At(n, i, j + 1))) + Hit(i + 1 < n, d(At(n, i, j), At(n, i + 1, j)))
  {
    GridPoint(n, i, j);
    AtShift(n, i, j);
    AtShift(n, i, j + 1);
  }

  /** The contributions within row i of its first m points: both directions of the edges among them and one
      direction of the edge to the next. */
  function LineShare(d: PairWeight, s: PairWeight, n: nat, i: nat, m: nat): real {
    Along(s, n, i, m) + if 0 < m < n then d(At(n, i, m - 1), At(n, i, m)) else 0.0
  }

  lemma LineShareGrows(d: PairWeight, s: PairWeight, n: nat, i: nat, j: nat)
    requires Splits(d, s) && j < n
    ensures LineShare(d, s, n, i, j + 1) == LineShare(d, s, n, i, j)
      + (if j > 0 then d(At(n, i, j), At(n, i, j - 1)) else 0.0) + Hit(j + 1 < n, d(At(n, i, j), At(n, i, j + 1)))
  {
    if j > 0 { assert SplitsAt(d, s, At(n, i, j - 1), At(n, i, j)); }
  }

  /** The contributions of the first m points of row i, with one direction of the edges to the rows beside it. */
  function RowShare(d: PairWeight, s: PairWeight, n: nat, i: nat, m: nat): real {
    LineShare(d, s, n, i, m)
    + (if i > 0 then Across(d, n, i, i - 1, m) else 0.0) + Hit(i + 1 < n, Across(d, n, i, i + 1, m))
  }

  lemma RowShareGrows(d: PairWeight, s: PairWeight, n: nat, i: nat, j: nat, line: real, line': real)
    requires Splits(d, s) && i < n && j < n && line == LineShare(d, s, n, i, j) && line' == LineShare(d, s, n, i, j + 1)
    ensures RowShare(d, s, n, i, j + 1) == RowShare(d, s, n, i, j) + Flow(d, n, i, j, At(n, i, j))
  {
    LineShareGrows(d, s, n, i, j);
    FlowAt(d, n, i, j);
  }

  lemma {:induction false} RowFlows(d: PairWeight, s: PairWeight, n: nat, i: nat, m: nat)
    requires Splits(d, s) && i < n && m <= n
    ensures FlowSum(d, n, i, m) == FlowSum(d, n, i, 0) + RowShare(d, s, n, i, m)
  {
    if m > 0 {
      RowFlows(d, s, n, i, m - 1);
      RowShareGrows(d, s, n, i, m - 1, LineShare(d, s, n, i, m - 1), LineShare(d, s, n, i, m));
    }
  }

  lemma {:induction false} GridFlows(d: PairWeight, s: PairWeight, n: nat, k: nat)
    requires Splits(d, s) && k <= n
    ensures FlowSum(d, n, k, 0) == Edges(s, n, k) + if 0 < k < n then Across(d, n, k - 1, k, n) else 0.0
  {
    if k > 0 {
      GridFlows(d, s, n, k - 1);
      RowFlows(d, s, n, k - 1, n);
      if k > 1 { AcrossSplits(d, s, n, k - 2, k - 1, n); }
    }
  }

  lemma SquareSplits(a: real, b: real)
    ensures (a - b) * (a - b) == a * (a - b) + b * (b - a)
  {
  }

  lemma SquaresSplit(x: seq<real>)
    ensures Splits(Pulls(RealMul(), x), Squares(x))
  {
    forall u, v ensures SplitsAt(Pulls(RealMul(), x), Squares(x), u, v) { SquareSplits(Get(x, u), Get(x, v)); }
  }

  lemma DotOfLonger(mul: Mul, x: seq<real>, y: seq<real>, t: nat)
    requires t < |x| == |y|
    ensures DotBy(mul, x[..t + 1], y[..t + 1]) == DotBy(mul, x[..t], y[..t]) + mul(x[t], y[t])
  {
    assert x[..t + 1][..t] == x[..t] && y[..t + 1][..t] == y[..t];
  }

  ghost predicate TermAt(mul: Mul, x: seq<real>, y: seq<real>, d: PairWeight, n: nat, i: nat, j: nat) {
    At(n, i, j) < |x| == |y| && mul(x[At(n, i, j)], y[At(n, i, j)]) == Flow(d, n, i, j, At(n, i, j))
  }

  lemma {:induction false} DotIsFlowSum(mul: Mul, x: seq<real>, y: seq<real>, d: PairWeight, n: nat, i: nat, j: nat,
                                        t: nat, sum: real)
    requires |x| == |y| == Size(n) && forall i, j :: 0 <= i < n && 0 <= j < n ==> TermAt(mul, x, y, d, n, i, j)
    requires ((i < n && j <= n) || (i == n && j == 0)) && t == At(n, i, j) <= |x| && sum == FlowSum(d, n, i, j)
    ensures DotBy(mul, x[..t], y[..t]) == sum
    decreases i, j
  {
    if j > 0 {
      OnePointBack(n, i, j);
      DotIsFlowSum(mul, x, y, d, n, i, j - 1, t - 1, FlowSum(d, n, i, j - 1));
      assert TermAt(mul, x, y, d, n, i, j - 1);
      DotOfLonger(mul, x, y, t - 1);
    } else if i > 0 {
      AtShift(n, i - 1, n);
      DotIsFlowSum(mul, x, y, d, n, i - 1, n, t, sum);
    }
  }

  lemma OnePointBack(n: nat, i: nat, j: nat)
    requires j > 0
    ensures At(n, i, j) == At(n, i, j - 1) + 1
  {
    AtShift(n, i, j);
    AtShift(n, i, j - 1);
  }

  lemma EnergyTerms(mul: Mul, n: nat, m: Matrix, x: seq<real>, y: seq<real>)
    requires Lawful(mul) && IsGridMatrix(n, m) && |x| == Size(n)
    requires y == Product(m, x)
    ensures forall i, j :: 0 <= i < n && 0 <= j < n ==> TermAt(mul, x, y, Pulls(mul, x), n, i, j)
  {
    forall i, j | 0 <= i < n && 0 <= j < n ensures TermAt(mul, x, y, Pulls(mul, x), n, i, j) {
      var t := At(n, i, j);
      assert HasStencil(n, m, i, j);
      PointEnergy(mul, n, i, j, t, x);
      StencilDot(n, i, j, t, x);
      assert y[t] == RowDot(Row(m, t), x);
    }
  }

  /** x . (A x) is the sum over the edges of the grid of the squared difference along the edge. */
  lemma QuadraticForm(n: nat, m: Matrix, x: seq<real>)
    requires IsGridMatrix(n, m) && |x| == Size(n)
    ensures Dot(x, Product(m, x)) == Edges(Squares(x), n, n)
  {
    var mul, y := RealMul(), Product(m, x);
    RealMulIsLawful();
    EnergyTerms(mul, n, m, x, y);
    DotIsFlowSum(mul, x, y, Pulls(mul, x), n, n, 0, Size(n), FlowSum(Pulls(mul, x), n, n, 0));
    SquaresSplit(x);
    GridFlows(Pulls(mul, x), Squares(x), n, n);
    assert x[..Size(n)] == x && y[..Size(n)] == y;
    DotByIsDot(x, y);
  }

  // ---- definiteness ----------------------------------------------------------------------

  ghost predicate NonNegativeAt(s: PairWeight, u: nat, v: nat) { s(u, v) >= 0.0 }

  ghost predicate NonNegative(s: PairWeight) { forall u, v :: NonNegativeAt(s, u, v) }

  lemma {:induction false} AlongBound(s: PairWeight, n: nat, i: nat, m: nat)
    requires NonNegative(s)
    ensures Along(s, n, i, m) >= 0.0
    ensures Along(s, n, i, m) == 0.0 ==> forall j :: 0 < j < m ==> s(At(n, i, j - 1), At(n, i, j)) == 0.0
  {
    if m > 1 {
      AlongBound(s, n, i, m - 1);
      assert NonNegativeAt(s, At(n, i, m - 2), At(n, i, m - 1));
    }
  }

  lemma {:induction false} AcrossBound(s: PairWeight, n: nat, i: nat, k: nat, m: nat)
    requires NonNegative(s)
    ensures Across(s, n, i, k, m) >= 0.0
    ensures Across(s, n, i, k, m) == 0.0 ==> forall j :: 0 <= j < m ==> s(At(n, i, j), At(n, k, j)) == 0.0
  {
    if m > 0 {
      AcrossBound(s, n, i, k, m - 1);
      assert NonNegativeAt(s, At(n, i, m - 1), At(n, k, m - 1));
    }
  }

  /** No weight along row i or on its edges to the row before. */
  predicate NoWeight(s: PairWeight, n: nat, i: nat) {
    Along(s, n, i, n) == 0.0 && (i > 0 ==> Across(s, n, i - 1, i, n) == 0.0)
  }

  lemma {:induction false} EdgesBound(s: PairWeight, n: nat, k: nat)
    requires NonNegative(s)
    ensures Edges(s, n, k) >= 0.0
    ensures Edges(s, n, k) == 0.0 ==> forall i :: 0 <= i < k ==> NoWeight(s, n, i)
  {
    if k > 0 {
      EdgesBound(s, n, k - 1);
      AlongBound(s, n, k - 1, n);
      if k > 1 { AcrossBound(s, n, k - 2, k - 1, n); }
      assert Edges(s, n, k) == 0.0 ==> NoWeight(s, n, k - 1);
    }
  }

  lemma SquareBound(a: real, square: real)
    requires square == a * a
    ensures square >= 0.0 && (square == 0.0 ==> a == 0.0)
  {
    if a > 0.0 || a < 0.0 { SameSignTimes(a, a, square); }
  }

  lemma SameSignTimes(a: real, b: real, product: real)
    requires product == a * b && ((a > 0.0 && b > 0.0) || (a < 0.0 && b < 0.0))
    ensures product > 0.0
  {
  }

  lemma SquaresNonNegative(x: seq<real>)
    ensures NonNegative(Squares(x))
  {
    forall u, v ensures NonNegativeAt(Squares(x), u, v) { SquareBound(Diff(x, u, v), Squares(x)(u, v)); }
  }

  /** Without weight on any edge, every grid point has the value of the first. */
  lemma {:induction false} FlatAt(x: seq<real>, n: nat, i: nat, j: nat)
    requires i < n && j < n && forall k :: 0 <= k < n ==> NoWeight(Squares(x), n, k)
    ensures Get(x, At(n, i, j)) == Get(x, 0)
  {
    SquaresNonNegative(x);
    if j > 0 {
      FlatAt(x, n, i, j - 1);
      assert NoWeight(Squares(x), n, i);
      AlongBound(Squares(x), n, i, n);
      SquareBound(Diff(x, At(n, i, j - 1), At(n, i, j)), Squares(x)(At(n, i, j - 1), At(n, i, j)));
    } else if i > 0 {
      FlatAt(x, n, i - 1, 0);
      assert NoWeight(Squares(x), n, i);
      AcrossBound(Squares(x), n, i - 1, i, n);
      SquareBound(Diff(x, At(n, i - 1, 0), At(n, i, 0)), Squares(x)(At(n, i - 1, 0), At(n, i, 0)));
    }
  }

  lemma {:induction false} DotWithZero(x: seq<real>, y: seq<real>)
    requires |x| == |y| && forall u :: 0 <= u < |y| ==> y[u] == 0.0
    ensures Dot(x, y) == 0.0
  {
    if x != [] { DotWithZero(x[..|x| - 1], y[..|y| - 1]); }
  }

  /** A is positive semidefinite, and its kernel is the constants. */
  lemma SemidefiniteWithConstantKernel(n: nat, m: Matrix, x: seq<real>)
    requires IsGridMatrix(n, m) && |x| == Size(n)
    ensures Dot(x, Product(m, x)) >= 0.0
    ensures Dot(x, Product(m, x)) == 0.0 <==> forall u :: 0 <= u < |x| ==> x[u] == x[0]
  {
    QuadraticForm(n, m, x);
    SquaresNonNegative(x);
    EdgesBound(Squares(x), n, n);
    if Dot(x, Product(m, x)) == 0.0 {
      forall u | 0 <= u < |x| ensures x[u] == x[0] {
        var i, j := Coordinates(n, n, u);
        FlatAt(x, n, i, j);
      }
    }
    if forall u :: 0 <= u < |x| ==> x[u] == x[0] {
      forall u | 0 <= u < |x| ensures Product(m, x)[u] == 0.0 { ConstantsVanish(n, m, x, u); }
      DotWithZero(x, Product(m, x));
    }
  }
}
