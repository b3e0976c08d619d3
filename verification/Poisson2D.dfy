/** Assembly of the 5-point matrix on an n x n grid.  The diagonal is the number of neighbours,
    so the matrix is the Laplacian of the grid graph. */
module Poisson2D {
  import opened Csr

  function One(b: bool): real { if b then 1.0 else 0.0 }

  function Degree(n: nat, i: nat, j: nat): real { One(j > 0) + One(j + 1 < n) + One(i > 0) + One(i + 1 < n) }

  /** The row index of grid point (i, j): i * n + j, by repeated addition. */
  function At(n: nat, i: nat, j: nat): nat { if i == 0 then j else At(n, i - 1, j) + n }

  lemma {:induction false} AtIsProduct(n: nat, i: nat, j: nat)
    ensures At(n, i, j) == i * n + j
  {
    if i > 0 {
      AtIsProduct(n, i - 1, j);
      assert i * n == (i - 1) * n + n;
    }
  }

  lemma {:induction false} AtShift(n: nat, i: nat, j: nat)
    ensures At(n, i, j) == At(n, i, 0) + j
  {
    if i > 0 { AtShift(n, i - 1, j); }
  }

  lemma {:induction false} AtGrows(n: nat, i: nat, k: nat)
    requires i < k
    ensures At(n, i, 0) + n <= At(n, k, 0)
  {
    if i + 1 < k { AtGrows(n, i, k - 1); }
  }

  /** Neighbours are one or n rows away, inside the matrix. */
  lemma GridPoint(n: nat, i: nat, j: nat)
    requires i < n && j < n
    ensures At(n, i, j) < At(n, n, 0) && (j + 1 < n ==> At(n, i, j) + 1 < At(n, n, 0))
    ensures i > 0 ==> At(n, i, j) == At(n, i - 1, j) + n
    ensures j > 0 ==> At(n, i, j) == At(n, i, j - 1) + 1
    ensures i + 1 < n ==> At(n, i, j) + n < At(n, n, 0)
  {
    AtShift(n, i, j);
    AtGrows(n, i, n);
    if j > 0 { AtShift(n, i, j - 1); }
    if i + 1 < n { AtGrows(n, i + 1, n); }
  }

  function Less(a: nat, b: nat): nat { if a >= b then a - b else 0 }

  /** The row of (i, j), at row index `at`, by column. */
  function Stencil(n: nat, i: nat, j: nat, at: nat): seq<Entry> {
    If(i > 0, Entry(Less(at, n), -1.0)) + If(j > 0, Entry(Less(at, 1), -1.0)) + [Entry(at, Degree(n, i, j))]
    + If(j + 1 < n, Entry(at + 1, -1.0)) + If(i + 1 < n, Entry(at + n, -1.0))
  }

  /** The same entries in the order in which the assembly meets them: west, east, north, south, diagonal. */
  function Collected(n: nat, i: nat, j: nat, at: nat): seq<Entry> {
    If(j > 0, Entry(Less(at, 1), -1.0)) + (If(j + 1 < n, Entry(at + 1, -1.0))
    + (If(i > 0, Entry(Less(at, n), -1.0)) + (If(i + 1 < n, Entry(at + n, -1.0)) + [Entry(at, Degree(n, i, j))])))
  }

  /** One value per grid point before (i, j), in order. */
  function Cells<T>(cell: (nat, nat) -> T, n: nat, i: nat, j: nat): seq<T> {
    if j > 0 then Cells(cell, n, i, j - 1) + [cell(i, j - 1)]
    else if i > 0 then Cells(cell, n, i - 1, n)
    else []
  }

  lemma {:induction false} CellsLength<T>(cell: (nat, nat) -> T, n: nat, i: nat, j: nat)
    ensures |Cells(cell, n, i, j)| == At(n, i, j)
    decreases i, j
  {
    AtShift(n, i, j);
    if j > 0 {
      CellsLength(cell, n, i, j - 1);
      AtShift(n, i, j - 1);
    } else if i > 0 {
      CellsLength(cell, n, i - 1, n);
      AtShift(n, i - 1, n);
    }
  }

  /** The value of (k, l) stands at its row index. */
  lemma {:induction false} CellAtIndex<T>(cell: (nat, nat) -> T, n: nat, i: nat, j: nat, k: nat, l: nat, s: seq<T>,
                                          at: nat)
    requires l < n && j <= n && (k < i || (k == i && l < j)) && s == Cells(cell, n, i, j) && at == At(n, k, l)
    ensures |s| == At(n, i, j) && at < |s| && s[at] == cell(k, l)
    decreases i, j
  {
    CellsLength(cell, n, i, j);
    if j > 0 {
      if k == i && l == j - 1 {
        CellsLength(cell, n, i, j - 1);
      } else {
        CellAtIndex(cell, n, i, j - 1, k, l, Cells(cell, n, i, j - 1), at);
      }
    } else {
      CellAtIndex(cell, n, i - 1, n, k, l, s, at);
    }
  }

  /** The row of each grid point. */
  function Stencils(n: nat): (nat, nat) -> seq<Entry> { (i: nat, j: nat) => Stencil(n, i, j, At(n, i, j)) }

  // ---- assembly ------------------------------------------------------------------

  function Insert(e: Entry, es: seq<Entry>): seq<Entry> {
    if es == [] then [e]
    else if e.col <= es[0].col then [e] + es
    else [es[0]] + Insert(e, es[1..])
  }

  /** The library's unstable sort by column; the columns of a row are distinct, so stability is no matter. */
  function SortByCol(es: seq<Entry>): seq<Entry> { if es == [] then [] else Insert(es[0], SortByCol(es[1..])) }

  lemma {:induction false} InsertBetween(e: Entry, a: seq<Entry>, b: seq<Entry>)
    requires forall k :: 0 <= k < |a| ==> a[k].col < e.col
    requires b == [] || e.col <= b[0].col
    ensures Insert(e, a + b) == a + [e] + b
  {
    if a == [] {
      assert a + b == b;
    } else {
      InsertBetween(e, a[1..], b);
      assert (a + b)[1..] == a[1..] + b && a == [a[0]] + a[1..];
    }
  }

  lemma SortIf(b: bool, e: Entry, es: seq<Entry>)
    ensures SortByCol(If(b, e) + es) == if b then Insert(e, SortByCol(es)) else SortByCol(es)
  {
    if b { assert ([e] + es)[1..] == es; } else { assert [] + es == es; }
  }

  lemma SortIfBetween(c: bool, e: Entry, es: seq<Entry>, a: seq<Entry>, b: seq<Entry>)
    requires SortByCol(es) == a + b
    requires c ==> (forall k :: 0 <= k < |a| ==> a[k].col < e.col) && (b == [] || e.col <= b[0].col)
    ensures SortByCol(If(c, e) + es) == a + If(c, e) + b
  {
    SortIf(c, e, es);
    if c { InsertBetween(e, a, b); } else { assert a + [] + b == a + b; }
  }

  /** Five entries, most of them optional, met as west, east, north, south, diagonal. */
  lemma SortFive(north: seq<Entry>, n: Entry, west: seq<Entry>, w: Entry, d: Entry, east: seq<Entry>, e: Entry,
                 south: seq<Entry>, s: Entry)
    requires north in {[], [n]} && west in {[], [w]} && east in {[], [e]} && south in {[], [s]}
    requires north == [] || n.col < d.col
    requires west == [] || (w.col < d.col && (north != [] ==> n.col < w.col))
    requires east == [] || (d.col < e.col && (south != [] ==> e.col <= s.col))
    requires south == [] || d.col < s.col
    ensures SortByCol(west + (east + (north + (south + [d])))) == north + west + [d] + east + south
  {
    var rest, sorted := east + (north + (south + [d])), [d] + east + south;
    SortFour(north, n, d, east, e, south, s, rest);
    SortOptional(west, w, rest, north, sorted, west + rest);
    assert north + west + sorted == north + west + [d] + east + south;
  }

  lemma SortFour(north: seq<Entry>, n: Entry, d: Entry, east: seq<Entry>, e: Entry, south: seq<Entry>, s: Entry,
                 rest: seq<Entry>)
    requires north in {[], [n]} && east in {[], [e]} && south in {[], [s]} && rest == east + (north + (south + [d]))
    requires north == [] || n.col < d.col
    requires east == [] || (d.col < e.col && (south != [] ==> e.col <= s.col))
    requires south == [] || d.col < s.col
    ensures SortByCol(rest) == north + ([d] + east + south)
  {
    var tail := north + (south + [d]);
    SortTail(north, n, d, south, s, tail);
    SortOptional(east, e, tail, north + [d], south, rest);
    Regroup(north, d, east, south);
  }

  lemma Regroup(north: seq<Entry>, d: Entry, east: seq<Entry>, south: seq<Entry>)
    ensures (north + [d]) + east + south == north + ([d] + east + south)
  {
  }

  lemma SortOptional(opt: seq<Entry>, e: Entry, es: seq<Entry>, a: seq<Entry>, b: seq<Entry>, all: seq<Entry>)
    requires opt in {[], [e]} && all == opt + es && SortByCol(es) == a + b
    requires opt == [] || ((forall k :: 0 <= k < |a| ==> a[k].col < e.col) && (b == [] || e.col <= b[0].col))
    ensures SortByCol(all) == a + opt + b
  {
    SortIfBetween(opt != [], e, es, a, b);
    assert If(opt != [], e) == opt;
  }

  lemma SortTail(north: seq<Entry>, n: Entry, d: Entry, south: seq<Entry>, s: Entry, tail: seq<Entry>)
    requires tail == north + (south + [d])
    requires north in {[], [n]} && south in {[], [s]}
    requires (n.col < d.col || north == []) && (d.col < s.col || south == [])
    ensures SortByCol(tail) == (north + [d]) + south
  {
    assert [d][1..] == [] && SortByCol([d]) == [d] + [];
    SortIfBetween(south != [], s, [d], [d], []);
    SortIfBetween(north != [], n, south + [d], [], [d] + south);
    assert If(south != [], s) == south && If(north != [], n) == north;
    assert (north + [d]) + south == [] + north + ([d] + south);
  }

  lemma SortedStencil(n: nat, i: nat, j: nat, at: nat)
    requires i < n && j < n && (i > 0 ==> at >= n) && (j > 0 ==> at >= 1)
    ensures SortByCol(Collected(n, i, j, at)) == Stencil(n, i, j, at)
  {
    var west, east := Entry(Less(at, 1), -1.0), Entry(at + 1, -1.0);
    var north, south := Entry(Less(at, n), -1.0), Entry(at + n, -1.0);
    SortFive(If(i > 0, north), north, If(j > 0, west), west, Entry(at, Degree(n, i, j)), If(j + 1 < n, east), east,
      If(i + 1 < n, south), south);
  }

  method Push(entries: array<Entry>, len: nat, e: Entry) returns (len': nat)
    requires len < entries.Length
    modifies entries
    ensures len' == len + 1 && entries[..len'] == old(entries[..len]) + [e]
  {
    entries[len] := e;
    len' := len + 1;
  }

  method Collect(n: nat, i: nat, j: nat, row: nat) returns (entries: array<Entry>, len: nat)
    requires (i > 0 ==> row >= n) && (j > 0 ==> row >= 1)
    ensures len <= entries.Length == 5 && entries[..len] == Collected(n, i, j, row)
  {
    entries := new Entry[5](_ => Entry(0, 0.0));
    len := 0;
    var diag := 0.0;
    if j > 0 {
      len := Push(entries, len, Entry(row - 1, -1.0));
      diag := diag + 1.0;
    }
    if j + 1 < n {
      len := Push(entries, len, Entry(row + 1, -1.0));
      diag := diag + 1.0;
    }
    if i > 0 {
      len := Push(entries, len, Entry(row - n, -1.0));
      diag := diag + 1.0;
    }
    if i + 1 < n {
      len := Push(entries, len, Entry(row + n, -1.0));
      diag := diag + 1.0;
    }
    len := Push(entries, len, Entry(row, diag));
  }

  /** The matrix of the rows before (i, j). */
  function Before(n: nat, nn: nat, i: nat, j: nat): Matrix { FromRows(nn, Cells(Stencils(n), n, i, j)) }

  function Size(n: nat): nat { At(n, n, 0) }

  function Assembled(n: nat): Matrix { Before(n, Size(n), n, 0) }

  method Assemble(n: nat) returns (m: Matrix)
    ensures m == Assembled(n) && m.nrows == m.ncols == n * n
  {
    AtIsProduct(n, n, 0);
    var nn := n * n;
    var rowPtr: seq<nat>, cols: seq<nat>, vals: seq<real> := [0], [], [];
    for i := 0 to n
      invariant Matrix(At(n, i, 0), nn, rowPtr, cols, vals) == Before(n, nn, i, 0)
    {
      for j := 0 to n
        invariant Matrix(At(n, i, j), nn, rowPtr, cols, vals) == Before(n, nn, i, j)
      {
        cols, vals := AppendPoint(n, nn, i, j, rowPtr, cols, vals);
        rowPtr := rowPtr + [|cols|];
      }
      AtShift(n, i, n);
    }
    m := Matrix(nn, nn, rowPtr, cols, vals);
  }

  method AppendPoint(n: nat, ghost nn: nat, i: nat, j: nat, ghost rowPtr: seq<nat>, cols: seq<nat>, vals: seq<real>)
    returns (cols': seq<nat>, vals': seq<real>)
    requires i < n && j < n && Matrix(At(n, i, j), nn, rowPtr, cols, vals) == Before(n, nn, i, j)
    ensures Matrix(At(n, i, j + 1), nn, rowPtr + [|cols'|], cols', vals') == Before(n, nn, i, j + 1)
  {
    cols', vals' := AppendStencil(n, i, j, cols, vals, Before(n, nn, i, j));
    NextPoint(n, nn, i, j, Extend(Before(n, nn, i, j), Stencil(n, i, j, At(n, i, j))));
  }

  lemma NextPoint(n: nat, nn: nat, i: nat, j: nat, after: Matrix)
    requires after == Extend(Before(n, nn, i, j), Stencil(n, i, j, At(n, i, j)))
    ensures after == Before(n, nn, i, j + 1) && At(n, i, j + 1) == At(n, i, j) + 1
  {
    AtShift(n, i, j);
    AtShift(n, i, j + 1);
    NextRow(nn, Cells(Stencils(n), n, i, j), Cells(Stencils(n), n, i, j + 1), Stencil(n, i, j, At(n, i, j)),
      Before(n, nn, i, j));
  }

  /** The row of (i, j) goes to the end of the arrays of the matrix `before`. */
  method AppendStencil(n: nat, i: nat, j: nat, cols: seq<nat>, vals: seq<real>, ghost before: Matrix)
    returns (cols': seq<nat>, vals': seq<real>)
    requires i < n && j < n && before.colIdx == cols && before.vals == vals
    ensures Matrix(before.nrows + 1, before.ncols, before.rowPtr + [|cols'|], cols', vals') ==
      Extend(before, Stencil(n, i, j, At(n, i, j)))
  {
    var row := i * n + j;
    AtIsProduct(n, i, j);
    GridPoint(n, i, j);
    var entries, len := Collect(n, i, j, row);
    SortedStencil(n, i, j, row);
    cols', vals' := PushRow(cols, vals, SortByCol(entries[..len]));
  }

  lemma StencilIsStrict(n: nat, i: nat, j: nat, at: nat)
    requires i < n && j < n && (i > 0 ==> at >= n) && (j > 0 ==> at >= 1)
    ensures StrictlySorted(Stencil(n, i, j, at))
  {
  }

  lemma StencilFits(n: nat, i: nat, j: nat, at: nat, nn: nat)
    requires at < nn && (j + 1 < n ==> at + 1 < nn) && (i + 1 < n ==> at + n < nn)
    ensures Fit(nn, Stencil(n, i, j, at))
  {
  }

  lemma PointFits(n: nat, i: nat, j: nat, nn: nat, es: seq<Entry>)
    requires i < n && j < n && nn == At(n, n, 0) && es == Stencil(n, i, j, At(n, i, j))
    ensures Fit(nn, es) && StrictlySorted(es)
  {
    GridPoint(n, i, j);
    StencilIsStrict(n, i, j, At(n, i, j));
    StencilFits(n, i, j, At(n, i, j), nn);
  }

  lemma {:induction false} StencilsFit(n: nat, i: nat, j: nat, nn: nat, rows: seq<seq<Entry>>)
    requires i <= n && j <= n && (i == n ==> j == 0) && rows == Cells(Stencils(n), n, i, j) && nn == At(n, n, 0)
    ensures forall r :: 0 <= r < |rows| ==> Fit(nn, rows[r]) && StrictlySorted(rows[r])
    decreases i, j
  {
    if j > 0 {
      StencilsFit(n, i, j - 1, nn, Cells(Stencils(n), n, i, j - 1));
      PointFits(n, i, j - 1, nn, rows[|rows| - 1]);
    } else if i > 0 {
      StencilsFit(n, i - 1, n, nn, rows);
    }
  }

  ghost predicate HasStencil(n: nat, m: Matrix, i: nat, j: nat)
    requires Valid(m)
  {
    At(n, i, j) < m.nrows && Row(m, At(n, i, j)) == Stencil(n, i, j, At(n, i, j))
  }

  /** A matrix over the grid whose row of each point is its stencil. */
  ghost predicate IsGridMatrix(n: nat, m: Matrix) {
    Valid(m) && m.nrows == m.ncols == Size(n) && forall i, j :: 0 <= i < n && 0 <= j < n ==> HasStencil(n, m, i, j)
  }

  /** The assembled matrix is a valid CSR with strictly sorted rows, and the row of (i, j) is its stencil. */
  lemma AssembledRows(n: nat, m: Matrix)
    requires m == Assembled(n)
    ensures IsGridMatrix(n, m) && RowsStrictlySorted(m)
  {
    var rows := Cells(Stencils(n), n, n, 0);
    CellsLength(Stencils(n), n, n, 0);
    StencilsFit(n, n, 0, Size(n), rows);
    FromRowsHasRows(Size(n), rows, m);
    forall i, j | 0 <= i < n && 0 <= j < n ensures HasStencil(n, m, i, j) {
      CellAtIndex(Stencils(n), n, n, 0, i, j, rows, At(n, i, j));
    }
  }
}
