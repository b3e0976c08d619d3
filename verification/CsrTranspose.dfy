/** Counting-sort transposition of a CSR matrix. */
module CsrTranspose {
  import opened Csr

  function Count(cols: seq<nat>, j: nat): nat {
    if cols == [] then 0 else Count(cols[..|cols| - 1], j) + if cols[|cols| - 1] == j then 1 else 0
  }

  /** The number of nonzeros in the columns before k. */
  function Start(cols: seq<nat>, k: nat): nat { if k == 0 then 0 else Start(cols, k - 1) + Count(cols, k - 1) }

  function Starts(cols: seq<nat>, nc: nat): seq<nat> { seq(nc + 1, k requires 0 <= k => Start(cols, k)) }

  ghost predicate Counted(counts: seq<nat>, cols: seq<nat>) {
    |counts| > 0 && counts[0] == 0 && forall k :: 0 < k < |counts| ==> counts[k] == Count(cols, k - 1)
  }

  lemma CountOne(counts: seq<nat>, cols: seq<nat>, t: nat, c: nat)
    requires t < |cols| && c == cols[t] && c + 1 < |counts| && Counted(counts, cols[..t])
    ensures Counted(counts[c + 1 := counts[c + 1] + 1], cols[..t + 1])
  {
    assert cols[..t + 1][..t] == cols[..t];
  }

  /** Prefix sums up to position i, plain counts after it. */
  ghost predicate Summed(counts: seq<nat>, cols: seq<nat>, i: nat) {
    && (forall k :: 0 <= k <= i && k < |counts| ==> counts[k] == Start(cols, k))
    && (forall k :: i < k < |counts| ==> counts[k] == Count(cols, k - 1))
  }

  lemma SumOne(counts: seq<nat>, cols: seq<nat>, i: nat)
    requires i + 1 < |counts| && Summed(counts, cols, i)
    ensures Summed(counts[i + 1 := counts[i + 1] + counts[i]], cols, i + 1)
  {
  }

  /** Counting, then prefix sums in place. */
  method RowPointers(cols: seq<nat>, nc: nat) returns (counts: array<nat>)
    requires forall t :: 0 <= t < |cols| ==> cols[t] < nc
    ensures fresh(counts) && counts.Length == nc + 1
    ensures counts[..] == Starts(cols, nc)
  {
    counts := new nat[nc + 1](_ => 0);
    for t := 0 to |cols|
      invariant Counted(counts[..], cols[..t])
    {
      CountOne(counts[..], cols, t, cols[t]);
      counts[cols[t] + 1] := counts[cols[t] + 1] + 1;
    }
    assert cols[..|cols|] == cols;
    for i := 0 to nc
      invariant Summed(counts[..], cols, i)
    {
      SumOne(counts[..], cols, i);
      counts[i + 1] := counts[i + 1] + counts[i];
    }
    assert Summed(counts[..], cols, nc);
  }

  /** Row j of r lists the entries of column j of p in storage order. */
  ghost predicate IsTranspose(p: Matrix, r: Matrix)
    requires Valid(p)
  {
    && Valid(r) && r.nrows == p.ncols && r.ncols == p.nrows
    && forall j :: 0 <= j < p.ncols ==> Row(r, j) == ColPart(All(p), j)
  }

  /** The slots from lo on hold these entries. */
  ghost predicate Filled(es: seq<Entry>, lo: nat, rc: seq<nat>, rv: seq<real>) {
    lo + |es| <= |rc| == |rv| && forall k :: 0 <= k < |es| ==> rc[lo + k] == es[k].col && rv[lo + k] == es[k].val
  }

  /** The entries seen so far stand in their columns' slots, and each cursor is behind the last of them. */
  ghost predicate Placed(s: seq<Nonzero>, starts: seq<nat>, rc: seq<nat>, rv: seq<real>, next: seq<nat>) {
    && |next| == |starts|
    && forall j :: 0 <= j < |starts| - 1 ==>
      Filled(ColPart(s, j), starts[j], rc, rv) && next[j] == starts[j] + |ColPart(s, j)|
  }

  /** Consecutive slots, just enough for every column. */
  ghost predicate Layout(s: seq<Nonzero>, starts: seq<nat>, n: nat) {
    && |starts| > 0 && starts[0] == 0 && Monotone(starts) && starts[|starts| - 1] == n == |s|
    && (forall j :: 0 <= j < |starts| - 1 ==> starts[j + 1] == starts[j] + |ColPart(s, j)|)
    && forall t :: 0 <= t < |s| ==> s[t].col < |starts| - 1
  }

  /** The result arrays and the cursors while entries are being placed. */
  datatype Slots = Slots(rc: seq<nat>, rv: seq<real>, next: seq<nat>)

  predicate HasSlot(st: Slots, z: Nonzero) { z.col < |st.next| && st.next[z.col] < |st.rc| == |st.rv| }

  function Put(st: Slots, z: Nonzero): Slots {
    if HasSlot(st, z) then
      var dst := st.next[z.col];
      Slots(st.rc[dst := z.row], st.rv[dst := z.val], st.next[z.col := dst + 1])
    else st
  }

  function PutAll(st: Slots, s: seq<Nonzero>): Slots {
    if s == [] then st else Put(PutAll(st, s[..|s| - 1]), s[|s| - 1])
  }

  /** The state after the first t entries of p. */
  ghost function After(p: Matrix, t: nat): Slots
    requires Valid(p) && t <= |p.colIdx|
  {
    PutAll(Slots(seq(|p.colIdx|, _ => 0), seq(|p.colIdx|, _ => 0.0), Starts(p.colIdx, p.ncols)), All(p)[..t])
  }

  /** An entry goes to the cursor of its column. */
  method Place(rc: array<nat>, rv: array<real>, next: array<nat>, i: nat, j: nat, v: real)
    requires rc != next && HasSlot(Slots(rc[..], rv[..], next[..]), Nonzero(i, j, v))
    modifies rc, rv, next
    ensures Slots(rc[..], rv[..], next[..]) == Put(old(Slots(rc[..], rv[..], next[..])), Nonzero(i, j, v))
  {
    var dst := next[j];
    rc[dst] := i;
    rv[dst] := v;
    next[j] := next[j] + 1;
  }

  method Transpose(p: Matrix) returns (r: Matrix, cursors: array<nat>)
    requires Valid(p)
    ensures IsTranspose(p, r)
    ensures fresh(cursors) && cursors.Length == p.ncols + 1
    ensures forall j :: 0 <= j < p.ncols ==> cursors[j] == r.rowPtr[j + 1]
  {
    var nnz := |p.colIdx|;
    var counts := RowPointers(p.colIdx, p.ncols);
    var starts := counts[..];
    var rc, rv := new nat[nnz](_ => 0), new real[nnz](_ => 0.0);
    cursors := new nat[p.ncols + 1](k requires 0 <= k < |starts| => starts[k]);
    assert After(p, 0) == Slots(rc[..], rv[..], cursors[..]);
    for i := 0 to p.nrows
      invariant After(p, p.rowPtr[i]) == Slots(rc[..], rv[..], cursors[..])
    {
      for t := p.rowPtr[i] to p.rowPtr[i + 1]
        invariant After(p, t) == Slots(rc[..], rv[..], cursors[..])
      {
        AfterOne(p, i, t);
        Place(rc, rv, cursors, i, p.colIdx[t], p.vals[t]);
      }
    }
    r := Matrix(p.ncols, p.nrows, starts, rc[..], rv[..]);
    AllPlaced(p, r, cursors[..]);
  }

  lemma AfterOne(p: Matrix, i: nat, t: nat)
    requires Valid(p) && i < p.nrows && p.rowPtr[i] <= t < p.rowPtr[i + 1]
    ensures HasSlot(After(p, t), Nonzero(i, p.colIdx[t], p.vals[t]))
    ensures After(p, t + 1) == Put(After(p, t), Nonzero(i, p.colIdx[t], p.vals[t]))
  {
    NonzeroAt(p, i, t);
    AfterIsPlaced(p, t);
    StartsAreLayout(p, Starts(p.colIdx, p.ncols));
    CursorIsFree(All(p), t, Starts(p.colIdx, p.ncols), |p.colIdx|, p.colIdx[t], p.colIdx[t]);
    assert All(p)[..t + 1][..t] == All(p)[..t];
  }

  ghost predicate PlacedSlots(p: Matrix, t: nat, st: Slots)
    requires Valid(p) && t <= |p.colIdx|
  {
    |st.rc| == |st.rv| == |p.colIdx| && Placed(All(p)[..t], Starts(p.colIdx, p.ncols), st.rc, st.rv, st.next)
  }

  lemma {:induction false} AfterIsPlaced(p: Matrix, t: nat)
    requires Valid(p) && t <= |p.colIdx|
    ensures PlacedSlots(p, t, After(p, t))
  {
    var starts := Starts(p.colIdx, p.ncols);
    StartsAreLayout(p, starts);
    if t == 0 {
      NothingPlaced([], starts, After(p, 0).rc, After(p, 0).rv, starts);
    } else {
      AfterIsPlaced(p, t - 1);
      var st, z := After(p, t - 1), All(p)[t - 1];
      PlaceOne(All(p), t - 1, starts, st.rc, st.rv, st.next, z, st.next[z.col]);
      assert All(p)[..t][..t - 1] == All(p)[..t - 1];
    }
  }

  lemma AllPlaced(p: Matrix, r: Matrix, next: seq<nat>)
    requires Valid(p) && r == Matrix(p.ncols, p.nrows, Starts(p.colIdx, p.ncols), r.colIdx, r.vals)
    requires After(p, |p.colIdx|) == Slots(r.colIdx, r.vals, next)
    ensures IsTranspose(p, r) && |next| == p.ncols + 1 && forall j :: 0 <= j < p.ncols ==> next[j] == r.rowPtr[j + 1]
  {
    AfterIsPlaced(p, |p.colIdx|);
    assert All(p)[..|p.colIdx|] == All(p);
    StartsAreLayout(p, r.rowPtr);
    PlacedIsTranspose(p, r, next);
  }

  lemma NothingPlaced(s: seq<Nonzero>, starts: seq<nat>, rc: seq<nat>, rv: seq<real>, next: seq<nat>)
    requires s == [] && next == starts && |starts| > 0 && Monotone(starts) && starts[|starts| - 1] == |rc| == |rv|
    ensures Placed(s, starts, rc, rv, next)
  {
  }

  lemma {:induction false} ColPartShrinks(s: seq<Nonzero>, t: nat, j: nat)
    requires t <= |s|
    ensures |ColPart(s[..t], j)| <= |ColPart(s, j)|
    decreases |s| - t
  {
    if t < |s| {
      ColPartShrinks(s, t + 1, j);
      assert s[..t + 1][..t] == s[..t];
    } else {
      assert s[..t] == s;
    }
  }

  lemma ColPartGrows(s: seq<Nonzero>, t: nat, j: nat)
    requires t < |s|
    ensures ColPart(s[..t + 1], j) == ColPart(s[..t], j) + if s[t].col == j then [Entry(s[t].row, s[t].val)] else []
    ensures |ColPart(s[..t + 1], j)| <= |ColPart(s, j)|
  {
    assert s[..t + 1][..t] == s[..t];
    ColPartShrinks(s, t + 1, j);
  }

  lemma FilledElsewhere(es: seq<Entry>, lo: nat, rc: seq<nat>, rv: seq<real>, dst: nat, c: nat, v: real)
    requires Filled(es, lo, rc, rv) && dst < |rc| && (dst < lo || dst >= lo + |es|)
    ensures Filled(es, lo, rc[dst := c], rv[dst := v])
  {
  }

  lemma FilledNext(es: seq<Entry>, lo: nat, rc: seq<nat>, rv: seq<real>, dst: nat, e: Entry)
    requires Filled(es, lo, rc, rv) && dst == lo + |es| < |rc|
    ensures Filled(es + [e], lo, rc[dst := e.col], rv[dst := e.val])
  {
  }

  /** Where a column's cursor stands, and that no other column has its slot. */
  lemma CursorIsFree(s: seq<Nonzero>, t: nat, starts: seq<nat>, n: nat, c: nat, j: nat)
    requires Layout(s, starts, n) && t < |s| && c == s[t].col && j < |starts| - 1
    ensures c < |starts| - 1 && starts[c] + |ColPart(s[..t], c)| < n
    ensures var dst := starts[c] + |ColPart(s[..t], c)|;
      j == c || dst < starts[j] || dst >= starts[j] + |ColPart(s[..t], j)|
  {
    ColPartGrows(s, t, c);
    ColPartGrows(s, t, j);
    assert starts[c + 1] <= n;
    if j < c { assert starts[j + 1] <= starts[c]; }
    if j > c { assert starts[c + 1] <= starts[j]; }
  }

  /** Writing the next nonzero at its column's cursor fills a free slot of that column. */
  lemma PlaceOne(s: seq<Nonzero>, t: nat, starts: seq<nat>, rc: seq<nat>, rv: seq<real>, next: seq<nat>, z: Nonzero,
                 dst: nat)
    requires Layout(s, starts, |rc|) && t < |s| && Placed(s[..t], starts, rc, rv, next)
    requires z == s[t] && z.col < |next| && dst == next[z.col]
    ensures dst < |rc| == |rv|
    ensures Placed(s[..t + 1], starts, rc[dst := z.row], rv[dst := z.val], next[z.col := dst + 1])
  {
    CursorIsFree(s, t, starts, |rc|, z.col, z.col);
    forall j | 0 <= j < |starts| - 1
      ensures Filled(ColPart(s[..t + 1], j), starts[j], rc[dst := z.row], rv[dst := z.val])
      ensures next[z.col := dst + 1][j] == starts[j] + |ColPart(s[..t + 1], j)|
    {
      CursorIsFree(s, t, starts, |rc|, z.col, j);
      ColPartGrows(s, t, j);
      if j == z.col {
        FilledNext(ColPart(s[..t], j), starts[j], rc, rv, dst, Entry(z.row, z.val));
      } else {
        FilledElsewhere(ColPart(s[..t], j), starts[j], rc, rv, dst, z.row, z.val);
      }
    }
  }

  lemma {:induction false} CountIsColPart(p: Matrix, t: nat, j: nat)
    requires Valid(p) && t <= |p.colIdx|
    ensures Count(p.colIdx[..t], j) == |ColPart(All(p)[..t], j)|
  {
    if t > 0 {
      CountIsColPart(p, t - 1, j);
      assert p.colIdx[..t][..t - 1] == p.colIdx[..t - 1] && All(p)[..t][..t - 1] == All(p)[..t - 1];
    }
  }

  lemma {:induction false} StartMonotone(cols: seq<nat>, i: nat, k: nat)
    requires i <= k
    ensures Start(cols, i) <= Start(cols, k)
  {
    if i < k { StartMonotone(cols, i, k - 1); }
  }

  lemma {:induction false} StartCountsAll(cols: seq<nat>, k: nat)
    requires forall t :: 0 <= t < |cols| ==> cols[t] < k
    ensures Start(cols, k) == |cols|
  {
    if cols == [] {
      NoneBefore(k);
    } else {
      StartCountsAll(cols[..|cols| - 1], k);
      StartWithLast(cols, k);
    }
  }

  lemma {:induction false} NoneBefore(k: nat)
    ensures Start([], k) == 0
  {
    if k > 0 { NoneBefore(k - 1); }
  }

  lemma {:induction false} StartWithLast(cols: seq<nat>, k: nat)
    requires cols != []
    ensures Start(cols, k) == Start(cols[..|cols| - 1], k) + if cols[|cols| - 1] < k then 1 else 0
  {
    if k > 0 { StartWithLast(cols, k - 1); }
  }

  lemma StartsAreLayout(p: Matrix, starts: seq<nat>)
    requires Valid(p) && starts == Starts(p.colIdx, p.ncols)
    ensures Layout(All(p), starts, |p.colIdx|)
  {
    forall i, k | 0 <= i <= k < |starts| ensures starts[i] <= starts[k] { StartMonotone(p.colIdx, i, k); }
    StartCountsAll(p.colIdx, p.ncols);
    assert p.colIdx[..|p.colIdx|] == p.colIdx && All(p)[..|p.colIdx|] == All(p);
    forall j | 0 <= j < p.ncols ensures starts[j + 1] == starts[j] + |ColPart(All(p), j)| {
      CountIsColPart(p, |p.colIdx|, j);
    }
  }

  lemma {:induction false} ColPartBounds(s: seq<Nonzero>, j: nat, n: nat)
    requires forall t :: 0 <= t < |s| ==> s[t].row < n
    ensures forall k :: 0 <= k < |ColPart(s, j)| ==> ColPart(s, j)[k].col < n
  {
    if s != [] { ColPartBounds(s[..|s| - 1], j, n); }
  }

  lemma PlacedIsTranspose(p: Matrix, r: Matrix, next: seq<nat>)
    requires Valid(p) && r.nrows == p.ncols && r.ncols == p.nrows && |r.rowPtr| == r.nrows + 1 && |r.colIdx| == |r.vals|
    requires Layout(All(p), r.rowPtr, |r.colIdx|) && Placed(All(p), r.rowPtr, r.colIdx, r.vals, next)
    ensures IsTranspose(p, r) && forall j :: 0 <= j < p.ncols ==> next[j] == r.rowPtr[j + 1]
  {
    forall t | 0 <= t < |r.colIdx| ensures r.colIdx[t] < r.ncols {
      var j := SlotOwner(r.rowPtr, t, r.nrows);
      ColPartBounds(All(p), j, p.nrows);
      assert Filled(ColPart(All(p), j), r.rowPtr[j], r.colIdx, r.vals);
      assert r.colIdx[t] == ColPart(All(p), j)[t - r.rowPtr[j]].col;
    }
    forall j | 0 <= j < p.ncols ensures Row(r, j) == ColPart(All(p), j) {
      assert Filled(ColPart(All(p), j), r.rowPtr[j], r.colIdx, r.vals);
    }
  }

  /** The row that position t belongs to. */
  lemma {:induction false} SlotOwner(ptr: seq<nat>, t: nat, n: nat) returns (j: nat)
    requires n < |ptr| && ptr[0] == 0 && t < ptr[n]
    ensures j < n && ptr[j] <= t < ptr[j + 1]
  {
    if ptr[n - 1] <= t { j := n - 1; } else { j := SlotOwner(ptr, t, n - 1); }
  }

  /** The arrays are determined. */
  lemma TransposeIsUnique(p: Matrix, r: Matrix, r': Matrix)
    requires Valid(p) && IsTranspose(p, r) && IsTranspose(p, r')
    ensures r == r'
  {
    SameRows(r, r');
  }
}
