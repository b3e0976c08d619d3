/** What transposition means: the dense matrix, the order of rows, the inverse and the adjoint. */
module TransposeLaws {
  import opened Csr
  import opened CsrTranspose

  // ---- dense matrix --------------------------------------------------------------

  lemma {:induction false} SameValue(s: seq<Nonzero>, i: nat, j: nat)
    ensures ValueAt(ColPart(s, j), i) == ValueAt(RowPart(s, i), j)
  {
    if s != [] {
      var front, z := s[..|s| - 1], s[|s| - 1];
      SameValue(front, i, j);
      ValueOfLonger(ColPart(front, j), z.col == j, Entry(z.row, z.val), i);
      ValueOfLonger(RowPart(front, i), z.row == i, Entry(z.col, z.val), j);
    }
  }

  /** dense(R) is the transpose of dense(P). */
  lemma DenseIsTransposed(p: Matrix, r: Matrix, i: nat, j: nat)
    requires Valid(p) && IsTranspose(p, r) && i < p.nrows && j < p.ncols
    ensures Dense(r, j, i) == Dense(p, i, j)
  {
    RowPartOfRows(p, p.nrows, i, RowPart(All(p), i));
    SameValue(All(p), i, j);
  }

  // ---- order of the rows -----------------------------------------------------------

  ghost predicate RowOrder(s: seq<Nonzero>) { forall a, b :: 0 <= a < b < |s| ==> s[a].row <= s[b].row }

  lemma {:induction false} StorageIsRowOrder(m: Matrix, k: nat)
    requires Valid(m) && k <= m.nrows
    ensures RowOrder(Nonzeros(m, k))
  {
    if k > 0 { StorageIsRowOrder(m, k - 1); }
  }

  lemma {:induction false} ColPartIsSorted(s: seq<Nonzero>, j: nat, part: seq<Entry>, last: nat)
    requires RowOrder(s) && part == ColPart(s, j) && forall a :: 0 <= a < |s| ==> s[a].row <= last
    ensures Sorted(part) && forall k :: 0 <= k < |part| ==> part[k].col <= last
  {
    if s != [] { ColPartIsSorted(s[..|s| - 1], j, ColPart(s[..|s| - 1], j), s[|s| - 1].row); }
  }

  /** How often a row stores column j. */
  function Stored(es: seq<Entry>, j: nat): nat {
    if es == [] then 0 else Stored(es[..|es| - 1], j) + if es[|es| - 1].col == j then 1 else 0
  }

  ghost predicate Once(es: seq<Entry>) { forall j :: Stored(es, j) <= 1 }

  ghost predicate NoDuplicates(m: Matrix)
    requires Valid(m)
  {
    forall i :: 0 <= i < m.nrows ==> Once(Row(m, i))
  }

  lemma StoredOfLonger(es: seq<Entry>, b: bool, e: Entry, j: nat)
    ensures Stored(es + If(b, e), j) == Stored(es, j) + if b && e.col == j then 1 else 0
  {
    if b { assert (es + [e])[..|es|] == es; } else { assert es + [] == es; }
  }

  lemma {:induction false} SameStored(s: seq<Nonzero>, i: nat, j: nat)
    ensures Stored(ColPart(s, j), i) == Stored(RowPart(s, i), j)
  {
    if s != [] {
      var front, z := s[..|s| - 1], s[|s| - 1];
      SameStored(front, i, j);
      StoredOfLonger(ColPart(front, j), z.col == j, Entry(z.row, z.val), i);
      StoredOfLonger(RowPart(front, i), z.row == i, Entry(z.col, z.val), j);
    }
  }

  lemma {:induction false} NeverIffAbsent(es: seq<Entry>, j: nat)
    ensures Stored(es, j) == 0 <==> forall k :: 0 <= k < |es| ==> es[k].col != j
  {
    if es != [] { NeverIffAbsent(es[..|es| - 1], j); }
  }

  lemma {:induction false} StrictIffOnce(es: seq<Entry>)
    requires Sorted(es)
    ensures StrictlySorted(es) <==> Once(es)
  {
    if es != [] {
      var front, c := es[..|es| - 1], es[|es| - 1].col;
      StrictIffOnce(front);
      NeverIffAbsent(front, c);
      forall j ensures Stored(es, j) == Stored(front, j) + if c == j then 1 else 0 {}
      if Once(es) {
        assert Stored(es, c) <= 1;
        forall j ensures Stored(front, j) <= 1 { assert Stored(es, j) <= 1; }
      }
      if StrictlySorted(es) { assert StrictlySorted(front); }
    }
  }

  /** The transpose has sorted rows, strictly sorted exactly when the matrix stores no place twice. */
  lemma TransposeIsSorted(p: Matrix, r: Matrix)
    requires Valid(p) && IsTranspose(p, r)
    ensures RowsSorted(r)
    ensures RowsStrictlySorted(r) <==> NoDuplicates(p)
  {
    var s := All(p);
    StorageIsRowOrder(p, p.nrows);
    forall j | 0 <= j < r.nrows ensures Sorted(Row(r, j)) && (StrictlySorted(Row(r, j)) <==> Once(Row(r, j))) {
      ColPartIsSorted(s, j, ColPart(s, j), p.nrows);
      StrictIffOnce(Row(r, j));
    }
    forall i, j | 0 <= i < p.nrows && 0 <= j < p.ncols ensures Stored(Row(r, j), i) == Stored(Row(p, i), j) {
      RowPartOfRows(p, p.nrows, i, RowPart(s, i));
      SameStored(s, i, j);
    }
    DuplicatesOnBothSides(p, r);
  }

  lemma DuplicatesOnBothSides(p: Matrix, r: Matrix)
    requires Valid(p) && Valid(r) && r.nrows == p.ncols && r.ncols == p.nrows
    requires forall i, j :: 0 <= i < p.nrows && 0 <= j < p.ncols ==> Stored(Row(r, j), i) == Stored(Row(p, i), j)
    ensures NoDuplicates(r) <==> NoDuplicates(p)
  {
    if NoDuplicates(p) {
      forall j, i: nat | 0 <= j < r.nrows ensures Stored(Row(r, j), i) <= 1 {
        if i < p.nrows { assert Once(Row(p, i)); } else { NeverIffAbsent(Row(r, j), i); }
      }
    }
    if NoDuplicates(r) {
      forall i, j: nat | 0 <= i < p.nrows ensures Stored(Row(p, i), j) <= 1 {
        if j < p.ncols { assert Once(Row(r, j)); } else { NeverIffAbsent(Row(p, i), j); }
      }
    }
  }

  // ---- transposing twice -----------------------------------------------------------

  function OfCol(es: seq<Entry>, j: nat): seq<Entry> {
    if es == [] then [] else OfCol(es[..|es| - 1], j) + If(es[|es| - 1].col == j, es[|es| - 1])
  }

  /** The entries of the columns before k, column by column. */
  function ByColumn(es: seq<Entry>, k: nat): seq<Entry> {
    if k == 0 then [] else ByColumn(es, k - 1) + OfCol(es, k - 1)
  }

  lemma OfColOfLonger(es: seq<Entry>, b: bool, e: Entry, j: nat)
    ensures OfCol(es + If(b, e), j) == OfCol(es, j) + If(b && e.col == j, e)
  {
    if b { assert (es + [e])[..|es|] == es; } else { assert es + [] == es; }
  }

  lemma ColPartOfLonger(s: seq<Nonzero>, z: Nonzero, i: nat)
    ensures ColPart(s + [z], i) == ColPart(s, i) + If(z.col == i, Entry(z.row, z.val))
  {
    assert (s + [z])[..|s|] == s;
  }

  /** Column i of the entries that column j of s contributes to the transpose. */
  lemma {:induction false} ThereAndBack(s: seq<Nonzero>, i: nat, j: nat)
    ensures ColPart(InRow(j, ColPart(s, j)), i) == OfCol(RowPart(s, i), j)
  {
    if s != [] {
      var front, z := s[..|s| - 1], s[|s| - 1];
      ThereAndBack(front, i, j);
      OfColOfLonger(RowPart(front, i), z.row == i, Entry(z.col, z.val), j);
      if z.col == j {
        assert InRow(j, ColPart(s, j)) == InRow(j, ColPart(front, j)) + [Nonzero(j, z.row, z.val)];
        ColPartOfLonger(InRow(j, ColPart(front, j)), Nonzero(j, z.row, z.val), i);
      } else {
        assert ColPart(s, j) == ColPart(front, j);
      }
    }
  }

  lemma {:induction false} ColPartConcat(a: seq<Nonzero>, b: seq<Nonzero>, j: nat)
    ensures ColPart(a + b, j) == ColPart(a, j) + ColPart(b, j)
  {
    if b == [] {
      assert a + b == a;
    } else {
      assert (a + b)[..|a + b| - 1] == a + b[..|b| - 1];
      ColPartConcat(a, b[..|b| - 1], j);
    }
  }

  lemma {:induction false} TwiceIsByColumn(p: Matrix, r: Matrix, i: nat, k: nat, part: seq<Entry>)
    requires Valid(p) && IsTranspose(p, r) && i < p.nrows && k <= p.ncols && part == ColPart(Nonzeros(r, k), i)
    ensures part == ByColumn(Row(p, i), k)
  {
    if k > 0 {
      TwiceIsByColumn(p, r, i, k - 1, ColPart(Nonzeros(r, k - 1), i));
      ColPartConcat(Nonzeros(r, k - 1), InRow(k - 1, Row(r, k - 1)), i);
      ThereAndBack(All(p), i, k - 1);
      RowPartOfRows(p, p.nrows, i, RowPart(All(p), i));
    }
  }

  /** For sorted rows, going column by column is going in order. */
  lemma {:induction false} ByColumnOfLonger(es: seq<Entry>, e: Entry, all: seq<Entry>, k: nat, before: seq<Entry>,
                                            after: seq<Entry>)
    requires all == es + [e] && forall a :: 0 <= a < |es| ==> es[a].col <= e.col
    requires before == ByColumn(es, k) && after == ByColumn(all, k)
    ensures after == before + If(e.col < k, e)
  {
    if k > 0 {
      var b, c := ByColumn(es, k - 1), OfCol(es, k - 1);
      ByColumnOfLonger(es, e, all, k - 1, b, ByColumn(all, k - 1));
      LastOfCol(es, e, all, k - 1, c, OfCol(all, k - 1));
      if e.col < k - 1 { NothingBeyond(es, k - 1, c); }
      Interleave(b, c, e, e.col < k - 1, e.col == k - 1);
    }
  }

  lemma LastOfCol(es: seq<Entry>, e: Entry, all: seq<Entry>, j: nat, before: seq<Entry>, after: seq<Entry>)
    requires all == es + [e] && before == OfCol(es, j) && after == OfCol(all, j)
    ensures after == before + If(e.col == j, e)
  {
    assert all[..|es|] == es;
  }

  lemma Interleave(b: seq<Entry>, c: seq<Entry>, e: Entry, early: bool, now: bool)
    requires early ==> c == [] && !now
    ensures (b + If(early, e)) + (c + If(now, e)) == (b + c) + If(early || now, e)
  {
  }

  lemma {:induction false} NothingBeyond(es: seq<Entry>, j: nat, part: seq<Entry>)
    requires part == OfCol(es, j) && forall a :: 0 <= a < |es| ==> es[a].col < j
    ensures part == []
  {
    if es != [] { NothingBeyond(es[..|es| - 1], j, OfCol(es[..|es| - 1], j)); }
  }

  lemma {:induction false} ByColumnOfSorted(es: seq<Entry>, k: nat)
    requires Sorted(es) && forall a :: 0 <= a < |es| ==> es[a].col < k
    ensures ByColumn(es, k) == es
  {
    if es == [] {
      ByColumnOfNothing(k);
    } else {
      ByColumnOfSorted(es[..|es| - 1], k);
      assert es == es[..|es| - 1] + [es[|es| - 1]];
      ByColumnOfLonger(es[..|es| - 1], es[|es| - 1], es, k, es[..|es| - 1], ByColumn(es, k));
    }
  }

  lemma {:induction false} ByColumnOfNothing(k: nat)
    ensures ByColumn([], k) == []
  {
    if k > 0 { ByColumnOfNothing(k - 1); }
  }

  /** Transposing twice gives the original arrays exactly when the rows were sorted. */
  lemma TwiceIsIdentityIffSorted(p: Matrix, r: Matrix, q: Matrix)
    requires Valid(p) && IsTranspose(p, r) && IsTranspose(r, q)
    ensures q == p <==> RowsSorted(p)
  {
    TransposeIsSorted(r, q);
    if RowsSorted(p) {
      forall i | 0 <= i < p.nrows ensures Row(q, i) == Row(p, i) {
        TwiceIsByColumn(p, r, i, p.ncols, Row(q, i));
        ByColumnOfSorted(Row(p, i), p.ncols);
      }
      SameRows(q, p);
    }
  }

  // ---- adjoint -----------------------------------------------------------------------

  type Weight = Nonzero -> real

  type Key = Nonzero -> nat

  function Total(s: seq<Nonzero>, w: Weight): real {
    if s == [] then 0.0 else Total(s[..|s| - 1], w) + w(s[|s| - 1])
  }

  /** The weight of the nonzeros with key j. */
  function KeySum(s: seq<Nonzero>, key: Key, j: nat, w: Weight): real {
    if s == [] then 0.0 else KeySum(s[..|s| - 1], key, j, w) + if key(s[|s| - 1]) == j then w(s[|s| - 1]) else 0.0
  }

  function KeySums(s: seq<Nonzero>, key: Key, k: nat, w: Weight): real {
    if k == 0 then 0.0 else KeySums(s, key, k - 1, w) + KeySum(s, key, k - 1, w)
  }

  lemma {:induction false} KeySumsOfLonger(s: seq<Nonzero>, key: Key, k: nat, w: Weight, before: real)
    requires s != [] && before == KeySums(s[..|s| - 1], key, k, w)
    ensures KeySums(s, key, k, w) == before + if key(s[|s| - 1]) < k then w(s[|s| - 1]) else 0.0
  {
    if k > 0 { KeySumsOfLonger(s, key, k - 1, w, KeySums(s[..|s| - 1], key, k - 1, w)); }
  }

  /** Summing by key, over all keys, is summing. */
  lemma {:induction false} KeySumsAreTotal(s: seq<Nonzero>, key: Key, k: nat, w: Weight)
    requires forall t :: 0 <= t < |s| ==> key(s[t]) < k
    ensures KeySums(s, key, k, w) == Total(s, w)
  {
    if s == [] {
      NoKeys(key, k, w);
    } else {
      KeySumsAreTotal(s[..|s| - 1], key, k, w);
      KeySumsOfLonger(s, key, k, w, Total(s[..|s| - 1], w));
    }
  }

  lemma {:induction false} NoKeys(key: Key, k: nat, w: Weight)
    ensures KeySums([], key, k, w) == 0.0
  {
    if k > 0 { NoKeys(key, k - 1, w); }
  }

  function ByRow(): Key { (z: Nonzero) => z.row }

  function ByCol(): Key { (z: Nonzero) => z.col }

  function PairWeight(mul: Mul, x: seq<real>, y: seq<real>): Weight {
    (z: Nonzero) => mul(Get(y, z.col), mul(z.val, Get(x, z.row)))
  }

  function Scaled(mul: Mul, a: real, x: seq<real>): Entry -> real { (e: Entry) => mul(a, mul(e.val, Get(x, e.col))) }

  lemma {:induction false} ScaledSum(mul: Mul, a: real, x: seq<real>, es: seq<Entry>)
    requires Lawful(mul)
    ensures mul(a, SumOf(es, TimesBy(mul, x))) == SumOf(es, Scaled(mul, a, x))
  {
    if es == [] {
      assert ZeroAt(mul, a);
    } else {
      var front, e := es[..|es| - 1], es[|es| - 1];
      ScaledSum(mul, a, x, front);
      assert DistributesAt(mul, a, SumOf(front, TimesBy(mul, x)), TimesBy(mul, x)(e));
    }
  }

  lemma {:induction false} ColumnSum(s: seq<Nonzero>, j: nat, g: Entry -> real, w: Weight)
    requires forall t :: 0 <= t < |s| && s[t].col == j ==> w(s[t]) == g(Entry(s[t].row, s[t].val))
    ensures SumOf(ColPart(s, j), g) == KeySum(s, ByCol(), j, w)
  {
    if s != [] {
      ColumnSum(s[..|s| - 1], j, g, w);
      SumOfLonger(ColPart(s[..|s| - 1], j), s[|s| - 1].col == j, Entry(s[|s| - 1].row, s[|s| - 1].val), g);
    }
  }

  lemma {:induction false} RowSum(s: seq<Nonzero>, i: nat, g: Entry -> real, w: Weight)
    requires forall t :: 0 <= t < |s| && s[t].row == i ==> w(s[t]) == g(Entry(s[t].col, s[t].val))
    ensures SumOf(RowPart(s, i), g) == KeySum(s, ByRow(), i, w)
  {
    if s != [] {
      RowSum(s[..|s| - 1], i, g, w);
      SumOfLonger(RowPart(s[..|s| - 1], i), s[|s| - 1].row == i, Entry(s[|s| - 1].col, s[|s| - 1].val), g);
    }
  }

  ghost predicate TermAt(mul: Mul, a: seq<real>, b: seq<real>, s: seq<Nonzero>, key: Key, w: Weight, j: nat)
    requires j < |a| == |b|
  {
    mul(a[j], b[j]) == KeySum(s, key, j, w)
  }

  lemma {:induction false} DotIsKeySums(mul: Mul, a: seq<real>, b: seq<real>, s: seq<Nonzero>, key: Key, w: Weight)
    requires |a| == |b| && forall j :: 0 <= j < |a| ==> TermAt(mul, a, b, s, key, w, j)
    ensures DotBy(mul, a, b) == KeySums(s, key, |a|, w)
  {
    if a != [] {
      var n := |a| - 1;
      forall j | 0 <= j < n ensures TermAt(mul, a[..n], b[..n], s, key, w, j) {
        assert TermAt(mul, a, b, s, key, w, j);
      }
      DotIsKeySums(mul, a[..n], b[..n], s, key, w);
      assert TermAt(mul, a, b, s, key, w, n);
    }
  }

  lemma SameWeight(mul: Mul, x: seq<real>, y: seq<real>, z: Nonzero)
    requires Lawful(mul)
    ensures PairWeight(mul, x, y)(z) == Scaled(mul, Get(y, z.col), x)(Entry(z.row, z.val))
    ensures PairWeight(mul, x, y)(z) == Scaled(mul, Get(x, z.row), y)(Entry(z.col, z.val))
  {
    assert CommutesAt(mul, Get(x, z.row), z.val, Get(y, z.col));
  }

  lemma LeftTerm(mul: Mul, p: Matrix, r: Matrix, x: seq<real>, y: seq<real>, j: nat)
    requires Lawful(mul) && Valid(p) && IsTranspose(p, r) && |y| == p.ncols && j < p.ncols
    ensures TermAt(mul, ProductBy(mul, r, x), y, All(p), ByCol(), PairWeight(mul, x, y), j)
  {
    var s := All(p);
    ScaledSum(mul, y[j], x, ColPart(s, j));
    forall t | 0 <= t < |s| && s[t].col == j
      ensures PairWeight(mul, x, y)(s[t]) == Scaled(mul, y[j], x)(Entry(s[t].row, s[t].val))
    {
      SameWeight(mul, x, y, s[t]);
    }
    ColumnSum(s, j, Scaled(mul, y[j], x), PairWeight(mul, x, y));
    assert CommutesAt(mul, y[j], 0.0, ProductBy(mul, r, x)[j]);
  }

  lemma RightTerm(mul: Mul, p: Matrix, x: seq<real>, y: seq<real>, i: nat)
    requires Lawful(mul) && Valid(p) && |x| == p.nrows && i < p.nrows
    ensures TermAt(mul, x, ProductBy(mul, p, y), All(p), ByRow(), PairWeight(mul, x, y), i)
  {
    var s, w, g := All(p), PairWeight(mul, x, y), Scaled(mul, x[i], y);
    ScaledSum(mul, x[i], y, RowPart(s, i));
    forall t | 0 <= t < |s| && s[t].row == i ensures w(s[t]) == g(Entry(s[t].col, s[t].val)) {
      SameWeight(mul, x, y, s[t]);
    }
    RowSum(s, i, g, w);
    RowPartOfRows(p, p.nrows, i, RowPart(s, i));
  }

  lemma ByKey(mul: Mul, a: seq<real>, b: seq<real>, s: seq<Nonzero>, key: Key, w: Weight)
    requires |a| == |b| && forall j :: 0 <= j < |a| ==> TermAt(mul, a, b, s, key, w, j)
    requires forall t :: 0 <= t < |s| ==> key(s[t]) < |a|
    ensures DotBy(mul, a, b) == Total(s, w)
  {
    DotIsKeySums(mul, a, b, s, key, w);
    KeySumsAreTotal(s, key, |a|, w);
  }

  /** Both sides sum the same weights, once column by column and once row by row. */
  lemma AdjointBy(mul: Mul, p: Matrix, r: Matrix, x: seq<real>, y: seq<real>)
    requires Lawful(mul) && Valid(p) && IsTranspose(p, r) && |x| == p.nrows && |y| == p.ncols
    ensures DotBy(mul, ProductBy(mul, r, x), y) == DotBy(mul, x, ProductBy(mul, p, y))
  {
    var s, w := All(p), PairWeight(mul, x, y);
    forall j | 0 <= j < p.ncols ensures TermAt(mul, ProductBy(mul, r, x), y, s, ByCol(), w, j) {
      LeftTerm(mul, p, r, x, y, j);
    }
    ByKey(mul, ProductBy(mul, r, x), y, s, ByCol(), w);
    forall i | 0 <= i < p.nrows ensures TermAt(mul, x, ProductBy(mul, p, y), s, ByRow(), w, i) {
      RightTerm(mul, p, x, y, i);
    }
    ByKey(mul, x, ProductBy(mul, p, y), s, ByRow(), w);
  }

  /** (R x) . y == x . (P y). */
  lemma TransposeIsAdjoint(p: Matrix, r: Matrix, x: seq<real>, y: seq<real>)
    requires Valid(p) && IsTranspose(p, r) && |x| == p.nrows && |y| == p.ncols
    ensures Dot(Product(r, x), y) == Dot(x, Product(p, y))
  {
    RealMulIsLawful();
    AdjointBy(RealMul(), p, r, x, y);
    ProductByIsProduct(r, x);
    ProductByIsProduct(p, y);
    DotByIsDot(Product(r, x), y);
    DotByIsDot(x, Product(p, y));
  }
}
