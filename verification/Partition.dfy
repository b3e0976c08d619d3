/** How rows are dealt to ranks: the balanced partition, and the randomly perturbed one of the benchmark. */
module Partition {
  import opened Basics

  function Sum(c: seq<nat>): nat { if c == [] then 0 else Sum(c[..|c| - 1]) + c[|c| - 1] }

  /** The partial sums of c, from 0 to its total. */
  function Prefix(c: seq<nat>): (p: seq<nat>)
    ensures |p| == |c| + 1 && p[|c|] == Sum(c)
  {
    if c == [] then [0] else Prefix(c[..|c| - 1]) + [Sum(c)]
  }

  /** Row ranges [ptr[r], ptr[r+1]) of consecutive ranks that cover the rows 0 to n. */
  ghost predicate IsPartition(ptr: seq<nat>, n: nat, size: nat) {
    |ptr| == size + 1 && ptr[0] == 0 && ptr[size] == n && forall a, b :: 0 <= a <= b <= size ==> ptr[a] <= ptr[b]
  }

  lemma {:induction false} PrefixIsPartition(c: seq<nat>, p: seq<nat>)
    requires p == Prefix(c)
    ensures IsPartition(p, Sum(c), |c|) && forall r :: 0 <= r < |c| ==> p[r + 1] == p[r] + c[r]
  {
    if c != [] { PrefixIsPartition(c[..|c| - 1], Prefix(c[..|c| - 1])); }
  }

  // ---- balanced --------------------------------------------------------------------

  function Share(base: nat, rem: nat, r: nat): nat { base + if r < rem then 1 else 0 }

  function Shares(base: nat, rem: nat, size: nat): seq<nat> { seq(size, r requires 0 <= r => Share(base, rem, r)) }

  lemma {:induction false} SumOfShares(base: nat, rem: nat, size: nat)
    ensures Sum(Shares(base, rem, size)) == size * base + Min(size, rem)
  {
    if size > 0 {
      SumOfShares(base, rem, size - 1);
      assert Shares(base, rem, size)[..size - 1] == Shares(base, rem, size - 1);
      assert size * base == (size - 1) * base + base;
    }
  }

  lemma SharesCover(n: nat, size: nat)
    requires size > 0
    ensures Sum(Shares(n / size, n % size, size)) == n
  {
    SumOfShares(n / size, n % size, size);
  }

  lemma SharesStep(base: nat, rem: nat, r: nat)
    ensures Prefix(Shares(base, rem, r + 1)) == Prefix(Shares(base, rem, r))
      + [Sum(Shares(base, rem, r)) + Share(base, rem, r)]
  {
    assert Shares(base, rem, r + 1)[..r] == Shares(base, rem, r);
  }

  method PartitionBalanced(n: nat, size: nat) returns (out: seq<nat>)
    requires size > 0
    ensures out == Prefix(Shares(n / size, n % size, size))
  {
    var base, rem := n / size, n % size;
    out := [0];
    for rank := 0 to size
      invariant out == Prefix(Shares(base, rem, rank))
    {
      SharesStep(base, rem, rank);
      var take := base + if rank < rem then 1 else 0;
      out := out + [out[rank] + take];
    }
  }

  lemma EvenFrom(base: nat, rem: nat, size: nat, out: seq<nat>)
    requires out == Prefix(Shares(base, rem, size))
    ensures IsPartition(out, Sum(Shares(base, rem, size)), size)
    ensures forall a, b :: 0 <= a < size && 0 <= b < size ==> out[a + 1] - out[a] <= out[b + 1] - out[b] + 1
  {
    PrefixIsPartition(Shares(base, rem, size), out);
  }

  /** The balanced ranges cover the rows once, and no two ranks differ by more than one row. */
  lemma BalancedIsPartition(n: nat, size: nat, out: seq<nat>)
    requires size > 0 && out == Prefix(Shares(n / size, n % size, size))
    ensures IsPartition(out, n, size)
    ensures forall a, b :: 0 <= a < size && 0 <= b < size ==> out[a + 1] - out[a] <= out[b + 1] - out[b] + 1
  {
    SharesCover(n, size);
    EvenFrom(n / size, n % size, size, out);
  }

  // ---- perturbed by random draws -----------------------------------------------------

  type Draw = (nat, nat)

  /** One row moves from chunk i to chunk j, unless i would run empty. */
  function Move(c: seq<nat>, d: Draw): seq<nat>
    requires d.0 < |c| && d.1 < |c|
  {
    if d.0 != d.1 && c[d.0] > 1 then c[d.0 := c[d.0] - 1][d.1 := c[d.1] + 1] else c
  }

  function MoveAll(c: seq<nat>, ds: seq<Draw>): (c': seq<nat>)
    requires forall k :: 0 <= k < |ds| ==> ds[k].0 < |c| && ds[k].1 < |c|
    ensures |c'| == |c|
  {
    if ds == [] then c else Move(MoveAll(c, ds[..|ds| - 1]), ds[|ds| - 1])
  }

  lemma {:induction false} SumOfUpdate(c: seq<nat>, i: nat, v: nat, c': seq<nat>)
    requires i < |c| && c' == c[i := v]
    ensures Sum(c') == Sum(c) - c[i] + v
  {
    var n := |c| - 1;
    if i == n {
      assert c'[..n] == c[..n];
    } else {
      SumOfUpdate(c[..n], i, v, c'[..n]);
    }
  }

  lemma MoveConserves(c: seq<nat>, d: Draw, c': seq<nat>)
    requires d.0 < |c| && d.1 < |c| && c' == Move(c, d)
    ensures |c'| == |c| && Sum(c') == Sum(c) && forall r :: 0 <= r < |c| && c[r] > 0 ==> c'[r] > 0
  {
    if d.0 != d.1 && c[d.0] > 1 {
      var less := c[d.0 := c[d.0] - 1];
      SumOfUpdate(c, d.0, c[d.0] - 1, less);
      SumOfUpdate(less, d.1, c[d.1] + 1, c');
    }
  }

  /** Moves conserve the rows and empty no chunk. */
  lemma {:induction false} MovesConserve(c: seq<nat>, ds: seq<Draw>)
    requires forall k :: 0 <= k < |ds| ==> ds[k].0 < |c| && ds[k].1 < |c|
    ensures Sum(MoveAll(c, ds)) == Sum(c)
    ensures forall r :: 0 <= r < |c| && c[r] > 0 ==> MoveAll(c, ds)[r] > 0
  {
    if ds != [] {
      MovesConserve(c, ds[..|ds| - 1]);
      MoveConserves(MoveAll(c, ds[..|ds| - 1]), ds[|ds| - 1], MoveAll(c, ds));
    }
  }

  // ---- what a draw does ---------------------------------------------------------------

  lemma {:induction false} PrefixAt(c: seq<nat>, k: nat)
    requires k <= |c|
    ensures Prefix(c)[k] == Sum(c[..k])
  {
    if k == |c| {
      assert c[..k] == c;
    } else {
      PrefixAt(c[..|c| - 1], k);
      assert c[..|c| - 1][..k] == c[..k];
    }
  }

  lemma PrefixOfUpdate(c: seq<nat>, i: nat, v: nat, c': seq<nat>, k: nat)
    requires i < |c| && c' == c[i := v] && k <= |c|
    ensures Prefix(c')[k] == Prefix(c)[k] + if i < k then v - c[i] else 0
  {
    PrefixAt(c, k);
    PrefixAt(c', k);
    if i < k { SumOfUpdate(c[..k], i, v, c'[..k]); } else { assert c'[..k] == c[..k]; }
  }

  /** How a row that goes from chunk i to chunk j shifts boundary k: the boundaries between the two chunks go
      down by one if i < j, and up by one if j < i. */
  function Shift(i: nat, j: nat, k: nat): int { if i < k <= j then -1 else if j < k <= i then 1 else 0 }

  lemma OneRowShifts(c: seq<nat>, i: nat, j: nat, k: nat, less: seq<nat>, c': seq<nat>)
    requires i < |c| && j < |c| && k <= |c| && i != j && c[i] > 1
    requires less == c[i := c[i] - 1] && c' == less[j := less[j] + 1]
    ensures Prefix(c')[k] == Prefix(c)[k] + Shift(i, j, k)
  {
    PrefixOfUpdate(c, i, c[i] - 1, less, k);
    PrefixOfUpdate(less, j, less[j] + 1, c', k);
  }

  /** A draw (i, j) shifts the boundaries exactly if i != j and chunk i has more than one row. */
  lemma DrawShiftsBoundaries(c: seq<nat>, i: nat, j: nat, k: nat, moved: seq<nat>)
    requires i < |c| && j < |c| && k <= |c| && moved == Move(c, (i, j))
    ensures |moved| == |c|
    ensures i != j && c[i] > 1 ==> Prefix(moved)[k] == Prefix(c)[k] + Shift(i, j, k)
    ensures i == j || c[i] <= 1 ==> moved == c
  {
    if i != j && c[i] > 1 { OneRowShifts(c, i, j, k, c[i := c[i] - 1], moved); }
  }

  /** The k-th draw names two chunks, the first of which has more than one row at that time. */
  ghost predicate Effective(c: seq<nat>, ds: seq<Draw>, k: nat)
    requires k < |ds| && forall k :: 0 <= k < |ds| ==> ds[k].0 < |c| && ds[k].1 < |c|
  {
    ds[k].0 != ds[k].1 && MoveAll(c, ds[..k])[ds[k].0] > 1
  }

  /** How many of the first n draws take a row from chunk r. */
  ghost function Taken(c: seq<nat>, ds: seq<Draw>, n: nat, r: nat): nat
    requires n <= |ds| && forall k :: 0 <= k < |ds| ==> ds[k].0 < |c| && ds[k].1 < |c|
  {
    if n == 0 then 0 else Taken(c, ds, n - 1, r) + if Effective(c, ds, n - 1) && ds[n - 1].0 == r then 1 else 0
  }

  /** How many of the first n draws give a row to chunk r. */
  ghost function Given(c: seq<nat>, ds: seq<Draw>, n: nat, r: nat): nat
    requires n <= |ds| && forall k :: 0 <= k < |ds| ==> ds[k].0 < |c| && ds[k].1 < |c|
  {
    if n == 0 then 0 else Given(c, ds, n - 1, r) + if Effective(c, ds, n - 1) && ds[n - 1].1 == r then 1 else 0
  }

  /** After n draws chunk r is what it was, with the rows given and without the rows taken. */
  lemma {:induction false} DrawsAddUp(c: seq<nat>, ds: seq<Draw>, n: nat, r: nat)
    requires n <= |ds| && r < |c| && forall k :: 0 <= k < |ds| ==> ds[k].0 < |c| && ds[k].1 < |c|
    ensures MoveAll(c, ds[..n])[r] == c[r] + Given(c, ds, n, r) - Taken(c, ds, n, r)
  {
    if n > 0 {
      DrawsAddUp(c, ds, n - 1, r);
      assert ds[..n][..n - 1] == ds[..n - 1];
    }
  }

  /** The size of every range of the result: the even share, and one row for every draw that gives, less one for
      every draw that takes. */
  lemma PerturbedRange(n: nat, size: nat, draws: seq<Draw>, prefix: seq<nat>, r: nat)
    requires size > 0 && r < size && forall k :: 0 <= k < |draws| ==> draws[k].0 < size && draws[k].1 < size
    requires prefix == Prefix(MoveAll(Shares(n / size, n % size, size), draws))
    ensures var shares := Shares(n / size, n % size, size);
      prefix[r + 1] + Taken(shares, draws, |draws|, r) ==
        prefix[r] + n / size + (if r < n % size then 1 else 0) + Given(shares, draws, |draws|, r)
  {
    var shares := Shares(n / size, n % size, size);
    DrawsAddUp(shares, draws, |draws|, r);
    assert draws[..|draws|] == draws;
    PrefixIsPartition(MoveAll(shares, draws), prefix);
  }

  method MoveRows(c: seq<nat>, draws: seq<Draw>) returns (chunks: seq<nat>)
    requires forall k :: 0 <= k < |draws| ==> draws[k].0 < |c| && draws[k].1 < |c|
    ensures chunks == MoveAll(c, draws)
  {
    chunks := c;
    for k := 0 to |draws|
      invariant chunks == MoveAll(c, draws[..k])
    {
      assert draws[..k + 1][..k] == draws[..k];
      var (i, j) := draws[k];
      if i != j && chunks[i] > 1 {
        chunks := chunks[i := chunks[i] - 1];
        chunks := chunks[j := chunks[j] + 1];
      }
    }
    assert draws[..|draws|] == draws;
  }

  /** Partial sums whose last entry is then overwritten by the total. */
  method PrefixSums(chunks: seq<nat>, n: nat) returns (prefix: seq<nat>)
    ensures |prefix| == |chunks| + 1 && prefix == Prefix(chunks)[|chunks| := n]
  {
    prefix := [0];
    for r := 0 to |chunks|
      invariant prefix == Prefix(chunks[..r])
    {
      assert chunks[..r + 1][..r] == chunks[..r];
      prefix := prefix + [prefix[|prefix| - 1] + chunks[r]];
    }
    assert chunks[..|chunks|] == chunks;
    prefix := prefix[|prefix| - 1 := n];
  }

  /** The draws of the generator are an argument.  The overwriting of the last entry changes nothing. */
  method BuildPartPrefix(n: nat, size: nat, draws: seq<Draw>) returns (prefix: seq<nat>)
    requires size > 0 && |draws| == Max(size * 3, 1)
    requires forall k :: 0 <= k < |draws| ==> draws[k].0 < size && draws[k].1 < size
    ensures prefix == Prefix(MoveAll(Shares(n / size, n % size, size), draws))
  {
    var shares := Shares(n / size, n % size, size);
    SharesCover(n, size);
    var chunks := MoveRows(shares, draws);
    MovesConserve(shares, draws);
    prefix := PrefixSums(chunks, n);
  }

  lemma PerturbedFrom(c: seq<nat>, draws: seq<Draw>, prefix: seq<nat>)
    requires forall k :: 0 <= k < |draws| ==> draws[k].0 < |c| && draws[k].1 < |c|
    requires prefix == Prefix(MoveAll(c, draws))
    ensures IsPartition(prefix, Sum(c), |c|)
    ensures forall r :: 0 <= r < |c| && c[r] > 0 ==> prefix[r] < prefix[r + 1]
  {
    MovesConserve(c, draws);
    PrefixIsPartition(MoveAll(c, draws), prefix);
  }

  /** For every sequence of draws the result is a partition of the n rows in which no rank that had
      rows before the draws has none. */
  lemma PerturbedIsPartition(n: nat, size: nat, draws: seq<Draw>, prefix: seq<nat>)
    requires size > 0 && forall k :: 0 <= k < |draws| ==> draws[k].0 < size && draws[k].1 < size
    requires prefix == Prefix(MoveAll(Shares(n / size, n % size, size), draws))
    ensures IsPartition(prefix, n, size)
    ensures forall r :: 0 <= r < size && Share(n / size, n % size, r) > 0 ==> prefix[r] < prefix[r + 1]
  {
    SharesCover(n, size);
    PerturbedFrom(Shares(n / size, n % size, size), draws, prefix);
  }
}
