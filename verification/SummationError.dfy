/** Orders of summation as trees: a left-to-right loop is one tree, Rayon's `reduce` any
    order-preserving tree with the identity possibly mixed in. */
module SummationTrees {
  import opened Arithmetic
  import opened Basics

  datatype Tree = Empty | Leaf(i: nat) | Node(l: Tree, r: Tree)

  function Value<F>(add: (F, F) -> F, zero: F, t: Tree, xs: seq<F>): F {
    match t
    case Empty => zero
    case Leaf(i) => if i < |xs| then xs[i] else zero
    case Node(l, r) => add(Value(add, zero, l, xs), Value(add, zero, r, xs))
  }

  function Leaves(t: Tree): seq<nat> {
    match t
    case Empty => []
    case Leaf(i) => [i]
    case Node(l, r) => Leaves(l) + Leaves(r)
  }

  function Depth(t: Tree): nat {
    match t
    case Empty => 0
    case Leaf(_) => 0
    case Node(l, r) => 1 + Max(Depth(l), Depth(r))
  }

  /** The tree reads slots 0, 1, ..., n-1 in this order. */
  ghost predicate InOrder(t: Tree, n: nat) { Leaves(t) == seq(n, i requires 0 <= i => i) }

  /** The tree of a loop that starts from zero. */
  function Comb(n: nat): Tree { if n == 0 then Empty else Node(Comb(n - 1), Leaf(n - 1)) }

  lemma {:induction false} CombIsLoop<F>(A: Arith<F>, xs: seq<F>, n: nat)
    requires n <= |xs|
    ensures Value(A.add, A.zero, Comb(n), xs) == SumFrom(A, A.zero, xs[..n]) && Depth(Comb(n)) == n
    ensures InOrder(Comb(n), n)
  {
    if n > 0 {
      CombIsLoop(A, xs, n - 1);
      assert xs[..n][..n - 1] == xs[..n - 1];
    }
  }

  ghost predicate AssociativeAt<F>(A: Arith<F>, a: F, b: F, c: F) { A.add(A.add(a, b), c) == A.add(a, A.add(b, c)) }

  ghost predicate IdentityAt<F>(A: Arith<F>, a: F) { A.add(A.zero, a) == a && A.add(a, A.zero) == a }

  ghost predicate Monoid<F(!new)>(A: Arith<F>) {
    (forall a, b, c :: AssociativeAt(A, a, b, c)) && forall a :: IdentityAt(A, a)
  }

  function Pick<F>(A: Arith<F>, xs: seq<F>, at: seq<nat>): seq<F> {
    seq(|at|, j requires 0 <= j < |at| => if at[j] < |xs| then xs[at[j]] else A.zero)
  }

  lemma {:induction false} SumSplits<F(!new)>(A: Arith<F>, xs: seq<F>, ys: seq<F>)
    requires Monoid(A)
    ensures SumFrom(A, A.zero, xs + ys) == A.add(SumFrom(A, A.zero, xs), SumFrom(A, A.zero, ys))
  {
    if ys == [] {
      assert xs + ys == xs && IdentityAt(A, SumFrom(A, A.zero, xs));
    } else {
      var n := |ys| - 1;
      assert (xs + ys)[..|xs + ys| - 1] == xs + ys[..n];
      SumSplits(A, xs, ys[..n]);
      assert AssociativeAt(A, SumFrom(A, A.zero, xs), SumFrom(A, A.zero, ys[..n]), ys[n]);
    }
  }

  lemma {:induction false} TreeIsSum<F(!new)>(A: Arith<F>, t: Tree, xs: seq<F>)
    requires Monoid(A)
    ensures Value(A.add, A.zero, t, xs) == SumFrom(A, A.zero, Pick(A, xs, Leaves(t)))
  {
    match t
    case Empty =>
    case Leaf(i) =>
      assert Pick(A, xs, [i])[..0] == [] && IdentityAt(A, Value(A.add, A.zero, t, xs));
    case Node(l, r) =>
      TreeIsSum(A, l, xs);
      TreeIsSum(A, r, xs);
      SumSplits(A, Pick(A, xs, Leaves(l)), Pick(A, xs, Leaves(r)));
      PickSplits(A, xs, Leaves(l), Leaves(r));
  }

  lemma PickSplits<F>(A: Arith<F>, xs: seq<F>, a: seq<nat>, b: seq<nat>)
    ensures Pick(A, xs, a + b) == Pick(A, xs, a) + Pick(A, xs, b)
  {
  }

  /** A property that survives one more addition at the cost of one more level
      holds of a whole tree at the cost of its depth. */
  ghost predicate Kept<F(!new)>(add: (F, F) -> F, ok: (nat, F) -> bool, k: nat, x: F, j: nat, y: F, n: nat) {
    ok(k, x) && ok(j, y) && n > k && n > j ==> ok(n, add(x, y))
  }

  lemma {:induction false} TreeInduction<F(!new)>(add: (F, F) -> F, zero: F, ok: (nat, F) -> bool, m: nat, t: Tree,
                                                  xs: seq<F>)
    requires forall k, x, j, y, n :: Kept(add, ok, k, x, j, y, n)
    requires ok(m, zero) && forall i :: 0 <= i < |xs| ==> ok(m, xs[i])
    ensures ok(m + Depth(t), Value(add, zero, t, xs))
  {
    if t.Node? {
      TreeInduction(add, zero, ok, m, t.l, xs);
      TreeInduction(add, zero, ok, m, t.r, xs);
      assert Kept(add, ok, m + Depth(t.l), Value(add, zero, t.l, xs),
                  m + Depth(t.r), Value(add, zero, t.r, xs), m + Depth(t));
    }
  }

  ghost predicate AddsAlong<F, G>(add: (F, F) -> F, add': (G, G) -> G, h: F -> G, x: F, y: F) {
    h(add(x, y)) == add'(h(x), h(y))
  }

  function Map<F, G>(h: F -> G, xs: seq<F>): seq<G> { seq(|xs|, i requires 0 <= i < |xs| => h(xs[i])) }

  lemma {:induction false} TreeHomomorphism<F(!new), G>(add: (F, F) -> F, zero: F, add': (G, G) -> G, zero': G,
                                                        h: F -> G, t: Tree, xs: seq<F>)
    requires h(zero) == zero' && forall x, y :: AddsAlong(add, add', h, x, y)
    ensures h(Value(add, zero, t, xs)) == Value(add', zero', t, Map(h, xs))
  {
    if t.Node? {
      TreeHomomorphism(add, zero, add', zero', h, t.l, xs);
      TreeHomomorphism(add, zero, add', zero', h, t.r, xs);
      assert AddsAlong(add, add', h, Value(add, zero, t.l, xs), Value(add, zero, t.r, xs));
    }
  }

  /** Where addition is associative with identity zero, every order-preserving tree
      agrees with the loop. */
  lemma AnyTreeIsTheLoop<F(!new)>(A: Arith<F>, t: Tree, xs: seq<F>)
    requires Monoid(A) && InOrder(t, |xs|)
    ensures Value(A.add, A.zero, t, xs) == SumFrom(A, A.zero, xs)
  {
    TreeIsSum(A, t, xs);
    assert Pick(A, xs, Leaves(t)) == xs;
  }

  /** Every order-preserving tree over xs agrees with the loop. */
  ghost predicate TreesAgree<F(!new)>(A: Arith<F>, xs: seq<F>) {
    forall t :: InOrder(t, |xs|) ==> Value(A.add, A.zero, t, xs) == SumFrom(A, A.zero, xs)
  }

  /** The tree is immaterial, whatever the parts, exactly when addition is associative with identity zero. */
  lemma TreesAgreeIffMonoid<F(!new)>(A: Arith<F>)
    ensures (forall xs :: TreesAgree(A, xs)) <==> Monoid(A)
  {
    if Monoid(A) {
      forall xs ensures TreesAgree(A, xs) {
        forall t | InOrder(t, |xs|) ensures Value(A.add, A.zero, t, xs) == SumFrom(A, A.zero, xs) {
          AnyTreeIsTheLoop(A, t, xs);
        }
      }
    } else if forall xs :: TreesAgree(A, xs) {
      forall a ensures IdentityAt(A, a) { IdentityFromTrees(A, a); }
      forall a, b, c ensures AssociativeAt(A, a, b, c) { AssociativityFromTrees(A, a, b, c); }
    }
  }

  lemma IdentityFromTrees<F(!new)>(A: Arith<F>, a: F)
    requires TreesAgree(A, [a])
    ensures IdentityAt(A, a)
  {
    var xs, leaf, padded := [a], Leaf(0), Node(Leaf(0), Empty);
    assert Value(A.add, A.zero, leaf, xs) == a && Value(A.add, A.zero, Empty, xs) == A.zero;
    assert InOrder(leaf, |xs|) && InOrder(padded, |xs|);
    assert Value(A.add, A.zero, padded, xs) == A.add(a, A.zero);
    assert xs[..0] == [] && SumFrom(A, A.zero, xs[..0]) == A.zero;
  }

  const LEFT_FIRST := Node(Node(Leaf(0), Leaf(1)), Leaf(2))

  const RIGHT_FIRST := Node(Leaf(0), Node(Leaf(1), Leaf(2)))

  lemma ThreeParts<F>(add: (F, F) -> F, zero: F, xs: seq<F>)
    requires |xs| == 3
    ensures InOrder(LEFT_FIRST, 3) && InOrder(RIGHT_FIRST, 3)
    ensures Value(add, zero, LEFT_FIRST, xs) == add(add(xs[0], xs[1]), xs[2])
    ensures Value(add, zero, RIGHT_FIRST, xs) == add(xs[0], add(xs[1], xs[2]))
  {
    var l, r := Node(Leaf(0), Leaf(1)), Node(Leaf(1), Leaf(2));
    assert Leaves(l) == [0, 1] && Leaves(r) == [1, 2];
    assert Value(add, zero, l, xs) == add(xs[0], xs[1]) && Value(add, zero, r, xs) == add(xs[1], xs[2]);
  }

  lemma AssociativityFromTrees<F(!new)>(A: Arith<F>, a: F, b: F, c: F)
    requires TreesAgree(A, [a, b, c])
    ensures AssociativeAt(A, a, b, c)
  {
    ThreeParts(A.add, A.zero, [a, b, c]);
  }

  const TWO_TO_53: real := 9007199254740992.0

  /** binary64 addition is not associative: 2^53 + 1 lies halfway between two neighbours and is rounded to the
      even one, 2^53 (IEEE 754-2019, section 4.3.1), so that two trees over 1, 1 and 2^53 disagree. */
  lemma Binary64TreesDiffer(fl: real -> real)
    requires fl(2.0) == 2.0 && fl(TWO_TO_53 + 1.0) == TWO_TO_53 && fl(TWO_TO_53 + 2.0) == TWO_TO_53 + 2.0
    ensures var add, xs := Rounded(fl).add, [1.0, 1.0, TWO_TO_53];
      && InOrder(LEFT_FIRST, |xs|) && InOrder(RIGHT_FIRST, |xs|)
      && Value(add, 0.0, LEFT_FIRST, xs) == TWO_TO_53 + 2.0 && Value(add, 0.0, RIGHT_FIRST, xs) == TWO_TO_53
  {
    ThreeParts(Rounded(fl).add, 0.0, [1.0, 1.0, TWO_TO_53]);
  }
}

/** Rounding-error bounds for plain sums in any order. */
module SummationError {
  import opened Arithmetic
  import opened Basics
  import opened Chunking
  import opened ExactSums
  import opened Rounding
  import R = ReproKernels
  import opened SummationTrees

  /** `grow(k, b)` is what k successive roundings can add to a total of magnitude b.
      The tree argument uses only these three laws; `Grow` below is ((1+u)^k - 1) * b. */
  type Growth = (nat, real) -> real

  ghost predicate AddsAt(grow: Growth, k: nat, x: real, y: real) { grow(k, x + y) == grow(k, x) + grow(k, y) }

  ghost predicate MonotoneIn(grow: Growth, k: nat, k': nat, x: real) {
    k <= k' && x >= 0.0 ==> 0.0 <= grow(k, x) <= grow(k', x)
  }

  ghost predicate RoundingFits(fl: real -> real, grow: Growth, k: nat, x: real, b: real) {
    Within(x, b + grow(k, b)) ==> Within(fl(x) - x, grow(k + 1, b) - grow(k, b))
  }

  ghost predicate GrowthLaws(fl: real -> real, grow: Growth) {
    && (forall k, x, y :: AddsAt(grow, k, x, y))
    && (forall k, k', x :: MonotoneIn(grow, k, k', x))
    && (forall k, x, b :: RoundingFits(fl, grow, k, x, b))
  }

  /** A computed value v of an exact value w that is at most b in magnitude. */
  datatype Slot = Slot(v: real, w: real, b: real)

  /** v has suffered at most m successive roundings. */
  ghost predicate Close(grow: Growth, m: nat, s: Slot) {
    Within(s.w, s.b) && Within(s.v - s.w, grow(m, s.b))
  }

  ghost predicate AllClose(grow: Growth, m: nat, vs: seq<real>, ws: seq<real>, bs: seq<real>) {
    |vs| == |ws| == |bs| && forall i :: 0 <= i < |vs| ==> Close(grow, m, Slot(vs[i], ws[i], bs[i]))
  }

  /** Adding computed values, exact values and magnitudes side by side. */
  function SlotSum(fl: real -> real): (Slot, Slot) -> Slot {
    (x: Slot, y: Slot) => Slot(fl(x.v + y.v), x.w + y.w, x.b + y.b)
  }

  const NoSlot := Slot(0.0, 0.0, 0.0)

  lemma Loosen(fl: real -> real, grow: Growth, k: nat, k': nat, x: Slot)
    requires GrowthLaws(fl, grow) && k <= k' && Close(grow, k, x)
    ensures Close(grow, k', x)
  {
    assert MonotoneIn(grow, k, k', x.b);
  }

  lemma SlotSumClose(fl: real -> real, grow: Growth, k: nat, x: Slot, y: Slot)
    requires GrowthLaws(fl, grow) && Close(grow, k, x) && Close(grow, k, y)
    ensures Close(grow, k + 1, SlotSum(fl)(x, y))
  {
    assert AddsAt(grow, k, x.b, y.b) && RoundingFits(fl, grow, k, x.v + y.v, x.b + y.b);
  }

  lemma AdditionKeepsClose(fl: real -> real, grow: Growth, k: nat, x: Slot, j: nat, y: Slot, n: nat)
    requires GrowthLaws(fl, grow) && Close(grow, k, x) && Close(grow, j, y) && n > k && n > j
    ensures Close(grow, n, SlotSum(fl)(x, y))
  {
    Loosen(fl, grow, k, n - 1, x);
    Loosen(fl, grow, j, n - 1, y);
    SlotSumClose(fl, grow, n - 1, x, y);
  }

  /** Summing in the order of tree t adds at most Depth(t) roundings to every slot. */
  lemma SlotTreeClose(fl: real -> real, grow: Growth, m: nat, t: Tree, xs: seq<Slot>)
    requires GrowthLaws(fl, grow) && forall i :: 0 <= i < |xs| ==> Close(grow, m, xs[i])
    ensures Close(grow, m + Depth(t), Value(SlotSum(fl), NoSlot, t, xs))
  {
    var ok: (nat, Slot) -> bool := (k: nat, x: Slot) => Within(x.w, x.b) && Within(x.v - x.w, grow(k, x.b));
    forall k: nat, x, j: nat, y, n: nat ensures Kept(SlotSum(fl), ok, k, x, j, y, n) {
      if ok(k, x) && ok(j, y) && n > k && n > j { AdditionKeepsClose(fl, grow, k, x, j, y, n); }
    }
    assert MonotoneIn(grow, m, m, 0.0);
    TreeInduction(SlotSum(fl), NoSlot, ok, m, t, xs);
  }

  function Plus(fl: real -> real): (real, real) -> real { Rounded(fl).add }

  function ExactSum(t: Tree, ws: seq<real>): real { Value(Reals().add, 0.0, t, ws) }

  function V(): Slot -> real { (s: Slot) => s.v }

  function W(): Slot -> real { (s: Slot) => s.w }

  function B(): Slot -> real { (s: Slot) => s.b }

  lemma SlotProjections(fl: real -> real, t: Tree, xs: seq<Slot>)
    ensures Value(SlotSum(fl), NoSlot, t, xs) ==
      Slot(Value(Plus(fl), 0.0, t, Map(V(), xs)), ExactSum(t, Map(W(), xs)), ExactSum(t, Map(B(), xs)))
  {
    var add, exact := SlotSum(fl), Reals().add;
    forall x, y ensures AddsAlong(add, Plus(fl), V(), x, y) {}
    forall x, y ensures AddsAlong(add, exact, W(), x, y) && AddsAlong(add, exact, B(), x, y) {}
    TreeHomomorphism(add, NoSlot, Plus(fl), 0.0, V(), t, xs);
    TreeHomomorphism(add, NoSlot, exact, 0.0, W(), t, xs);
    TreeHomomorphism(add, NoSlot, exact, 0.0, B(), t, xs);
  }

  /** The computed sum of `vs` in the order of t against the exact sum of `ws`. */
  lemma TreeError(fl: real -> real, grow: Growth, m: nat, t: Tree, vs: seq<real>, ws: seq<real>, bs: seq<real>)
    requires GrowthLaws(fl, grow) && AllClose(grow, m, vs, ws, bs)
    ensures Close(grow, m + Depth(t), Slot(Value(Plus(fl), 0.0, t, vs), ExactSum(t, ws), ExactSum(t, bs)))
  {
    var xs := seq(|vs|, i requires 0 <= i < |vs| => Slot(vs[i], ws[i], bs[i]));
    SlotTreeClose(fl, grow, m, t, xs);
    SlotProjections(fl, t, xs);
    assert Map(V(), xs) == vs && Map(W(), xs) == ws && Map(B(), xs) == bs;
  }

  // ---- the laws hold of ((1+u)^k - 1) * b ------------------------------------

  function Pow(x: real, k: nat): real { if k == 0 then 1.0 else x * Pow(x, k - 1) }

  function Grow(u: real): Growth { (k: nat, b: real) => (Pow(1.0 + u, k) - 1.0) * b }

  lemma {:induction false} PowGrows(u: real, k: nat, k': nat)
    requires u >= 0.0 && k <= k'
    ensures 1.0 <= Pow(1.0 + u, k) <= Pow(1.0 + u, k')
  {
    if k < k' {
      PowGrows(u, k, k' - 1);
      Scale(0.0, Pow(1.0 + u, k' - 1), u);
      assert Pow(1.0 + u, k') == Pow(1.0 + u, k' - 1) + u * Pow(1.0 + u, k' - 1);
    } else if k > 0 {
      PowGrows(u, k - 1, k - 1);
      Scale(0.0, Pow(1.0 + u, k - 1), u);
      assert Pow(1.0 + u, k) == Pow(1.0 + u, k - 1) + u * Pow(1.0 + u, k - 1);
    }
  }

  lemma GrowAdds(u: real, k: nat, x: real, y: real)
    ensures AddsAt(Grow(u), k, x, y)
  {
    var p := Pow(1.0 + u, k) - 1.0;
    assert p * (x + y) == p * x + p * y;
  }

  lemma GrowMonotone(u: real, k: nat, k': nat, x: real)
    requires u >= 0.0
    ensures MonotoneIn(Grow(u), k, k', x)
  {
    if k <= k' && x >= 0.0 {
      PowGrows(u, k, k');
      Ordered(Pow(1.0 + u, k) - 1.0, Pow(1.0 + u, k') - 1.0, x);
    }
  }

  lemma Ordered(p: real, q: real, x: real)
    requires 0.0 <= p <= q && x >= 0.0
    ensures 0.0 <= p * x <= q * x
  {
    Scale(p, q, x);
    Scale(0.0, p, x);
  }

  lemma GrowFits(fl: real -> real, u: real, k: nat, x: real, b: real)
    requires Rounds(fl, u)
    ensures RoundingFits(fl, Grow(u), k, x, b)
  {
    if Within(x, b + Grow(u)(k, b)) {
      assert RelativeError(fl, u, x);
      GrowthStep(u, Pow(1.0 + u, k), b, Grow(u)(k, b), Grow(u)(k + 1, b));
      OneRounding(u, Abs(x), b + Grow(u)(k, b), fl(x) - x, u * Abs(x), Grow(u)(k + 1, b) - Grow(u)(k, b));
    }
  }

  lemma OneRounding(u: real, a: real, t: real, e: real, ua: real, ut: real)
    requires u >= 0.0 && a <= t && ua == u * a && ut == u * t && Within(e, ua)
    ensures Within(e, ut)
  {
    assert ua <= ut by { Scale(a, t, u); }
  }

  lemma GrowthStep(u: real, p: real, b: real, g: real, g': real)
    requires g == (p - 1.0) * b && g' == ((1.0 + u) * p - 1.0) * b
    ensures g' - g == u * (b + g)
  {
    assert b + g == p * b;
    assert u * (p * b) == (u * p) * b;
  }

  lemma GrowObeysTheLaws(fl: real -> real, u: real)
    requires Rounds(fl, u)
    ensures GrowthLaws(fl, Grow(u))
  {
    forall k, x, y ensures AddsAt(Grow(u), k, x, y) { GrowAdds(u, k, x, y); }
    forall k, k', x ensures MonotoneIn(Grow(u), k, k', x) { GrowMonotone(u, k, k', x); }
    forall k, x, b ensures RoundingFits(fl, Grow(u), k, x, b) { GrowFits(fl, u, k, x, b); }
  }

  // ---- chunked sums of products ----------------------------------------------

  /** Every term rounded once. */
  function RoundedTerms(fl: real -> real, ws: seq<real>): seq<real> { seq(|ws|, i requires 0 <= i < |ws| => fl(ws[i])) }

  lemma RoundedTermClose(fl: real -> real, u: real, w: real)
    requires Rounds(fl, u)
    ensures Close(Grow(u), 1, Slot(fl(w), w, Abs(w)))
  {
    assert RelativeError(fl, u, w);
    assert Pow(1.0 + u, 1) == (1.0 + u) * Pow(1.0 + u, 0);
  }

  lemma ExactTreeSum(t: Tree, ws: seq<real>)
    requires InOrder(t, |ws|)
    ensures ExactSum(t, ws) == Sum(ws)
  {
    forall a, b, c ensures AssociativeAt(Reals(), a, b, c) {}
    forall a ensures IdentityAt(Reals(), a) {}
    AnyTreeIsTheLoop(Reals(), t, ws);
    LoopIsSum(ws);
  }

  lemma {:induction false} LoopIsSum(ws: seq<real>)
    ensures SumFrom(Reals(), 0.0, ws) == Sum(ws)
  {
    if ws != [] { LoopIsSum(ws[..|ws| - 1]); }
  }

  /** A left-to-right loop over slots that have suffered m roundings each. */
  lemma LoopClose(fl: real -> real, u: real, m: nat, vs: seq<real>, ws: seq<real>)
    requires Rounds(fl, u) && |vs| == |ws|
    requires forall i :: 0 <= i < |vs| ==> Close(Grow(u), m, Slot(vs[i], ws[i], Abs(ws[i])))
    ensures Close(Grow(u), m + |vs|, Slot(SumFrom(Rounded(fl), 0.0, vs), Sum(ws), AbsSum(ws)))
  {
    GrowObeysTheLaws(fl, u);
    var t, bs := Comb(|vs|), Magnitudes(ws);
    TreeError(fl, Grow(u), m, t, vs, ws, bs);
    CombIsLoop(Rounded(fl), vs, |vs|);
    assert vs[..|vs|] == vs;
    ExactTreeSum(t, ws);
    ExactTreeSum(t, bs);
    AbsSumIsSum(ws);
  }

  lemma ChunkClose(fl: real -> real, u: real, ws: seq<real>, len: nat, i: nat)
    requires Rounds(fl, u)
    ensures var c := Chunk(ws, len, i);
      Close(Grow(u), 1 + Min(|ws|, len),
        Slot(R.Run(R.Plain(Rounded(fl)), Chunk(RoundedTerms(fl, ws), len, i)), Sum(c), AbsSum(c)))
  {
    var c := Chunk(ws, len, i);
    assert Chunk(RoundedTerms(fl, ws), len, i) == RoundedTerms(fl, c);
    forall j | 0 <= j < |c| ensures Close(Grow(u), 1, Slot(RoundedTerms(fl, c)[j], c[j], Abs(c[j]))) {
      RoundedTermClose(fl, u, c[j]);
    }
    LoopClose(fl, u, 1, RoundedTerms(fl, c), c);
    R.PlainRunIsLoop(Rounded(fl), RoundedTerms(fl, c));
    GrowObeysTheLaws(fl, u);
    Loosen(fl, Grow(u), 1 + |c|, 1 + Min(|ws|, len),
      Slot(SumFrom(Rounded(fl), 0.0, RoundedTerms(fl, c)), Sum(c), AbsSum(c)));
  }

  function ChunkSums(ws: seq<real>, len: nat, n: nat): seq<real> { seq(n, i requires 0 <= i => Sum(Chunk(ws, len, i))) }

  function RoundedParts(fl: real -> real, ws: seq<real>, len: nat, n: nat): seq<real> {
    R.Parts(R.Plain(Rounded(fl)), RoundedTerms(fl, ws), len, n)
  }

  lemma PartsClose(fl: real -> real, u: real, ws: seq<real>, len: nat, n: nat, i: nat)
    requires Rounds(fl, u) && i < n
    ensures Close(Grow(u), 1 + Min(|ws|, len),
      Slot(RoundedParts(fl, ws, len, n)[i], ChunkSums(ws, len, n)[i], ChunkSums(Magnitudes(ws), len, n)[i]))
  {
    ChunkClose(fl, u, ws, len, i);
    AbsSumIsSum(Chunk(ws, len, i));
    assert Magnitudes(Chunk(ws, len, i)) == Chunk(Magnitudes(ws), len, i);
  }

  lemma AllPartsClose(fl: real -> real, u: real, ws: seq<real>, len: nat, n: nat)
    requires Rounds(fl, u)
    ensures AllClose(Grow(u), 1 + Min(|ws|, len), RoundedParts(fl, ws, len, n), ChunkSums(ws, len, n),
      ChunkSums(Magnitudes(ws), len, n))
  {
    forall i | 0 <= i < n
      ensures Close(Grow(u), 1 + Min(|ws|, len),
        Slot(RoundedParts(fl, ws, len, n)[i], ChunkSums(ws, len, n)[i], ChunkSums(Magnitudes(ws), len, n)[i]))
    {
      PartsClose(fl, u, ws, len, n, i);
    }
  }

  lemma PartsInTreeOrder(fl: real -> real, u: real, ws: seq<real>, len: nat, n: nat, t: Tree)
    requires Rounds(fl, u)
    ensures Close(Grow(u), 1 + Min(|ws|, len) + Depth(t),
      Slot(Value(Plus(fl), 0.0, t, RoundedParts(fl, ws, len, n)), ExactSum(t, ChunkSums(ws, len, n)),
        ExactSum(t, ChunkSums(Magnitudes(ws), len, n))))
  {
    GrowObeysTheLaws(fl, u);
    AllPartsClose(fl, u, ws, len, n);
    TreeError(fl, Grow(u), 1 + Min(|ws|, len), t, RoundedParts(fl, ws, len, n), ChunkSums(ws, len, n),
      ChunkSums(Magnitudes(ws), len, n));
  }

  lemma ExactTotal(ws: seq<real>, len: nat, n: nat, t: Tree)
    requires Cut(|ws|, len, n) == |ws| && InOrder(t, n)
    ensures ExactSum(t, ChunkSums(ws, len, n)) == Sum(ws)
  {
    ChunkTotal(ws, len, ChunkSums(ws, len, n));
    ExactTreeSum(t, ChunkSums(ws, len, n));
  }

  /** Chunked summation of rounded terms ws, the n chunk results combined in the order of any
      tree t: at most 1 + min(|ws|, len) + Depth(t) roundings touch any term. */
  lemma ChunkedError(fl: real -> real, u: real, ws: seq<real>, len: nat, n: nat, t: Tree)
    requires Rounds(fl, u) && Cut(|ws|, len, n) == |ws| && InOrder(t, n)
    ensures Within(Value(Rounded(fl).add, 0.0, t, RoundedParts(fl, ws, len, n)) - Sum(ws),
                   Grow(u)(1 + Min(|ws|, len) + Depth(t), AbsSum(ws)))
  {
    PartsInTreeOrder(fl, u, ws, len, n, t);
    ExactTotal(ws, len, n, t);
    ExactTotal(Magnitudes(ws), len, n, t);
    AbsSumIsSum(ws);
  }

  /** The deterministic kernels add the chunk results left to right, so the exponent grows
      with the number of chunks and not with the number of terms. */
  lemma BlockedError(fl: real -> real, u: real, ws: seq<real>, len: nat)
    requires Rounds(fl, u) && len > 0
    ensures Within(R.Blocked(Rounded(fl), R.Plain(Rounded(fl)), RoundedTerms(fl, ws), len) - Sum(ws),
                   Grow(u)(1 + Min(|ws|, len) + Chunks(|ws|, len), AbsSum(ws)))
  {
    LastCut(|ws|, len);
    LeftToRight(fl, u, ws, len, Chunks(|ws|, len));
  }

  lemma LeftToRight(fl: real -> real, u: real, ws: seq<real>, len: nat, n: nat)
    requires Rounds(fl, u) && Cut(|ws|, len, n) == |ws|
    ensures Within(SumFrom(Rounded(fl), 0.0, RoundedParts(fl, ws, len, n)) - Sum(ws),
      Grow(u)(1 + Min(|ws|, len) + n, AbsSum(ws)))
  {
    var parts := RoundedParts(fl, ws, len, n);
    CombIsLoop(Rounded(fl), parts, n);
    assert parts[..n] == parts;
    ChunkedError(fl, u, ws, len, n, Comb(n));
  }

  lemma {:induction false} NonNegativeTerms(ws: seq<real>)
    requires forall i :: 0 <= i < |ws| ==> ws[i] >= 0.0
    ensures AbsSum(ws) == Sum(ws)
  {
    if ws != [] { NonNegativeTerms(ws[..|ws| - 1]); }
  }

  lemma SquareIsNonNegative(a: real, square: real)
    requires square == a * a
    ensures square >= 0.0
  {
    if a >= 0.0 { Scale(0.0, a, a); } else { Scale(0.0, -a, -a); }
  }

  /** The blocked sum of the squares ws of real numbers x is off by at most
      ((1+u)^(1 + min(n, len) + ceil(n / len)) - 1) times the exact sum. */
  lemma BlockedSquaresError(fl: real -> real, u: real, x: seq<real>, ws: seq<real>, len: nat)
    requires Rounds(fl, u) && len > 0 && |ws| == |x| && forall i :: 0 <= i < |x| ==> ws[i] == x[i] * x[i]
    ensures Within(R.Blocked(Rounded(fl), R.Plain(Rounded(fl)), RoundedTerms(fl, ws), len) - Sum(ws),
                   Grow(u)(1 + Min(|ws|, len) + Chunks(|ws|, len), Sum(ws)))
  {
    forall i | 0 <= i < |ws| ensures ws[i] >= 0.0 { SquareIsNonNegative(x[i], ws[i]); }
    NonNegativeTerms(ws);
    BlockedError(fl, u, ws, len);
  }
}
