/** The deterministic all-reduce: rank 0 gathers one packet from every rank in
    rank order, folds them, and sends the total back.  Every rank makes the call
    `rounds` times back to back with no barrier in between.

    A step is one `isend`, one completed `wait_all`, or one completed receive.
    Point-to-point channels are FIFO (MPI-4.0, section 3.5).  Whether a send may
    complete before its message is received is decided per message by `eager`:
    always true is buffered sending, always false is rendezvous.
    The accumulator is uninterpreted: nothing is assumed about `add`. */
module AllreduceProtocol {

  datatype Config<!P, !A> = Config(
    size: nat,
    rounds: nat,
    local: (nat, nat) -> P,          // packet of (rank, round)
    start: nat -> A,                 // the empty accumulator of a round
    add: (A, P) -> A,
    finish: A -> P,
    eager: (nat, nat, nat) -> bool)  // (sender, receiver, round)

  /** Where a rank stands inside one call; `Idle` is between calls. */
  datatype Pc<P, A> =
    | Idle
    | Gather(src: nat, acc: A)
    | Offer(dest: nat, total: P)
    | OfferWait(dest: nat, total: P)
    | SendWait
    | RecvWait

  /** A rank with what it has returned so far, its channel to rank 0 and the channel back. */
  datatype Rank<P, A> = Rank(pc: Pc<P, A>, log: seq<P>, up: seq<P>, down: seq<P>)

  type State<P, A> = seq<Rank<P, A>>

  // ---- the sequential meaning of one call -------------------------------

  function Fold<P, A>(c: Config<P, A>, k: nat, n: nat): A {
    if n == 0 then c.start(k) else c.add(Fold(c, k, n - 1), c.local(n - 1, k))
  }

  /** A single rank returns its packet untouched: it is not run through the accumulator. */
  function Total<P, A>(c: Config<P, A>, k: nat): P {
    if c.size == 1 then c.local(0, k) else c.finish(Fold(c, k, c.size))
  }

  function Totals<P, A>(c: Config<P, A>, n: nat): seq<P> {
    seq(n, k requires 0 <= k => Total(c, k))
  }

  // ---- the transition system --------------------------------------------

  ghost predicate Shape<P, A>(c: Config<P, A>, s: State<P, A>) {
    |s| == c.size > 0
  }

  function Initial<P, A>(c: Config<P, A>): State<P, A> {
    seq(c.size, _ => Rank(Idle, [], [], []))
  }

  ghost predicate Enabled<P, A>(c: Config<P, A>, s: State<P, A>, r: nat)
    requires Shape(c, s)
  {
    r < c.size &&
    match s[r].pc
    case Idle => |s[r].log| < c.rounds
    case Gather(src, _) => r < src < c.size && s[src].up != []
    case Offer(dest, _) => r < dest < c.size
    case OfferWait(dest, _) => r < dest < c.size && (c.eager(r, dest, |s[r].log|) || s[dest].down == [])
    case SendWait => c.eager(r, 0, |s[r].log|) || s[r].up == []
    case RecvWait => s[r].down != []
  }

  ghost function Step<P, A>(c: Config<P, A>, s: State<P, A>, r: nat): (t: State<P, A>)
    requires Shape(c, s) && Enabled(c, s, r)
    ensures Shape(c, t)
  {
    var me := s[r];
    match me.pc
    case Idle =>
      var mine := c.local(r, |me.log|);
      s[r := if c.size == 1 then me.(log := me.log + [mine])
             else if r == 0 then me.(pc := Gather(1, c.add(c.start(|me.log|), mine)))
             else me.(pc := SendWait, up := me.up + [mine])]
    case Gather(src, acc) =>
      var acc' := c.add(acc, s[src].up[0]);
      s[src := s[src].(up := s[src].up[1..])]
       [r := me.(pc := if src + 1 < c.size then Gather(src + 1, acc') else Offer(1, c.finish(acc')))]
    case Offer(dest, total) =>
      s[dest := s[dest].(down := s[dest].down + [total])][r := me.(pc := OfferWait(dest, total))]
    case OfferWait(dest, total) =>
      s[r := if dest + 1 < c.size then me.(pc := Offer(dest + 1, total)) else me.(pc := Idle, log := me.log + [total])]
    case SendWait =>
      s[r := me.(pc := RecvWait)]
    case RecvWait =>
      s[r := Rank(Idle, me.log + [me.down[0]], me.up, me.down[1..])]
  }

  /** `sched` names the rank that moves at each step; every interleaving is such a sequence. */
  ghost predicate Run<P, A>(c: Config<P, A>, s: State<P, A>, sched: seq<nat>, t: State<P, A>): (b: bool)
    ensures b ==> Shape(c, t)
    decreases |sched|
  {
    Shape(c, s) &&
    if sched == [] then s == t
    else Enabled(c, s, sched[0]) && Run(c, Step(c, s, sched[0]), sched[1..], t)
  }

  // ---- the invariant ----------------------------------------------------

  /** Rank 0 does not hold rank r's packet of round k yet (r may still owe the receipt of round k-1). */
  ghost predicate Fresh<P, A>(c: Config<P, A>, me: Rank<P, A>, r: nat, k: nat) {
    || (k > 0 && |me.log| == k - 1 && (me.pc == SendWait || me.pc == RecvWait)
        && me.up == [] && me.down == [Total(c, k - 1)])
    || (|me.log| == k && me.pc == Idle && me.up == [] && me.down == [])
    || (|me.log| == k < c.rounds && (me.pc == SendWait || me.pc == RecvWait)
        && me.up == [c.local(r, k)] && me.down == [])
  }

  /** Rank 0 holds rank r's packet of round k and has not answered. */
  ghost predicate Given<P, A>(c: Config<P, A>, me: Rank<P, A>, k: nat) {
    |me.log| == k && (me.pc == SendWait || me.pc == RecvWait) && me.up == [] && me.down == []
  }

  /** Rank 0 has answered rank r in round k. */
  ghost predicate Answered<P, A>(c: Config<P, A>, me: Rank<P, A>, r: nat, k: nat) {
    Fresh(c, me, r, k + 1)
  }

  /** Rank 0's program counter splits the other ranks into those already served and those not. */
  ghost predicate RootInv<P, A>(c: Config<P, A>, s: State<P, A>)
    requires Shape(c, s)
  {
    var k := |s[0].log|;
    match s[0].pc
    case Idle =>
      k <= c.rounds && forall r :: 0 < r < c.size ==> Fresh(c, s[r], r, k)
    case Gather(src, acc) =>
      && k < c.rounds && 0 < src < c.size && acc == Fold(c, k, src)
      && (forall r :: 0 < r < src ==> Given(c, s[r], k))
      && (forall r :: src <= r < c.size ==> Fresh(c, s[r], r, k))
    case Offer(dest, total) =>
      && k < c.rounds && 0 < dest < c.size && total == Total(c, k)
      && (forall r :: 0 < r < dest ==> Answered(c, s[r], r, k))
      && (forall r :: dest <= r < c.size ==> Given(c, s[r], k))
    case OfferWait(dest, total) =>
      && k < c.rounds && 0 < dest < c.size && total == Total(c, k)
      && (forall r :: 0 < r <= dest ==> Answered(c, s[r], r, k))
      && (forall r :: dest < r < c.size ==> Given(c, s[r], k))
    case _ => false
  }

  ghost predicate Inv<P, A>(c: Config<P, A>, s: State<P, A>) {
    && Shape(c, s)
    && s[0].up == [] && s[0].down == []
    && (forall r :: 0 <= r < c.size ==> s[r].log == Totals(c, |s[r].log|))
    && RootInv(c, s)
  }

  lemma InitialInv<P, A>(c: Config<P, A>)
    requires c.size > 0
    ensures Inv(c, Initial(c))
  {
  }

  /** What each other rank looks like to rank 0, which is in round k. */
  lemma PeerView<P, A>(c: Config<P, A>, s: State<P, A>, r: nat)
    requires Inv(c, s) && 0 < r < c.size
    ensures var k := |s[0].log|;
      Fresh(c, s[r], r, k) || (k < c.rounds && (Given(c, s[r], k) || Answered(c, s[r], r, k)))
    ensures s[0].pc.Idle? || s[0].pc.Gather? ==> Fresh(c, s[r], r, |s[0].log|) || Given(c, s[r], |s[0].log|)
    ensures s[0].pc.Offer? || s[0].pc.OfferWait? ==> Answered(c, s[r], r, |s[0].log|) || Given(c, s[r], |s[0].log|)
  {
  }

  lemma TotalsGrow<P, A>(c: Config<P, A>, k: nat)
    ensures Totals(c, k + 1) == Totals(c, k) + [Total(c, k)]
  {
  }

  lemma GatherKeepsInv<P, A>(c: Config<P, A>, s: State<P, A>)
    requires Inv(c, s) && Enabled(c, s, 0) && s[0].pc.Gather?
    ensures Inv(c, Step(c, s, 0))
  {
    var k, src := |s[0].log|, s[0].pc.src;
    assert Fresh(c, s[src], src, k) && s[src].up == [c.local(src, k)];
    assert Fold(c, k, src + 1) == c.add(s[0].pc.acc, c.local(src, k));
    assert Given(c, Step(c, s, 0)[src], k);
  }

  lemma OfferKeepsInv<P, A>(c: Config<P, A>, s: State<P, A>)
    requires Inv(c, s) && Enabled(c, s, 0) && s[0].pc.Offer?
    ensures Inv(c, Step(c, s, 0))
  {
    var k, dest := |s[0].log|, s[0].pc.dest;
    assert Given(c, s[dest], k);
    assert Answered(c, Step(c, s, 0)[dest], dest, k);
  }

  lemma RootStepKeepsInv<P, A>(c: Config<P, A>, s: State<P, A>)
    requires Inv(c, s) && Enabled(c, s, 0)
    ensures Inv(c, Step(c, s, 0))
  {
    var t := Step(c, s, 0);
    var k := |s[0].log|;
    match s[0].pc
    case Idle =>
      TotalsGrow(c, k);
      assert Fold(c, k, 1) == c.add(Fold(c, k, 0), c.local(0, k));
    case Gather(_, _) => GatherKeepsInv(c, s);
    case Offer(_, _) => OfferKeepsInv(c, s);
    case OfferWait(dest, _) =>
      TotalsGrow(c, k);
      if dest + 1 == c.size {
        forall r: nat | 0 < r < |s| ensures Fresh(c, t[r], r, k + 1) { assert Answered(c, s[r], r, k); }
      }
  }

  /** A step of rank r keeps whatever rank 0 relies on about it. */
  lemma PeerMoves<P, A>(c: Config<P, A>, s: State<P, A>, r: nat, k: nat)
    requires Shape(c, s) && Enabled(c, s, r) && 0 < r && k <= c.rounds
    requires Fresh(c, s[r], r, k) || (k < c.rounds && (Given(c, s[r], k) || Answered(c, s[r], r, k)))
    requires s[r].log == Totals(c, |s[r].log|)
    ensures var t := Step(c, s, r);
      && t == s[r := t[r]]
      && (Fresh(c, s[r], r, k) ==> Fresh(c, t[r], r, k))
      && (Given(c, s[r], k) ==> Given(c, t[r], k))
      && (k < c.rounds && Answered(c, s[r], r, k) ==> Answered(c, t[r], r, k))
      && t[r].log == Totals(c, |t[r].log|)
  {
    TotalsGrow(c, |s[r].log|);
  }

  lemma PeerStepKeepsInv<P, A>(c: Config<P, A>, s: State<P, A>, r: nat)
    requires Inv(c, s) && Enabled(c, s, r) && r > 0
    ensures Inv(c, Step(c, s, r))
  {
    PeerView(c, s, r);
    PeerMoves(c, s, r, |s[0].log|);
  }

  lemma StepKeepsInv<P, A>(c: Config<P, A>, s: State<P, A>, r: nat)
    requires Inv(c, s) && Enabled(c, s, r)
    ensures Inv(c, Step(c, s, r))
  {
    if r == 0 { RootStepKeepsInv(c, s); } else { PeerStepKeepsInv(c, s, r); }
  }

  lemma {:induction false} RunKeepsInv<P, A>(c: Config<P, A>, s: State<P, A>, sched: seq<nat>, t: State<P, A>)
    requires Inv(c, s) && Run(c, s, sched, t)
    ensures Inv(c, t)
    decreases |sched|
  {
    if sched != [] {
      StepKeepsInv(c, s, sched[0]);
      RunKeepsInv(c, Step(c, s, sched[0]), sched[1..], t);
    }
  }

  // ---- safety -----------------------------------------------------------

  /** Rounds never mix, on any interleaving and under any mixture of eager and
      rendezvous sends: every rank returns the rank-order fold in every round,
      any two ranks are at most one round apart, no channel ever holds two
      packets, and what a rank is about to receive belongs to its own round. */
  lemma RoundsNeverMix<P, A>(c: Config<P, A>, sched: seq<nat>, s: State<P, A>)
    requires c.size > 0 && Run(c, Initial(c), sched, s)
    ensures forall r :: 0 <= r < c.size ==> |s[r].log| <= c.rounds && s[r].log == Totals(c, |s[r].log|)
    ensures forall q, r :: 0 <= q < c.size && 0 <= r < c.size ==> |s[q].log| <= |s[r].log| + 1
    ensures forall r :: 0 <= r < c.size ==> |s[r].up| <= 1 && |s[r].down| <= 1
    ensures s[0].pc.Gather? && Enabled(c, s, 0) ==> s[s[0].pc.src].up == [c.local(s[0].pc.src, |s[0].log|)]
    ensures forall r: nat :: r < c.size && s[r].pc == RecvWait && s[r].down != [] ==>
      s[r].down == [Total(c, |s[r].log|)]
  {
    InitialInv(c);
    RunKeepsInv(c, Initial(c), sched, s);
    var k := |s[0].log|;
    forall r: nat | 0 < r < |s|
      ensures |s[r].up| <= 1 && |s[r].down| <= 1 && |s[r].log| <= c.rounds
      ensures if s[0].pc.Idle? || s[0].pc.Gather? then k - 1 <= |s[r].log| <= k else k <= |s[r].log| <= k + 1
      ensures s[r].down != [] ==> s[r].down == [Total(c, |s[r].log|)]
    {
      PeerView(c, s, r);
    }
  }

  // ---- progress ---------------------------------------------------------

  /** Steps rank 0 still has to take. */
  function RootWork<P, A>(c: Config<P, A>, me: Rank<P, A>): int {
    (c.rounds - |me.log|) * (3 * c.size - 2) -
    match me.pc
    case Idle => 0
    case Gather(src, _) => src
    case Offer(dest, _) => c.size + 2 * dest - 2
    case OfferWait(dest, _) => c.size + 2 * dest - 1
    case _ => 0
  }

  /** Steps a non-root rank still has to take. */
  function PeerWork<P, A>(c: Config<P, A>, me: Rank<P, A>): int {
    3 * (c.rounds - |me.log|) - (if me.pc.SendWait? then 1 else if me.pc.RecvWait? then 2 else 0)
  }

  function PeersWork<P, A>(c: Config<P, A>, s: State<P, A>): int {
    if |s| <= 1 then 0 else PeersWork(c, s[..|s| - 1]) + PeerWork(c, s[|s| - 1])
  }

  function Work<P, A>(c: Config<P, A>, s: State<P, A>): int
    requires |s| > 0
  {
    RootWork(c, s[0]) + PeersWork(c, s)
  }

  lemma {:induction false} PeersWorkUpdate<P, A>(c: Config<P, A>, s: State<P, A>, r: nat, me: Rank<P, A>)
    requires r < |s|
    ensures PeersWork(c, s[r := me]) == PeersWork(c, s) + if r > 0 then PeerWork(c, me) - PeerWork(c, s[r]) else 0
  {
    if |s| > 1 {
      var n := |s| - 1;
      if r == n {
        assert s[r := me][..n] == s[..n];
      } else {
        assert s[r := me][..n] == s[..n][r := me];
        PeersWorkUpdate(c, s[..n], r, me);
      }
    }
  }

  /** Every step, by any rank, uses up exactly one unit of work. */
  lemma StepUsesOneUnit<P, A>(c: Config<P, A>, s: State<P, A>, r: nat)
    requires Inv(c, s) && Enabled(c, s, r)
    ensures Work(c, Step(c, s, r)) == Work(c, s) - 1
  {
    if r > 0 {
      var t := Step(c, s, r);
      PeerView(c, s, r);
      assert t == s[r := t[r]];
      PeersWorkUpdate(c, s, r, t[r]);
    } else {
      RootStepUsesOneUnit(c, s, Step(c, s, 0));
    }
  }

  /** A root step changes the root and at most the rank it exchanges a packet with. */
  lemma RootStepUsesOneUnit<P, A>(c: Config<P, A>, s: State<P, A>, t: State<P, A>)
    requires Inv(c, s) && Enabled(c, s, 0) && t == Step(c, s, 0)
    ensures Work(c, t) == Work(c, s) - 1
  {
    var touched := match s[0].pc case Gather(src, _) => src case Offer(dest, _) => dest case _ => 0;
    assert t == s[touched := t[touched]][0 := t[0]];
    PeersWorkUpdate(c, s, touched, t[touched]);
    PeersWorkUpdate(c, s[touched := t[touched]], 0, t[0]);
    RootUsesOneUnit(c, s);
  }

  lemma RootUsesOneUnit<P, A>(c: Config<P, A>, s: State<P, A>)
    requires Inv(c, s) && Enabled(c, s, 0)
    ensures RootWork(c, Step(c, s, 0)[0]) == RootWork(c, s[0]) - 1
  {
    var left, cost := c.rounds - |s[0].log|, 3 * c.size - 2;
    assert (left - 1) * cost == left * cost - cost;
  }

  ghost predicate Finished<P, A>(c: Config<P, A>, s: State<P, A>) {
    forall r :: 0 <= r < |s| ==> s[r] == Rank(Idle, Totals(c, c.rounds), [], [])
  }

  ghost predicate Stuck<P, A>(c: Config<P, A>, s: State<P, A>)
    requires Shape(c, s)
  {
    forall r: nat :: !Enabled(c, s, r)
  }

  /** Deadlock freedom: a rank that can move in any unfinished state, whatever `eager` allows. */
  lemma SomeRankCanMove<P, A>(c: Config<P, A>, s: State<P, A>) returns (r: nat)
    requires Inv(c, s) && !Finished(c, s)
    ensures Enabled(c, s, r)
  {
    var k := |s[0].log|;
    match s[0].pc
    case Idle =>
      if k < c.rounds { return 0; }
      r :| 0 <= r < |s| && s[r] != Rank(Idle, Totals(c, c.rounds), [], []);
      assert Fresh(c, s[r], r, k);
    case Gather(src, _) =>
      assert Fresh(c, s[src], src, k);
      r := if s[src].up != [] then 0 else src;
    case Offer(_, _) =>
      r := 0;
    case OfferWait(dest, _) =>
      assert Answered(c, s[dest], dest, k);
      r := if s[dest].down == [] then 0 else dest;
  }

  lemma StuckIffFinished<P, A>(c: Config<P, A>, s: State<P, A>)
    requires Inv(c, s)
    ensures Stuck(c, s) <==> Finished(c, s)
  {
    if !Finished(c, s) { var _ := SomeRankCanMove(c, s); }
  }

  lemma {:induction false} IdleWork<P, A>(c: Config<P, A>, s: State<P, A>, done: nat)
    requires |s| > 0 && forall r :: 0 <= r < |s| ==> s[r].pc == Idle && |s[r].log| == done
    ensures PeersWork(c, s) == 3 * (c.rounds - done) * (|s| - 1)
  {
    if |s| > 1 {
      IdleWork(c, s[..|s| - 1], done);
      assert 3 * (c.rounds - done) * (|s| - 1) == 3 * (c.rounds - done) * (|s| - 2) + 3 * (c.rounds - done);
    }
  }

  lemma {:induction false} PeersWorkNonNegative<P, A>(c: Config<P, A>, s: State<P, A>)
    requires forall r :: 0 < r < |s| ==> PeerWork(c, s[r]) >= 0
    ensures PeersWork(c, s) >= 0
  {
    if |s| > 1 { PeersWorkNonNegative(c, s[..|s| - 1]); }
  }

  lemma WorkNonNegative<P, A>(c: Config<P, A>, s: State<P, A>)
    requires Inv(c, s)
    ensures Work(c, s) >= 0
  {
    forall r: nat | 0 < r < |s| ensures PeerWork(c, s[r]) >= 0 { PeerView(c, s, r); }
    PeersWorkNonNegative(c, s);
    RootWorkNonNegative(c, c.rounds - |s[0].log|, s[0]);
  }

  lemma RootWorkNonNegative<P, A>(c: Config<P, A>, left: nat, me: Rank<P, A>)
    requires c.size > 0 && left == c.rounds - |me.log|
    requires me.pc.Idle? || left > 0
    requires me.pc.Gather? ==> me.pc.src < c.size
    requires me.pc.Offer? || me.pc.OfferWait? ==> me.pc.dest < c.size
    requires !me.pc.SendWait? && !me.pc.RecvWait?
    ensures RootWork(c, me) >= 0
  {
    if left > 0 { AtLeastOnce(left, 3 * c.size - 2); }
  }

  lemma AtLeastOnce(n: nat, cost: nat)
    requires n > 0
    ensures n * cost >= cost
  {
    assert n * cost == (n - 1) * cost + cost;
  }

  lemma {:induction false} RunUsesItsLength<P, A>(c: Config<P, A>, s: State<P, A>, sched: seq<nat>, t: State<P, A>)
    requires Inv(c, s) && Run(c, s, sched, t)
    ensures Inv(c, t) && Work(c, t) == Work(c, s) - |sched|
    decreases |sched|
  {
    if sched != [] {
      StepUsesOneUnit(c, s, sched[0]);
      StepKeepsInv(c, s, sched[0]);
      RunUsesItsLength(c, Step(c, s, sched[0]), sched[1..], t);
    }
  }

  lemma StuckIffNoWork<P, A>(c: Config<P, A>, s: State<P, A>)
    requires Inv(c, s)
    ensures Stuck(c, s) <==> Work(c, s) == 0
  {
    StuckIffFinished(c, s);
    if Stuck(c, s) {
      IdleWork(c, s, c.rounds);
    } else {
      var r: nat :| Enabled(c, s, r);
      StepUsesOneUnit(c, s, r);
      StepKeepsInv(c, s, r);
      WorkNonNegative(c, Step(c, s, r));
    }
  }

  lemma InitialWork<P, A>(c: Config<P, A>)
    requires c.size > 0
    ensures Work(c, Initial(c)) == c.rounds * (6 * c.size - 5)
  {
    IdleWork(c, Initial(c), 0);
    Distribute(c.rounds, c.size);
  }

  lemma Distribute(k: int, n: int)
    ensures k * (3 * n - 2) + 3 * k * (n - 1) == k * (6 * n - 5)
  {
    assert k * (3 * n - 2) == 3 * (k * n) - 2 * k;
    assert 3 * k * (n - 1) == 3 * (k * n) - 3 * k;
    assert k * (6 * n - 5) == 6 * (k * n) - 5 * k;
  }

  /** Progress: a run can be extended exactly while it is shorter than
      rounds * (6 * size - 5) steps, so no schedule diverges, none deadlocks,
      and every maximal run ends with the same logs on every rank and with
      all channels drained. */
  lemma EveryMaximalRunFinishes<P, A>(c: Config<P, A>, sched: seq<nat>, s: State<P, A>)
    requires c.size > 0 && Run(c, Initial(c), sched, s)
    ensures |sched| <= c.rounds * (6 * c.size - 5)
    ensures Stuck(c, s) <==> |sched| == c.rounds * (6 * c.size - 5)
    ensures Stuck(c, s) <==> Finished(c, s)
  {
    InitialInv(c);
    InitialWork(c);
    RunUsesItsLength(c, Initial(c), sched, s);
    StuckIffFinished(c, s);
    WorkNonNegative(c, s);
    StuckIffNoWork(c, s);
  }
}
