/** The suggester of the options engine: a rolling-row edit distance and the nearest flag. */
module EditDistance {
  import opened Basics

  /** Bytes of a character in UTF-8 (section 3 of RFC 3629). */
  function Utf8Bytes(c: char): nat {
    if c as int < 0x80 then 1 else if c as int < 0x800 then 2 else if c as int < 0x1_0000 then 3 else 4
  }

  function ByteLength(s: string): nat {
    if s == "" then 0 else ByteLength(Front(s)) + Utf8Bytes(Last(s))
  }

  function Front(s: string): string
    requires s != ""
  {
    s[..|s| - 1]
  }

  function Last(s: string): char
    requires s != ""
  {
    s[|s| - 1]
  }

  function Differ(c: char, d: char): nat { if c == d then 0 else 1 }

  function CharAt(s: string, i: nat): char { if i < |s| then s[i] else '\0' }

  /** The recurrence of the edit distance, between the first i characters of a and the first j of b. */
  function Lev(a: string, b: string, i: nat, j: nat): nat {
    if i == 0 then j
    else if j == 0 then i
    else
      Min(Min(Lev(a, b, i, j - 1) + 1, Lev(a, b, i - 1, j) + 1),
          Lev(a, b, i - 1, j - 1) + Differ(CharAt(a, i - 1), CharAt(b, j - 1)))
  }

  function Distance(a: string, b: string): nat { Lev(a, b, |a|, |b|) }

  /** What the rolling rows compute: the first row has one entry per byte of b. */
  function Dist(a: string, b: string): nat { if a == "" then ByteLength(b) else Distance(a, b) }

  /** prev is row i of the table. */
  ghost predicate IsRow(prev: seq<nat>, a: string, b: string, i: nat) {
    |prev| > |b| && forall j :: 0 <= j <= |b| ==> prev[j] == Lev(a, b, i, j)
  }

  method RollingRows(a: string, b: string) returns (d: nat)
    ensures d == Dist(a, b)
  {
    ByteLengthBounds(b);
    var prev: seq<nat> := seq(ByteLength(b) + 1, j requires 0 <= j => j);
    for i := 0 to |a|
      invariant IsRow(prev, a, b, i)
      invariant if i == 0 then prev[|prev| - 1] == ByteLength(b) else |prev| == |b| + 1
    {
      prev := NextRow(prev, a, b, i);
    }
    d := prev[|prev| - 1];
  }

  method NextRow(prev: seq<nat>, a: string, b: string, i: nat) returns (curr: seq<nat>)
    requires i < |a| && IsRow(prev, a, b, i)
    ensures IsRow(curr, a, b, i + 1) && |curr| == |b| + 1
  {
    curr := [i + 1];
    for j := 0 to |b|
      invariant |curr| == j + 1
      invariant forall k :: 0 <= k <= j ==> curr[k] == Lev(a, b, i + 1, k)
    {
      var ins, del, sub := curr[j] + 1, prev[j + 1] + 1, prev[j] + Differ(a[i], b[j]);
      curr := curr + [Min(Min(ins, del), sub)];
    }
  }

  predicate IsAscii(s: string) { forall i :: 0 <= i < |s| ==> s[i] as int < 0x80 }

  lemma {:induction false} ByteLengthBounds(s: string)
    ensures ByteLength(s) >= |s|
    ensures ByteLength(s) == |s| <==> IsAscii(s)
  {
    if s != "" {
      ByteLengthBounds(Front(s));
      assert s == Front(s) + [Last(s)];
    }
  }

  /** The computed number is the edit distance except from the empty string to a non-ASCII one. */
  lemma DistIsDistance(a: string, b: string)
    ensures Dist(a, b) == Distance(a, b) <==> a != "" || IsAscii(b)
  {
    ByteLengthBounds(b);
  }

  /** Not symmetric beyond ASCII: a character of two to four bytes costs as many to insert into nothing, one to delete.
      `DistIsSymmetricIff` below has the exact condition. */
  lemma NonAsciiIsAsymmetric()
    ensures Dist("", "\U{E9}") == 2 && Dist("\U{E9}", "") == 1 && Distance("", "\U{E9}") == 1
    ensures Dist("", "\U{20AC}") == 3 && Dist("", "\U{1F600}") == 4
  {
    assert Front("\U{E9}") == "" && Front("\U{20AC}") == "" && Front("\U{1F600}") == "";
  }

  // ---- the distance as the cost of a cheapest script -------------------------

  datatype Edit = Keep | Substitute(c: char) | Insert(c: char) | Delete

  /** Adds a last character, if there is a string to add it to. */
  function Append(r: Option<string>, c: char): Option<string> {
    if r.Some? then Some(r.value + [c]) else None
  }

  /** What a script, read left to right along a, makes of a; None where it does not fit. */
  function Apply(es: seq<Edit>, a: string): Option<string> {
    if es == [] then if a == "" then Some("") else None
    else
      var rest := es[..|es| - 1];
      match es[|es| - 1]
      case Insert(c) => Append(Apply(rest, a), c)
      case Keep => if a == "" then None else Append(Apply(rest, Front(a)), Last(a))
      case Substitute(c) => if a == "" then None else Append(Apply(rest, Front(a)), c)
      case Delete => if a == "" then None else Apply(rest, Front(a))
  }

  function Cost(es: seq<Edit>): nat {
    if es == [] then 0 else Cost(es[..|es| - 1]) + if es[|es| - 1].Keep? then 0 else 1
  }

  lemma {:induction false} ScriptCosts(es: seq<Edit>, a: string, b: string, i: nat, j: nat)
    requires i <= |a| && j <= |b| && Apply(es, a[..i]) == Some(b[..j])
    ensures Lev(a, b, i, j) <= Cost(es)
  {
    if es != [] {
      var rest := es[..|es| - 1];
      match es[|es| - 1]
      case Insert(c) =>
        assert b[..j] == Front(b[..j]) + [Last(b[..j])] && Front(b[..j]) == b[..j - 1];
        ScriptCosts(rest, a, b, i, j - 1);
      case Delete =>
        assert Front(a[..i]) == a[..i - 1];
        ScriptCosts(rest, a, b, i - 1, j);
      case _ =>
        assert b[..j] == Front(b[..j]) + [Last(b[..j])] && Front(b[..j]) == b[..j - 1];
        assert Front(a[..i]) == a[..i - 1];
        ScriptCosts(rest, a, b, i - 1, j - 1);
    }
  }

  /** A script of the two prefixes without what its last edit consumes and produces. */
  lemma WithLastEdit(rest: seq<Edit>, e: Edit, a: string, b: string, i: nat, j: nat)
    requires i <= |a| && j <= |b| && (e.Insert? || i > 0) && (e.Delete? || j > 0)
    requires e.Delete? ||
      b[j - 1] == match e case Keep => a[i - 1] case Substitute(c) => c case Insert(c) => c case Delete => ' '
    requires Apply(rest, a[..if e.Insert? then i else i - 1]) == Some(b[..if e.Delete? then j else j - 1])
    ensures Apply(rest + [e], a[..i]) == Some(b[..j])
    ensures Cost(rest + [e]) == Cost(rest) + if e.Keep? then 0 else 1
  {
    assert (rest + [e])[..|rest|] == rest;
    if !e.Insert? { assert Front(a[..i]) == a[..i - 1]; }
    if !e.Delete? { assert b[..j] == b[..j - 1] + [b[j - 1]]; }
  }

  lemma {:induction false} BestScript(a: string, b: string, i: nat, j: nat) returns (es: seq<Edit>)
    requires i <= |a| && j <= |b|
    ensures Apply(es, a[..i]) == Some(b[..j]) && Cost(es) == Lev(a, b, i, j)
  {
    if i == 0 && j == 0 {
      es := [];
    } else if i == 0 || (j > 0 && Lev(a, b, i, j) == Lev(a, b, i, j - 1) + 1) {
      var rest := BestScript(a, b, i, j - 1);
      WithLastEdit(rest, Insert(b[j - 1]), a, b, i, j);
      es := rest + [Insert(b[j - 1])];
    } else if j == 0 || Lev(a, b, i, j) == Lev(a, b, i - 1, j) + 1 {
      var rest := BestScript(a, b, i - 1, j);
      WithLastEdit(rest, Delete, a, b, i, j);
      es := rest + [Delete];
    } else {
      var rest := BestScript(a, b, i - 1, j - 1);
      var e := if a[i - 1] == b[j - 1] then Keep else Substitute(b[j - 1]);
      WithLastEdit(rest, e, a, b, i, j);
      es := rest + [e];
    }
  }

  /** `Distance` is the least cost of any script that turns a into b. */
  lemma DistanceIsLeastCost(a: string, b: string)
    ensures exists es :: Apply(es, a) == Some(b) && Cost(es) == Distance(a, b)
    ensures forall es :: Apply(es, a) == Some(b) ==> Distance(a, b) <= Cost(es)
  {
    assert a[..|a|] == a && b[..|b|] == b;
    var best := BestScript(a, b, |a|, |b|);
    forall es | Apply(es, a) == Some(b) ensures Distance(a, b) <= Cost(es) { ScriptCosts(es, a, b, |a|, |b|); }
  }

  lemma {:induction false} ZeroIffEqual(a: string, b: string, i: nat, j: nat)
    requires i <= |a| && j <= |b|
    ensures Lev(a, b, i, j) == 0 <==> a[..i] == b[..j]
  {
    if i > 0 && j > 0 {
      ZeroIffEqual(a, b, i - 1, j - 1);
      assert a[..i] == a[..i - 1] + [a[i - 1]] && b[..j] == b[..j - 1] + [b[j - 1]];
    }
  }

  type Table = (nat, nat) -> nat

  /** A table with values t and substitution costs d obeys the recurrence at (i, j). */
  ghost predicate CellAt(t: Table, d: Table, i: nat, j: nat) {
    if i == 0 then t(i, j) == j
    else if j == 0 then t(i, j) == i
    else
      var ins, del, sub := t(i, j - 1) + 1, t(i - 1, j) + 1, t(i - 1, j - 1) + d(i - 1, j - 1);
      t(i, j) <= ins && t(i, j) <= del && t(i, j) <= sub && (t(i, j) == ins || t(i, j) == del || t(i, j) == sub)
  }

  ghost predicate Fits(t: Table, d: Table) { forall i, j :: CellAt(t, d, i, j) }

  ghost predicate CostsCompose(ab: Table, bc: Table, ac: Table, i: nat, j: nat, k: nat) {
    ac(i, k) <= ab(i, j) + bc(j, k)
  }

  ghost predicate CostsSwap(d: Table, d': Table, i: nat, j: nat) { d(i, j) == d'(j, i) }

  lemma {:induction false} Transposed(t: Table, d: Table, t': Table, d': Table, i: nat, j: nat)
    requires Fits(t, d) && Fits(t', d') && forall i, j :: CostsSwap(d, d', i, j)
    ensures t(i, j) == t'(j, i)
  {
    assert CellAt(t, d, i, j) && CellAt(t', d', j, i);
    if i > 0 && j > 0 {
      assert CostsSwap(d, d', i - 1, j - 1);
      Transposed(t, d, t', d', i, j - 1);
      Transposed(t, d, t', d', i - 1, j);
      Transposed(t, d, t', d', i - 1, j - 1);
    }
  }

  /** From a to c through b, by the way the two tables reach their cells. */
  lemma {:induction false} Triangle(ab: Table, bc: Table, ac: Table, dab: Table, dbc: Table, dac: Table, i: nat, j: nat,
                                    k: nat)
    requires Fits(ab, dab) && Fits(bc, dbc) && Fits(ac, dac) && forall i, j, k :: CostsCompose(dab, dbc, dac, i, j, k)
    ensures ac(i, k) <= ab(i, j) + bc(j, k)
    decreases i + j + k
  {
    assert CellAt(ab, dab, i, j) && CellAt(bc, dbc, j, k) && CellAt(ac, dac, i, k);
    var inserted := j > 0 && (i == 0 || ab(i, j) == ab(i, j - 1) + 1);
    var deleted := j > 0 && (k == 0 || bc(j, k) == bc(j - 1, k) + 1);
    if i > 0 && (j == 0 || ab(i, j) == ab(i - 1, j) + 1) {
      Triangle(ab, bc, ac, dab, dbc, dac, i - 1, j, k);
      assert CellAt(ab, dab, i - 1, j) && CellAt(ac, dac, i - 1, k);
    } else if k > 0 && (j == 0 || bc(j, k) == bc(j, k - 1) + 1) {
      Triangle(ab, bc, ac, dab, dbc, dac, i, j, k - 1);
      assert CellAt(bc, dbc, j, k - 1) && CellAt(ac, dac, i, k - 1);
    } else if inserted && deleted {
      Triangle(ab, bc, ac, dab, dbc, dac, i, j - 1, k);
      assert CellAt(ab, dab, i, j - 1) && CellAt(bc, dbc, j - 1, k);
    } else if inserted {
      Triangle(ab, bc, ac, dab, dbc, dac, i, j - 1, k - 1);
      assert CellAt(ab, dab, i, j - 1) && CellAt(ac, dac, i, k - 1);
    } else if deleted {
      Triangle(ab, bc, ac, dab, dbc, dac, i - 1, j - 1, k);
      assert CellAt(bc, dbc, j - 1, k) && CellAt(ac, dac, i - 1, k);
    } else if j > 0 {
      Triangle(ab, bc, ac, dab, dbc, dac, i - 1, j - 1, k - 1);
      assert CostsCompose(dab, dbc, dac, i - 1, j - 1, k - 1);
    }
  }

  function Levs(a: string, b: string): Table { (i, j) => Lev(a, b, i, j) }

  function Costs(a: string, b: string): Table { (i, j) => Differ(CharAt(a, i), CharAt(b, j)) }

  lemma LevFits(a: string, b: string)
    ensures Fits(Levs(a, b), Costs(a, b))
  {
    forall i, j ensures CellAt(Levs(a, b), Costs(a, b), i, j) {}
  }

  lemma DistanceSymmetric(a: string, b: string)
    ensures Distance(a, b) == Distance(b, a)
  {
    LevFits(a, b);
    LevFits(b, a);
    forall i, j ensures CostsSwap(Costs(a, b), Costs(b, a), i, j) {}
    Transposed(Levs(a, b), Costs(a, b), Levs(b, a), Costs(b, a), |a|, |b|);
  }

  /** The computed number is symmetric unless one string is empty and the other is not ASCII. */
  lemma DistIsSymmetricIff(a: string, b: string)
    ensures Dist(a, b) == Dist(b, a) <==> (a == "" ==> IsAscii(b)) && (b == "" ==> IsAscii(a))
  {
    DistanceSymmetric(a, b);
    DistIsDistance(a, b);
    DistIsDistance(b, a);
  }

  lemma DistanceTriangle(a: string, b: string, c: string)
    ensures Distance(a, c) <= Distance(a, b) + Distance(b, c)
  {
    LevFits(a, b);
    LevFits(b, c);
    LevFits(a, c);
    forall i, j, k ensures CostsCompose(Costs(a, b), Costs(b, c), Costs(a, c), i, j, k) {}
    Triangle(Levs(a, b), Levs(b, c), Levs(a, c), Costs(a, b), Costs(b, c), Costs(a, c), |a|, |b|, |c|);
  }

  /** Among ASCII strings the computed number is a metric. */
  lemma DistIsAMetric(a: string, b: string, c: string)
    requires IsAscii(a) && IsAscii(b) && IsAscii(c)
    ensures Dist(a, b) == Dist(b, a)
    ensures Dist(a, b) == 0 <==> a == b
    ensures Dist(a, c) <= Dist(a, b) + Dist(b, c)
  {
    DistIsDistance(a, b);
    DistIsDistance(b, a);
    DistIsDistance(a, c);
    DistIsDistance(b, c);
    assert a[..|a|] == a && b[..|b|] == b;
    DistanceSymmetric(a, b);
    ZeroIffEqual(a, b, |a|, |b|);
    DistanceTriangle(a, b, c);
  }

  // ---- the nearest candidate ---------------------------------------------------

  const LIMIT: nat := 3

  /** Index of the first candidate of least distance. */
  function Closest(needle: string, hay: seq<string>): (k: nat)
    requires hay != []
    ensures k < |hay|
    ensures forall i :: 0 <= i < |hay| ==> Dist(needle, hay[k]) <= Dist(needle, hay[i])
    ensures forall i :: 0 <= i < k ==> Dist(needle, hay[k]) < Dist(needle, hay[i])
  {
    var n := |hay| - 1;
    if n == 0 then 0
    else
      var k := Closest(needle, hay[..n]);
      if Dist(needle, hay[n]) < Dist(needle, hay[k]) then n else k
  }

  function Nearest(needle: string, hay: seq<string>): Option<string> {
    if hay == [] then None
    else
      var best := hay[Closest(needle, hay)];
      if Dist(needle, best) <= LIMIT then Some(best) else None
  }

  /** One pass that keeps the first minimum, then the bound on the distance. */
  method FindNearest(needle: string, hay: seq<string>) returns (r: Option<string>)
    ensures r == Nearest(needle, hay)
  {
    if |hay| == 0 { return None; }
    var k := 0;
    var least := RollingRows(needle, hay[0]);
    for i := 1 to |hay|
      invariant k == Closest(needle, hay[..i]) && least == Dist(needle, hay[k])
    {
      var d := RollingRows(needle, hay[i]);
      assert hay[..i + 1][..i] == hay[..i];
      if d < least { k, least := i, d; }
    }
    assert hay[..|hay|] == hay;
    r := if least <= LIMIT then Some(hay[k]) else None;
  }

  /** A suggestion is the first candidate of least distance, and there is none exactly when
      every candidate is farther than three edits. */
  lemma NearestIsFirstLeast(needle: string, hay: seq<string>)
    ensures Nearest(needle, hay) == None <==> forall i :: 0 <= i < |hay| ==> Dist(needle, hay[i]) > 3
    ensures forall s :: Nearest(needle, hay) == Some(s) <==>
      exists k :: 0 <= k < |hay| && hay[k] == s && Dist(needle, s) <= 3
        && (forall i :: 0 <= i < |hay| ==> Dist(needle, s) <= Dist(needle, hay[i]))
        && forall i :: 0 <= i < k ==> Dist(needle, s) < Dist(needle, hay[i])
  {
  }
}
