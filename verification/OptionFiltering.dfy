/** What a prefix filter does to a pass: when it is a projection, and how disjoint prefixes share out the entries. */
module OptionFiltering {
  import opened Basics
  import opened OptionParser

  function Select(entries: seq<Entry>, p: string): seq<Entry> {
    if entries == [] then []
    else (if StartsWith(entries[0].tok, p) then [entries[0]] else []) + Select(entries[1..], p)
  }

  // ---- single tokens ---------------------------------------------------------------

  /** A filtered pass that stands on this token steps over it: it does not read as a flag of the
      prefix, or it is a longer option path. */
  predicate PassedOver(specs: seq<Spec>, tok: string, p: string) {
    !LooksLikeFlag(tok, Some(p)) || Resolve(specs, tok, Some(p)).Foreign?
  }

  lemma SkipsIffPassedOver(specs: seq<Spec>, args: seq<string>, p: string)
    requires args != []
    ensures Next(specs, args, Some(p)).Skip? <==> PassedOver(specs, args[0], p)
  {
  }

  lemma {:induction false} SkipsOver(specs: seq<Spec>, args: seq<string>, n: nat, p: string)
    requires n <= |args| && forall k :: 0 <= k < n ==> PassedOver(specs, args[k], p)
    ensures Parse(specs, args, Some(p)) == Parse(specs, args[n..], Some(p))
  {
    if n > 0 {
      SkipsIffPassedOver(specs, args, p);
      SkipsOver(specs, args[1..], n - 1, p);
      assert args[1..][n - 1..] == args[n..];
    } else {
      assert args[0..] == args;
    }
  }

  /** A flag inside the prefix that the unfiltered pass takes is taken in the same way. */
  lemma NativeIsTaken(specs: seq<Spec>, args: seq<string>, p: string)
    requires args != [] && Next(specs, args, None).Emit? && StartsWith(args[0], p)
    ensures Next(specs, args, Some(p)) == Next(specs, args, None) && !PassedOver(specs, args[0], p)
  {
  }

  // ---- passes as steps by position -----------------------------------------------------

  type Steps = nat -> Step

  /** A pass from position i on, over n tokens, that does steps(i) at i. */
  function Run(n: nat, steps: Steps, i: nat): Parsed
    decreases n - i
  {
    if i >= n then Parsed([], None)
    else
      match steps(i)
      case Skip => Run(n, steps, i + 1)
      case Fail(error) => Parsed([], Some(error))
      case Emit(entry, m) =>
        if m == 0 then Parsed([], None)
        else
          var rest := Run(n, steps, i + m);
          Parsed([entry] + rest.entries, rest.error)
  }

  function StepsOf(specs: seq<Spec>, args: seq<string>, filter: Option<string>): Steps {
    (i: nat) => if i < |args| then Next(specs, args[i..], filter) else Skip
  }

  lemma {:induction false} ParseIsRun(specs: seq<Spec>, args: seq<string>, filter: Option<string>, i: nat)
    requires i <= |args|
    ensures Parse(specs, args[i..], filter) == Run(|args|, StepsOf(specs, args, filter), i)
    decreases |args| - i
  {
    if i < |args| {
      match Next(specs, args[i..], filter)
      case Skip =>
        assert args[i..][1..] == args[i + 1..];
        ParseIsRun(specs, args, filter, i + 1);
      case Fail(_) =>
      case Emit(_, m) =>
        assert args[i..][m..] == args[i + m..];
        ParseIsRun(specs, args, filter, i + m);
    }
  }

  ghost predicate StaysIn(n: nat, steps: Steps, i: nat) {
    i < n && steps(i).Emit? ==> 0 < steps(i).consumed && i + steps(i).consumed <= n
  }

  // ---- a pass that has left the track ----------------------------------------------------

  /** The first position from i on at which a pass stops. */
  lemma {:induction false} FirstStop(n: nat, steps: Steps, i: nat, w: nat) returns (s: nat)
    requires i <= w < n && !steps(w).Skip?
    ensures i <= s <= w && !steps(s).Skip? && Run(n, steps, i) == Run(n, steps, s)
    decreases w - i
  {
    if steps(i).Skip? { s := FirstStop(n, steps, i + 1, w); } else { s := i; }
  }

  /** A pass that succeeds from b on emits its next entry of the prefix at c. */
  lemma {:induction false} FirstNative(n: nat, steps: Steps, p: string, b: nat, ahead: seq<Entry>) returns (c: nat)
    requires b <= n && Run(n, steps, b).error == None && ahead == Select(Run(n, steps, b).entries, p) && ahead != []
    requires forall i :: StaysIn(n, steps, i)
    ensures b <= c < n && steps(c).Emit? && 0 < steps(c).consumed && c + steps(c).consumed <= n
    ensures StartsWith(steps(c).entry.tok, p) && Run(n, steps, c + steps(c).consumed).error == None
    ensures ahead == [steps(c).entry] + Select(Run(n, steps, c + steps(c).consumed).entries, p)
    decreases n - b
  {
    assert StaysIn(n, steps, b);
    if steps(b).Skip? {
      c := FirstNative(n, steps, p, b + 1, ahead);
    } else {
      var rest := Run(n, steps, b + steps(b).consumed);
      assert ([steps(b).entry] + rest.entries)[1..] == rest.entries;
      if StartsWith(steps(b).entry.tok, p) {
        c := b;
      } else {
        c := FirstNative(n, steps, p, b + steps(b).consumed, ahead);
      }
    }
  }

  /** If the filtered pass takes at a what the plain one takes later, at c, it stops again before
      the plain one goes on. */
  ghost predicate StopsAgain(n: nat, filtered: Steps, plain: Steps, p: string, a: nat, c: nat) {
    a < c < n && filtered(a).Emit? && plain(c).Emit? && filtered(a).entry == plain(c).entry
    && StartsWith(plain(c).entry.tok, p)
    ==> exists w :: a + filtered(a).consumed <= w < c + plain(c).consumed <= n && !filtered(w).Skip?
  }

  lemma DifferentTails(e: Entry, a: Parsed, b: seq<Entry>)
    requires a != Parsed(b, None)
    ensures Parsed([e] + a.entries, a.error) != Parsed([e] + b, None)
  {
    assert ([e] + a.entries)[1..] == a.entries && ([e] + b)[1..] == b;
  }

  /** A filtered pass that stands strictly before the plain one, on a token that it does not step
      over, never agrees with it again. */
  lemma {:induction false} NeverAgain(n: nat, filtered: Steps, plain: Steps, p: string, a: nat, b: nat,
                                      ahead: seq<Entry>)
    requires forall i :: StaysIn(n, filtered, i) && StaysIn(n, plain, i)
    requires forall i, j :: StopsAgain(n, filtered, plain, p, i, j)
    requires a < b <= n && Run(n, plain, b).error == None && !filtered(a).Skip?
    requires ahead == Select(Run(n, plain, b).entries, p)
    ensures Run(n, filtered, a) != Parsed(ahead, None)
    decreases n - a
  {
    assert StaysIn(n, filtered, a);
    if filtered(a).Emit? && ahead != [] && ahead[0] == filtered(a).entry {
      var c := FirstNative(n, plain, p, b, ahead);
      var next := c + plain(c).consumed;
      assert StopsAgain(n, filtered, plain, p, a, c);
      var w :| a + filtered(a).consumed <= w < next && !filtered(w).Skip?;
      var s := FirstStop(n, filtered, a + filtered(a).consumed, w);
      var rest := Select(Run(n, plain, next).entries, p);
      NeverAgain(n, filtered, plain, p, s, next, rest);
      DifferentTails(filtered(a).entry, Run(n, filtered, s), rest);
    } else if filtered(a).Emit? {
      assert Run(n, filtered, a).entries[0] == filtered(a).entry;
    }
  }

  /** The tokens of the parser stop a pass again: a flag is no boolean word, and what an option takes
      at a overlaps what it takes at c only where both hold the flag itself. */
  lemma TokensStopAgain(specs: seq<Spec>, args: seq<string>, p: string, a: nat, c: nat)
    ensures StopsAgain(|args|, StepsOf(specs, args, Some(p)), StepsOf(specs, args, None), p, a, c)
  {
    var n, filtered, plain := |args|, StepsOf(specs, args, Some(p)), StepsOf(specs, args, None);
    if a < c < n && filtered(a).Emit? && plain(c).Emit? && filtered(a).entry == plain(c).entry
       && StartsWith(args[c], p) {
      var w := SameFlagAgain(specs, args, p, a, c, filtered(a).consumed, plain(c).consumed);
      NativeIsTaken(specs, args[c..], p);
      SkipsIffPassedOver(specs, args[w..], p);
      assert args[w..][0] == args[c..][0];
      assert !filtered(w).Skip?;
    }
  }

  lemma SameFlagAgain(specs: seq<Spec>, args: seq<string>, p: string, a: nat, c: nat, m: nat, n: nat) returns (w: nat)
    requires a < c < |args| && Next(specs, args[a..], Some(p)).Emit? && Next(specs, args[c..], None).Emit?
    requires Next(specs, args[a..], Some(p)).entry == Next(specs, args[c..], None).entry && StartsWith(args[c], p)
    requires m == Next(specs, args[a..], Some(p)).consumed && n == Next(specs, args[c..], None).consumed
    ensures a + m <= w < c + n <= |args| && args[w] == args[c]
  {
    var spec := Find(specs, args[c]).value;
    assert args[a..][0] == args[c..][0] == args[c];
    if a + 1 == c {
      FlagIsNoWord(args[c]);
      assert args[a..][1] == args[c];
    }
    if a + m <= c || IsToggle(spec) {
      w := c;
    } else if spec.arity.One? {
      assert args[a..][1] == args[c..][1];
      w := c + 1;
    } else {
      assert args[a..][1] == args[c..][1] && args[a..][2] == args[c..][2];
      w := c + 2;
    }
  }

  /** The same in terms of the parser. */
  lemma LeavesTheTrack(specs: seq<Spec>, args: seq<string>, p: string, a: nat, b: nat)
    requires a < b <= |args| && Parse(specs, args[b..], None).error == None && !PassedOver(specs, args[a], p)
    ensures Parse(specs, args[a..], Some(p)) != Parsed(Select(Parse(specs, args[b..], None).entries, p), None)
  {
    var n, filtered, plain := |args|, StepsOf(specs, args, Some(p)), StepsOf(specs, args, None);
    forall i ensures StaysIn(n, filtered, i) && StaysIn(n, plain, i) {}
    forall i, j ensures StopsAgain(n, filtered, plain, p, i, j) { TokensStopAgain(specs, args, p, i, j); }
    SkipsIffPassedOver(specs, args[a..], p);
    ParseIsRun(specs, args, Some(p), a);
    ParseIsRun(specs, args, None, b);
    NeverAgain(n, filtered, plain, p, a, b, Select(Run(n, plain, b).entries, p));
  }

  // ---- filtering is a projection -----------------------------------------------------

  /** A filtered pass steps over every value of an option outside the prefix. */
  predicate Harmless(specs: seq<Spec>, args: seq<string>, p: string) {
    args != [] ==>
      match Next(specs, args, None)
      case Skip => Harmless(specs, args[1..], p)
      case Fail(_) => true
      case Emit(_, n) =>
        && (StartsWith(args[0], p) || forall k :: 1 <= k < n ==> PassedOver(specs, args[k], p))
        && Harmless(specs, args[n..], p)
  }

  ghost predicate Projects(specs: seq<Spec>, args: seq<string>, p: string) {
    Parse(specs, args, Some(p)) == Parsed(Select(Parse(specs, args, None).entries, p), None)
  }

  lemma NativeProjects(specs: seq<Spec>, args: seq<string>, p: string, n: nat)
    requires args != [] && Next(specs, args, None).Emit? && StartsWith(args[0], p)
    requires n == Next(specs, args, None).consumed
    ensures Projects(specs, args, p) <==> Projects(specs, args[n..], p)
  {
    var e, rest := Next(specs, args, None).entry, Parse(specs, args[n..], None);
    NativeIsTaken(specs, args, p);
    assert ([e] + rest.entries)[1..] == rest.entries;
    var filtered, selected := Parse(specs, args[n..], Some(p)), Select(rest.entries, p);
    if filtered != Parsed(selected, None) { DifferentTails(e, filtered, selected); }
  }

  lemma {:induction false} FirstUnpassed(specs: seq<Spec>, args: seq<string>, p: string, n: nat) returns (w: nat)
    requires n <= |args| && exists k :: 0 <= k < n && !PassedOver(specs, args[k], p)
    ensures w < n && !PassedOver(specs, args[w], p) && forall k :: 0 <= k < w ==> PassedOver(specs, args[k], p)
  {
    if k :| 0 <= k < n - 1 && !PassedOver(specs, args[k], p) {
      w := FirstUnpassed(specs, args, p, n - 1);
    } else {
      w := n - 1;
    }
  }

  lemma ForeignProjects(specs: seq<Spec>, args: seq<string>, p: string, n: nat)
    requires args != [] && Parse(specs, args, None).error == None
    requires Next(specs, args, None).Emit? && !StartsWith(args[0], p) && n == Next(specs, args, None).consumed
    ensures Projects(specs, args, p) <==>
      (forall k :: 1 <= k < n ==> PassedOver(specs, args[k], p)) && Projects(specs, args[n..], p)
  {
    var e, rest := Next(specs, args, None).entry, Parse(specs, args[n..], None);
    assert ([e] + rest.entries)[1..] == rest.entries;
    assert PassedOver(specs, args[0], p);
    if forall k :: 1 <= k < n ==> PassedOver(specs, args[k], p) {
      SkipsOver(specs, args, n, p);
    } else {
      var w := FirstUnpassed(specs, args, p, n);
      SkipsOver(specs, args, w, p);
      LeavesTheTrack(specs, args, p, w, n);
    }
  }

  /** If the unfiltered pass succeeds, the filtered pass emits the entries of its prefix and no others
      exactly when it steps over every value of an option outside the prefix. */
  lemma {:induction false} ProjectionIffHarmless(specs: seq<Spec>, args: seq<string>, p: string)
    requires Parse(specs, args, None).error == None
    ensures Parse(specs, args, Some(p)) == Parsed(Select(Parse(specs, args, None).entries, p), None) <==>
      Harmless(specs, args, p)
    decreases |args|
  {
    if args != [] {
      match Next(specs, args, None)
      case Skip =>
        ProjectionIffHarmless(specs, args[1..], p);
      case Fail(_) =>
      case Emit(_, n) =>
        ProjectionIffHarmless(specs, args[n..], p);
        if StartsWith(args[0], p) { NativeProjects(specs, args, p, n); } else { ForeignProjects(specs, args, p, n); }
    }
  }

  /** In particular when no such value reads as a flag of the prefix. */
  predicate NoForeignValue(specs: seq<Spec>, args: seq<string>, p: string) {
    args != [] ==>
      match Next(specs, args, None)
      case Skip => NoForeignValue(specs, args[1..], p)
      case Fail(_) => true
      case Emit(_, n) =>
        && (StartsWith(args[0], p) || forall k :: 1 <= k < n ==> !LooksLikeFlag(args[k], Some(p)))
        && NoForeignValue(specs, args[n..], p)
  }

  lemma {:induction false} PlainValuesAreHarmless(specs: seq<Spec>, args: seq<string>, p: string)
    requires NoForeignValue(specs, args, p)
    ensures Harmless(specs, args, p)
    decreases |args|
  {
    if args != [] {
      match Next(specs, args, None)
      case Skip => PlainValuesAreHarmless(specs, args[1..], p);
      case Fail(_) =>
      case Emit(_, n) => PlainValuesAreHarmless(specs, args[n..], p);
    }
  }

  lemma FilterIsProjection(specs: seq<Spec>, args: seq<string>, p: string)
    requires Parse(specs, args, None).error == None && NoForeignValue(specs, args, p)
    ensures Parse(specs, args, Some(p)) == Parsed(Select(Parse(specs, args, None).entries, p), None)
  {
    PlainValuesAreHarmless(specs, args, p);
    ProjectionIffHarmless(specs, args, p);
  }

  /** Without the condition on values a filtered pass can invent an event. */
  lemma ForeignValueIsTaken()
    ensures var specs := [Spec("-pc_x", "x", One), Spec("-ksp_y", "y", Zero)];
      var args := ["-pc_x", "-ksp_y"];
      Parse(specs, args, None) == Parsed([Entry("-pc_x", SetVal(specs[0], "-ksp_y"))], None)
      && Parse(specs, args, Some("-ksp_")) == Parsed([Entry("-ksp_y", SetBool("y", true))], None)
  {
    var specs := [Spec("-pc_x", "x", One), Spec("-ksp_y", "y", Zero)];
    var args := ["-pc_x", "-ksp_y"];
    assert specs[..1] == [specs[0]] && args[1..] == ["-ksp_y"] && args[2..] == [] && ["-ksp_y"][1..] == [];
    assert Find(specs, "-pc_x") == Find(specs[..1], "-pc_x") == Some(specs[0]);
    assert !LooksLikeFlag(args[0], Some("-ksp_")) by { assert "-pc_x"[1] != "-ksp_"[1]; }
    assert LooksLikeFlag(args[1], Some("-ksp_"));
  }

  // ---- disjoint prefixes share out the entries ----------------------------------

  function Hits(tok: string, ps: seq<string>): nat {
    if ps == [] then 0 else (if StartsWith(tok, ps[0]) then 1 else 0) + Hits(tok, ps[1..])
  }

  /** The entries of one filtered pass per prefix, together. */
  function Together(specs: seq<Spec>, args: seq<string>, ps: seq<string>): multiset<Entry> {
    if ps == [] then multiset{}
    else multiset(Parse(specs, args, Some(ps[0])).entries) + Together(specs, args, ps[1..])
  }

  function Selections(entries: seq<Entry>, ps: seq<string>): multiset<Entry> {
    if ps == [] then multiset{} else multiset(Select(entries, ps[0])) + Selections(entries, ps[1..])
  }

  lemma {:induction false} SelectionsWithFirst(entries: seq<Entry>, ps: seq<string>)
    requires entries != []
    ensures Selections(entries, ps) == Selections(entries[1..], ps) + Copies(entries[0], Hits(entries[0].tok, ps))
  {
    if ps != [] { SelectionsWithFirst(entries, ps[1..]); }
  }

  function Copies(e: Entry, n: nat): multiset<Entry> { multiset{}[e := n] }

  lemma CountFirst(entries: seq<Entry>)
    requires entries != []
    ensures multiset(entries) == multiset(entries[1..]) + Copies(entries[0], 1)
  {
    assert entries == [entries[0]] + entries[1..];
    assert Copies(entries[0], 1) == multiset{entries[0]};
  }

  lemma {:induction false} SelectionsAreAll(entries: seq<Entry>, ps: seq<string>)
    requires forall e :: e in entries ==> Hits(e.tok, ps) == 1
    ensures Selections(entries, ps) == multiset(entries)
  {
    if entries == [] {
      SelectionsOfNothing(ps);
    } else {
      SelectionsAreAll(entries[1..], ps);
      assert Hits(entries[0].tok, ps) == 1;
      SelectionsWithFirst(entries, ps);
      CountFirst(entries);
    }
  }

  lemma {:induction false} SelectionsOfNothing(ps: seq<string>)
    ensures Selections([], ps) == multiset{}
  {
    if ps != [] { SelectionsOfNothing(ps[1..]); }
  }

  lemma {:induction false} TogetherIsSelections(specs: seq<Spec>, args: seq<string>, ps: seq<string>)
    requires Parse(specs, args, None).error == None
    requires forall p :: p in ps ==> Harmless(specs, args, p)
    ensures Together(specs, args, ps) == Selections(Parse(specs, args, None).entries, ps)
  {
    if ps != [] {
      ProjectionIffHarmless(specs, args, ps[0]);
      TogetherIsSelections(specs, args, ps[1..]);
    }
  }

  /** Filtered passes over prefixes of which each flag has exactly one recover every entry once. */
  lemma PrefixesPartitionTheEntries(specs: seq<Spec>, args: seq<string>, ps: seq<string>)
    requires Parse(specs, args, None).error == None
    requires forall p :: p in ps ==> Harmless(specs, args, p)
    requires forall e :: e in Parse(specs, args, None).entries ==> Hits(e.tok, ps) == 1
    ensures Together(specs, args, ps) == multiset(Parse(specs, args, None).entries)
  {
    TogetherIsSelections(specs, args, ps);
    SelectionsAreAll(Parse(specs, args, None).entries, ps);
  }
}
