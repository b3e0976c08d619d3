/** Expansion of `-options_file <path>` tokens: the recursive expander with its include stack,
    against an independent flattening that has no stack and no cycle check. */
module IncludeExpansion {
  import opened Basics

  type Token = string
  type Path = string

  const INCLUDE: Token := "-options_file"

  /** `files` holds the tokens of every readable file by canonical path.  `resolve(dir, tok)` is the
      canonical path that `tok` names from `dir`, or the joined path where canonicalizing fails. */
  datatype FileSystem = FileSystem(files: map<Path, seq<Token>>, resolve: (Path, Token) -> Path, parent: Path -> Path)

  datatype IncludeError =
    | MissingValue
    | Cycle(chain: seq<Path>)
    | Unreadable(path: Path)

  datatype Expansion = Ok(tokens: seq<Token>) | Err(error: IncludeError)

  function Prepend(out: seq<Token>, r: Expansion): Expansion {
    match r
    case Ok(tokens) => Ok(out + tokens)
    case Err(_) => r
  }

  function Position(stack: seq<Path>, p: Path): (i: nat)
    requires p in stack
    ensures i < |stack| && stack[i] == p && p !in stack[..i]
  {
    if stack[0] == p then 0 else 1 + Position(stack[1..], p)
  }

  /** The readable files that are not being expanded. */
  function Unvisited(fs: FileSystem, stack: seq<Path>): set<Path> { set p | p in fs.files && p !in stack }

  /** The expander as a function of its arguments and the include stack on entry. */
  function Expand(fs: FileSystem, base: Path, stack: seq<Path>, ts: seq<Token>): Expansion
    decreases Unvisited(fs, stack), |ts|
  {
    if ts == [] then Ok([])
    else if ts[0] != INCLUDE then Prepend([ts[0]], Expand(fs, base, stack, ts[1..]))
    else if |ts| == 1 then Err(MissingValue)
    else
      var canon := fs.resolve(base, ts[1]);
      if canon in stack then Err(Cycle(stack[Position(stack, canon)..] + [canon]))
      else if canon !in fs.files then Err(Unreadable(canon))
      else
        assert canon in Unvisited(fs, stack) && canon !in Unvisited(fs, stack + [canon]);
        match Expand(fs, fs.parent(canon), stack + [canon], fs.files[canon])
        case Ok(inner) => Prepend(inner, Expand(fs, base, stack, ts[2..]))
        case Err(e) => Err(e)
  }

  lemma PrependTwice(a: seq<Token>, b: seq<Token>, r: Expansion)
    ensures Prepend(a, Prepend(b, r)) == Prepend(a + b, r)
  {
    if r.Ok? { assert a + (b + r.tokens) == (a + b) + r.tokens; }
  }

  lemma StepOverToken(fs: FileSystem, base: Path, stack: seq<Path>, ts: seq<Token>, i: nat, out: seq<Token>)
    requires i < |ts| && ts[i] != INCLUDE
    ensures Prepend(out, Expand(fs, base, stack, ts[i..])) ==
      Prepend(out + [ts[i]], Expand(fs, base, stack, ts[i + 1..]))
  {
    assert ts[i..][1..] == ts[i + 1..];
    PrependTwice(out, [ts[i]], Expand(fs, base, stack, ts[i + 1..]));
  }

  lemma StepOverInclude(fs: FileSystem, base: Path, stack: seq<Path>, ts: seq<Token>, i: nat, out: seq<Token>,
                        canon: Path)
    requires i + 1 < |ts| && ts[i] == INCLUDE && canon == fs.resolve(base, ts[i + 1]) && canon !in stack
    requires canon in fs.files
    ensures Unvisited(fs, stack + [canon]) < Unvisited(fs, stack)
    ensures Prepend(out, Expand(fs, base, stack, ts[i..])) ==
      match Expand(fs, fs.parent(canon), stack + [canon], fs.files[canon])
      case Ok(inner) => Prepend(out + inner, Expand(fs, base, stack, ts[i + 2..]))
      case Err(e) => Err(e)
  {
    assert canon in Unvisited(fs, stack) && canon !in Unvisited(fs, stack + [canon]);
    assert ts[i..][2..] == ts[i + 2..];
    var inner := Expand(fs, fs.parent(canon), stack + [canon], fs.files[canon]);
    if inner.Ok? { PrependTwice(out, inner.tokens, Expand(fs, base, stack, ts[i + 2..])); }
  }

  /** The expander over a file system, with the include stack it pushes to and pops from. */
  class Expander {
    const fs: FileSystem
    var stack: seq<Path>

    constructor (fs: FileSystem)
      ensures this.fs == fs && stack == []
    {
      this.fs := fs;
      stack := [];
    }

    /** On an error the stack keeps the files being expanded when it was found. */
    method Run(tokens: seq<Token>, base: Path) returns (r: Expansion)
      modifies this
      ensures r == Expand(fs, base, old(stack), tokens)
      ensures old(stack) <= stack
      ensures r.Ok? ==> stack == old(stack)
      decreases Unvisited(fs, stack)
    {
      var out: seq<Token> := [];
      var i := 0;
      while i < |tokens|
        invariant i <= |tokens| && stack == old(stack)
        invariant Expand(fs, base, stack, tokens) == Prepend(out, Expand(fs, base, stack, tokens[i..]))
      {
        if tokens[i] == INCLUDE {
          if i + 1 == |tokens| { return Err(MissingValue); }
          var canon := fs.resolve(base, tokens[i + 1]);
          if canon in stack { return Err(Cycle(stack[Position(stack, canon)..] + [canon])); }
          stack := stack + [canon];
          if canon !in fs.files { return Err(Unreadable(canon)); }
          StepOverInclude(fs, base, old(stack), tokens, i, out, canon);
          var expanded := Run(fs.files[canon], fs.parent(canon));
          if expanded.Err? { return expanded; }
          stack := stack[..|stack| - 1];
          out := out + expanded.tokens;
          i := i + 2;
        } else {
          StepOverToken(fs, base, stack, tokens, i, out);
          out := out + [tokens[i]];
          i := i + 1;
        }
      }
      r := Ok(out);
    }
  }

  // ---- the include graph -----------------------------------------------------

  /** An include token is the last token. */
  predicate Dangling(ts: seq<Token>) {
    if ts == [] then false
    else if ts[0] != "-options_file" then Dangling(ts[1..])
    else |ts| == 1 || Dangling(ts[2..])
  }

  /** The files that tokens read from `base` include directly. */
  function Targets(fs: FileSystem, base: Path, ts: seq<Token>): set<Path> {
    if ts == [] then {}
    else if ts[0] != "-options_file" then Targets(fs, base, ts[1..])
    else if |ts| == 1 then {}
    else {fs.resolve(base, ts[1])} + Targets(fs, base, ts[2..])
  }

  predicate Includes(fs: FileSystem, p: Path, q: Path) {
    p in fs.files && q in Targets(fs, fs.parent(p), fs.files[p])
  }

  /** p[0] is included by the tokens and each file of p includes the next. */
  ghost predicate Walk(fs: FileSystem, base: Path, ts: seq<Token>, p: seq<Path>) {
    p != [] ==> p[0] in Targets(fs, base, ts) && forall i :: 0 <= i < |p| - 1 ==> Includes(fs, p[i], p[i + 1])
  }

  predicate Sound(fs: FileSystem, p: Path) { p in fs.files && !Dangling(fs.files[p]) }

  /** No file of the walk repeats, or is on the stack, and each can be read to its end. */
  ghost predicate Clean(fs: FileSystem, stack: seq<Path>, p: seq<Path>) {
    && (forall i :: 0 <= i < |p| ==> Sound(fs, p[i]) && p[i] !in stack)
    && (forall i, j :: 0 <= i < j < |p| ==> p[i] != p[j])
  }

  lemma {:induction false} OkIsClean(fs: FileSystem, base: Path, stack: seq<Path>, ts: seq<Token>, p: seq<Path>)
    requires Expand(fs, base, stack, ts).Ok? && Walk(fs, base, ts, p)
    ensures !Dangling(ts) && Clean(fs, stack, p)
    decreases Unvisited(fs, stack), |ts|
  {
    if ts == [] {
    } else if ts[0] != INCLUDE {
      OkIsClean(fs, base, stack, ts[1..], p);
    } else {
      var canon := fs.resolve(base, ts[1]);
      assert canon in Unvisited(fs, stack) && canon !in Unvisited(fs, stack + [canon]);
      if p != [] && p[0] == canon {
        OkIsClean(fs, base, stack, ts[2..], []);
        assert p[1..] != [] ==> Includes(fs, p[0], p[1]);
        OkIsClean(fs, fs.parent(canon), stack + [canon], fs.files[canon], p[1..]);
        assert p == [canon] + p[1..];
      } else {
        OkIsClean(fs, base, stack, ts[2..], p);
      }
    }
  }

  /** What the walk p, found with `stack` below it, shows about the error. */
  ghost predicate Reports(fs: FileSystem, ts: seq<Token>, stack: seq<Path>, p: seq<Path>, e: IncludeError) {
    match e
    case MissingValue => Dangling(if p == [] then ts else if p[|p| - 1] in fs.files then fs.files[p[|p| - 1]] else [])
    case Unreadable(path) => p != [] && path == p[|p| - 1] && path !in fs.files
    case Cycle(chain) => p != [] && EndsInCycle(stack + p, chain)
  }

  /** `chain` is the tail of `all` from the earlier occurrence of its last element. */
  ghost predicate EndsInCycle(all: seq<Path>, chain: seq<Path>) {
    2 <= |chain| <= |all| && chain == all[|all| - |chain|..] && chain[0] == chain[|chain| - 1]
  }

  /** Every error comes with a walk that shows it. */
  lemma {:induction false} ErrorHasWalk(fs: FileSystem, base: Path, stack: seq<Path>, ts: seq<Token>)
    returns (p: seq<Path>)
    requires Expand(fs, base, stack, ts).Err?
    ensures Walk(fs, base, ts, p) && Reports(fs, ts, stack, p, Expand(fs, base, stack, ts).error)
    decreases Unvisited(fs, stack), |ts|
  {
    if ts[0] != INCLUDE {
      p := ErrorHasWalk(fs, base, stack, ts[1..]);
    } else if |ts| == 1 {
      p := [];
    } else {
      var canon := fs.resolve(base, ts[1]);
      p := [canon];
      if canon !in stack && canon in fs.files {
        assert canon in Unvisited(fs, stack) && canon !in Unvisited(fs, stack + [canon]);
        var inner := Expand(fs, fs.parent(canon), stack + [canon], fs.files[canon]);
        if inner.Err? {
          var q := ErrorHasWalk(fs, fs.parent(canon), stack + [canon], fs.files[canon]);
          p := [canon] + q;
          assert (stack + [canon]) + q == stack + p;
        } else {
          p := ErrorHasWalk(fs, base, stack, ts[2..]);
        }
      }
    }
  }

  /** Expansion succeeds exactly when the include graph reachable from the arguments has no cycle,
      all its files can be read, and neither they nor the arguments end in a dangling include. */
  lemma OkIffGraphIsSound(fs: FileSystem, base: Path, args: seq<Token>)
    ensures Expand(fs, base, [], args).Ok? <==>
      !Dangling(args) && forall p :: Walk(fs, base, args, p) ==> Clean(fs, [], p)
  {
    if Expand(fs, base, [], args).Ok? {
      OkIsClean(fs, base, [], args, []);
      forall p | Walk(fs, base, args, p) ensures Clean(fs, [], p) { OkIsClean(fs, base, [], args, p); }
    } else {
      var p := ErrorHasWalk(fs, base, [], args);
      assert [] + p == p;
    }
  }

  /** A reported cycle is one: a walk from the arguments arrives at chain[0], and the chain goes
      along includes from there back to itself. */
  lemma CycleIsGenuine(fs: FileSystem, base: Path, args: seq<Token>, chain: seq<Path>) returns (p: seq<Path>)
    requires Expand(fs, base, [], args) == Err(Cycle(chain))
    ensures Walk(fs, base, args, p) && EndsInCycle(p, chain)
    ensures |chain| >= 2 && chain[0] == chain[|chain| - 1]
    ensures forall i :: 0 <= i < |chain| - 1 ==> Includes(fs, chain[i], chain[i + 1])
  {
    p := ErrorHasWalk(fs, base, [], args);
    assert [] + p == p;
    forall i | 0 <= i < |chain| - 1 ensures Includes(fs, chain[i], chain[i + 1]) {
      assert Includes(fs, p[|p| - |chain| + i], p[|p| - |chain| + i + 1]);
    }
  }

  // ---- the meaning: flattening in place --------------------------------------

  function Join(a: Option<seq<Token>>, b: Option<seq<Token>>): Option<seq<Token>> {
    if a.Some? && b.Some? then Some(a.value + b.value) else None
  }

  /** Replaces includes by the flattened files, nested at most d deep; knows nothing of stacks or cycles. */
  function Flatten(fs: FileSystem, d: nat, base: Path, ts: seq<Token>): Option<seq<Token>>
    decreases d, |ts|
  {
    if ts == [] then Some([])
    else if ts[0] != "-options_file" then Join(Some([ts[0]]), Flatten(fs, d, base, ts[1..]))
    else if |ts| == 1 then None
    else Join(FlattenFile(fs, d, fs.resolve(base, ts[1])), Flatten(fs, d, base, ts[2..]))
  }

  function FlattenFile(fs: FileSystem, d: nat, p: Path): Option<seq<Token>>
    decreases d, 0
  {
    if d == 0 || p !in fs.files then None else Flatten(fs, d - 1, fs.parent(p), fs.files[p])
  }

  lemma {:induction false} FlattenDeeper(fs: FileSystem, d: nat, e: nat, base: Path, ts: seq<Token>)
    requires d <= e && Flatten(fs, d, base, ts).Some?
    ensures Flatten(fs, e, base, ts) == Flatten(fs, d, base, ts)
    decreases d, |ts|
  {
    if ts == [] {
    } else if ts[0] != INCLUDE {
      FlattenDeeper(fs, d, e, base, ts[1..]);
    } else {
      var p := fs.resolve(base, ts[1]);
      FlattenDeeper(fs, d - 1, e - 1, fs.parent(p), fs.files[p]);
      FlattenDeeper(fs, d, e, base, ts[2..]);
    }
  }

  lemma {:induction false} ExpandIsFlatten(fs: FileSystem, base: Path, stack: seq<Path>, ts: seq<Token>, d: nat)
    requires Expand(fs, base, stack, ts).Ok? && |Unvisited(fs, stack)| <= d
    ensures Flatten(fs, d, base, ts) == Some(Expand(fs, base, stack, ts).tokens)
    decreases Unvisited(fs, stack), |ts|
  {
    if ts == [] {
    } else if ts[0] != INCLUDE {
      ExpandIsFlatten(fs, base, stack, ts[1..], d);
    } else {
      var canon := fs.resolve(base, ts[1]);
      Visiting(fs, stack, canon);
      ExpandIsFlatten(fs, fs.parent(canon), stack + [canon], fs.files[canon], d - 1);
      ExpandIsFlatten(fs, base, stack, ts[2..], d);
    }
  }

  lemma Visiting(fs: FileSystem, stack: seq<Path>, p: Path)
    requires p in fs.files && p !in stack
    ensures Unvisited(fs, stack + [p]) < Unvisited(fs, stack)
    ensures |Unvisited(fs, stack + [p])| == |Unvisited(fs, stack)| - 1
  {
    assert Unvisited(fs, stack + [p]) == Unvisited(fs, stack) - {p};
    assert p in Unvisited(fs, stack);
  }

  /** The least depth at which a file can be flattened. */
  lemma {:induction false} LeastDepth(fs: FileSystem, d: nat, p: Path) returns (e: nat)
    requires FlattenFile(fs, d, p).Some?
    ensures 0 < e <= d && FlattenFile(fs, e, p) == FlattenFile(fs, d, p)
    ensures FlattenFile(fs, e - 1, p) == None
  {
    if FlattenFile(fs, d - 1, p) == None {
      e := d;
    } else {
      FlattenDeeper(fs, d - 2, d - 1, fs.parent(p), fs.files[p]);
      e := LeastDepth(fs, d - 1, p);
    }
  }

  /** Nothing on the stack can be flattened within the remaining depth. */
  ghost predicate TooDeep(fs: FileSystem, d: nat, stack: seq<Path>) {
    forall p :: p in stack ==> FlattenFile(fs, d, p) == None
  }

  lemma TooDeepStill(fs: FileSystem, d: nat, e: nat, stack: seq<Path>)
    requires TooDeep(fs, d, stack) && e <= d
    ensures TooDeep(fs, e, stack)
  {
    forall p | p in stack ensures FlattenFile(fs, e, p) == None {
      if FlattenFile(fs, e, p).Some? { FlattenDeeper(fs, e - 1, d - 1, fs.parent(p), fs.files[p]); }
    }
  }

  lemma {:induction false} FlattenIsExpand(fs: FileSystem, base: Path, stack: seq<Path>, ts: seq<Token>, d: nat)
    requires Flatten(fs, d, base, ts).Some? && TooDeep(fs, d, stack)
    ensures Expand(fs, base, stack, ts) == Ok(Flatten(fs, d, base, ts).value)
    decreases d, |ts|
  {
    if ts == [] {
    } else if ts[0] != INCLUDE {
      FlattenIsExpand(fs, base, stack, ts[1..], d);
    } else {
      var canon := fs.resolve(base, ts[1]);
      var e := LeastDepth(fs, d, canon);
      TooDeepStill(fs, d, e - 1, stack);
      FlattenIsExpand(fs, fs.parent(canon), stack + [canon], fs.files[canon], e - 1);
      FlattenIsExpand(fs, base, stack, ts[2..], d);
    }
  }

  /** The expander returns exactly the in-place flattening, whenever there is one at some depth. */
  lemma ExpandMeansFlatten(fs: FileSystem, base: Path, args: seq<Token>, out: seq<Token>)
    ensures Expand(fs, base, [], args) == Ok(out) <==> exists d: nat :: Flatten(fs, d, base, args) == Some(out)
  {
    if Expand(fs, base, [], args) == Ok(out) {
      ExpandIsFlatten(fs, base, [], args, |Unvisited(fs, [])|);
    }
    forall d: nat | Flatten(fs, d, base, args) == Some(out) ensures Expand(fs, base, [], args) == Ok(out) {
      FlattenIsExpand(fs, base, [], args, d);
    }
  }

  // ---- consequences -----------------------------------------------------------

  lemma {:induction false} NoIncludeLeft(fs: FileSystem, base: Path, stack: seq<Path>, ts: seq<Token>)
    requires Expand(fs, base, stack, ts).Ok?
    ensures "-options_file" !in Expand(fs, base, stack, ts).tokens
    decreases Unvisited(fs, stack), |ts|
  {
    if ts == [] {
    } else if ts[0] != INCLUDE {
      NoIncludeLeft(fs, base, stack, ts[1..]);
    } else {
      var canon := fs.resolve(base, ts[1]);
      Visiting(fs, stack, canon);
      NoIncludeLeft(fs, fs.parent(canon), stack + [canon], fs.files[canon]);
      NoIncludeLeft(fs, base, stack, ts[2..]);
    }
  }

  lemma {:induction false} NothingToExpand(fs: FileSystem, base: Path, stack: seq<Path>, ts: seq<Token>)
    requires "-options_file" !in ts
    ensures Expand(fs, base, stack, ts) == Ok(ts)
  {
    if ts != [] { NothingToExpand(fs, base, stack, ts[1..]); }
  }

  /** An include of a file without includes is replaced by the file's tokens. */
  lemma IncludeIsReplaced(fs: FileSystem, base: Path, f: Token, rest: seq<Token>)
    requires fs.resolve(base, f) in fs.files && "-options_file" !in fs.files[fs.resolve(base, f)]
    ensures Expand(fs, base, [], ["-options_file", f] + rest) ==
      Prepend(fs.files[fs.resolve(base, f)], Expand(fs, base, [], rest))
  {
    var canon, ts := fs.resolve(base, f), ["-options_file", f] + rest;
    NothingToExpand(fs, fs.parent(canon), [canon], fs.files[canon]);
    Visiting(fs, [], canon);
    assert [] + [canon] == [canon] && ts[2..] == rest;
  }

  /** An include within a file is looked up from the directory of that file. */
  lemma NestedIncludeIsRelative(fs: FileSystem, base: Path, f: Token, g: Token)
    requires fs.resolve(base, f) in fs.files && fs.files[fs.resolve(base, f)] == ["-options_file", g]
    ensures var outer := fs.resolve(base, f);
      var inner := fs.resolve(fs.parent(outer), g);
      Expand(fs, base, [], ["-options_file", f]) ==
        if inner == outer then Err(Cycle([outer, outer]))
        else if inner !in fs.files then Err(Unreadable(inner))
        else Expand(fs, fs.parent(inner), [outer, inner], fs.files[inner])
  {
    var outer := fs.resolve(base, f);
    var inner := fs.resolve(fs.parent(outer), g);
    IncludeAlone(fs, base, [], f);
    assert [] + [outer] == [outer];
    IncludeAlone(fs, fs.parent(outer), [outer], g);
    assert [outer] + [inner] == [outer, inner];
  }

  /** One include token and its value, and nothing else. */
  lemma IncludeAlone(fs: FileSystem, base: Path, stack: seq<Path>, f: Token)
    ensures var canon := fs.resolve(base, f);
      Expand(fs, base, stack, ["-options_file", f]) ==
        if canon in stack then Err(Cycle(stack[Position(stack, canon)..] + [canon]))
        else if canon !in fs.files then Err(Unreadable(canon))
        else Expand(fs, fs.parent(canon), stack + [canon], fs.files[canon])
    ensures Expand(fs, base, stack, ["-options_file"]) == Err(MissingValue)
  {
    var canon, ts := fs.resolve(base, f), ["-options_file", f];
    assert ts[2..] == [];
    if canon !in stack && canon in fs.files {
      Visiting(fs, stack, canon);
      var inner := Expand(fs, fs.parent(canon), stack + [canon], fs.files[canon]);
      assert inner.Ok? ==> Prepend(inner.tokens, Ok([])) == inner;
    }
  }

  /** Expanding an expanded argument list changes nothing, on any file system. */
  lemma ExpandIsIdempotent(fs: FileSystem, base: Path, args: seq<Token>, fs': FileSystem, base': Path)
    requires Expand(fs, base, [], args).Ok?
    ensures var out := Expand(fs, base, [], args).tokens; Expand(fs', base', [], out) == Ok(out)
  {
    NoIncludeLeft(fs, base, [], args);
    NothingToExpand(fs', base', [], Expand(fs, base, [], args).tokens);
  }

  /** Argument lists expand independently of each other, so including one file along two
      branches is no cycle. */
  lemma {:induction false} ExpandConcatenates(fs: FileSystem, base: Path, stack: seq<Path>, a: seq<Token>,
                                              b: seq<Token>)
    requires Expand(fs, base, stack, a).Ok?
    ensures Expand(fs, base, stack, a + b) == Prepend(Expand(fs, base, stack, a).tokens, Expand(fs, base, stack, b))
    decreases |a|
  {
    if a == [] {
      assert a + b == b;
    } else if a[0] != INCLUDE {
      assert (a + b)[1..] == a[1..] + b;
      ExpandConcatenates(fs, base, stack, a[1..], b);
      PrependTwice([a[0]], Expand(fs, base, stack, a[1..]).tokens, Expand(fs, base, stack, b));
    } else {
      assert (a + b)[2..] == a[2..] + b;
      ExpandConcatenates(fs, base, stack, a[2..], b);
      var canon := fs.resolve(base, a[1]);
      var inner := Expand(fs, fs.parent(canon), stack + [canon], fs.files[canon]);
      PrependTwice(inner.tokens, Expand(fs, base, stack, a[2..]).tokens, Expand(fs, base, stack, b));
    }
  }
}
