/** The argv parser: one pass, driven by the arity of each flag, with prefix filtering and aliasing. */
module OptionParser {
  import opened Basics
  import EditDistance

  datatype Arity = Zero | OptionalBool | One | Two

  datatype Spec = Spec(flag: string, key: string, arity: Arity)

  predicate IsToggle(s: Spec) { s.arity.Zero? || s.arity.OptionalBool? }

  /** The flag table of a list of specifications: a later one replaces an earlier one of the same flag. */
  function Find(specs: seq<Spec>, flag: string): (r: Option<Spec>)
    ensures r.Some? ==> r.value in specs && r.value.flag == flag
  {
    if specs == [] then None
    else if specs[|specs| - 1].flag == flag then Some(specs[|specs| - 1])
    else Find(specs[..|specs| - 1], flag)
  }

  /** A flag is found exactly when it is registered, with its last specification. */
  lemma {:induction false} FindIsLast(specs: seq<Spec>, flag: string) returns (k: int)
    ensures Find(specs, flag) == None <==> forall i :: 0 <= i < |specs| ==> specs[i].flag != flag
    ensures Find(specs, flag).Some? ==> 0 <= k < |specs| && Find(specs, flag) == Some(specs[k])
    ensures forall i :: k < i < |specs| && k >= 0 ==> specs[i].flag != flag
  {
    k := -1;
    if specs != [] {
      k := FindIsLast(specs[..|specs| - 1], flag);
      if specs[|specs| - 1].flag == flag { k := |specs| - 1; }
    }
  }

  function Flags(specs: seq<Spec>): seq<string> { seq(|specs|, i requires 0 <= i < |specs| => specs[i].flag) }

  method NewTable(specs: seq<Spec>) returns (byFlag: map<string, Spec>, flags: seq<string>)
    ensures forall f :: Find(specs, f) == if f in byFlag then Some(byFlag[f]) else None
    ensures flags == Flags(specs)
  {
    byFlag, flags := map[], [];
    for i := 0 to |specs|
      invariant forall f :: Find(specs[..i], f) == if f in byFlag then Some(byFlag[f]) else None
      invariant flags == Flags(specs[..i])
    {
      assert specs[..i + 1][..i] == specs[..i];
      byFlag, flags := byFlag[specs[i].flag := specs[i]], flags + [specs[i].flag];
    }
    assert specs[..|specs|] == specs;
  }

  // ---- text -------------------------------------------------------------------

  predicate StartsWith(s: string, p: string) { p <= s }

  predicate EndsWith(s: string, t: string) { |t| <= |s| && s[|s| - |t|..] == t }

  /** On the literals below, and on every string that lowers to one, this is the full lowercase mapping. */
  function Lower(s: string): string {
    seq(|s|, i requires 0 <= i < |s| => if 'A' <= s[i] <= 'Z' then (s[i] as int + 32) as char else s[i])
  }

  predicate IsTrueWord(s: string) { s in ["true", "1", "yes", "on"] }

  predicate IsBoolWord(s: string) { IsTrueWord(s) || s in ["false", "0", "no", "off"] }

  /** A longer option path that ends in some flag's name, such as `fieldsplit_0_rtol` for `-rtol`. */
  predicate IsHierarchical(suffix: string, flags: seq<string>) {
    '_' in suffix && exists i :: 0 <= i < |flags| && EndsInFlag(suffix, flags[i])
  }

  predicate EndsInFlag(suffix: string, flag: string) {
    var name := if StartsWith(flag, "-") then flag[1..] else flag;
    suffix != name && EndsWith(suffix, "_" + name)
  }

  // ---- one pass ----------------------------------------------------------------

  datatype Event =
    | SetBool(key: string, on: bool)
    | SetVal(spec: Spec, v: string)
    | SetPair(spec: Spec, a: string, b: string)

  /** An event and the flag as it stood in the arguments. */
  datatype Entry = Entry(tok: string, event: Event)

  datatype Error =
    | Unrecognized(tok: string, guess: Option<string>, withPrefix: bool)
    | MissingValue(flag: string)
    | MissingPair(flag: string)
    | Rejected(event: Event)

  datatype Step = Skip | Emit(entry: Entry, consumed: nat) | Fail(error: Error)

  datatype Flag = Known(spec: Spec) | Foreign | Unknown(guess: Option<string>)

  predicate LooksLikeFlag(tok: string, filter: Option<string>) {
    StartsWith(tok, "-") && (filter.Some? ==> StartsWith(tok, filter.value))
  }

  function Resolve(specs: seq<Spec>, tok: string, filter: Option<string>): Flag
    requires LooksLikeFlag(tok, filter)
  {
    if Find(specs, tok).Some? then Known(Find(specs, tok).value)
    else if filter.None? then Unknown(EditDistance.Nearest(tok, Flags(specs)))
    else
      var suffix := tok[|filter.value|..];
      var canonical := "-" + suffix;
      if Find(specs, canonical).Some? then Known(Find(specs, canonical).value)
      else if IsHierarchical(suffix, Flags(specs)) then Foreign
      else Unknown(EditDistance.Nearest(canonical, Flags(specs)))
  }

  /** What a known flag at the head of the arguments does. */
  function Take(spec: Spec, args: seq<string>): (st: Step)
    requires args != []
    ensures st.Emit? ==> 0 < st.consumed <= |args| && st.entry.tok == args[0]
    ensures !st.Skip?
  {
    match spec.arity
    case One =>
      if |args| < 2 then Fail(MissingValue(spec.flag)) else Emit(Entry(args[0], SetVal(spec, args[1])), 2)
    case Two =>
      if |args| < 3 then Fail(MissingPair(spec.flag)) else Emit(Entry(args[0], SetPair(spec, args[1], args[2])), 3)
    case _ =>
      if |args| >= 2 && IsBoolWord(Lower(args[1]))
      then Emit(Entry(args[0], SetBool(spec.key, IsTrueWord(Lower(args[1])))), 2)
      else Emit(Entry(args[0], SetBool(spec.key, true)), 1)
  }

  function Next(specs: seq<Spec>, args: seq<string>, filter: Option<string>): (st: Step)
    requires args != []
    ensures st.Emit? ==> 0 < st.consumed <= |args| && st.entry.tok == args[0]
  {
    if !LooksLikeFlag(args[0], filter) then Skip
    else
      match Resolve(specs, args[0], filter)
      case Known(spec) => Take(spec, args)
      case Foreign => Skip
      case Unknown(guess) => Fail(Unrecognized(args[0], guess, filter.Some?))
  }

  /** The entries emitted, in order, and the error that ended the pass, if any. */
  datatype Parsed = Parsed(entries: seq<Entry>, error: Option<Error>)

  function Parse(specs: seq<Spec>, args: seq<string>, filter: Option<string>): Parsed {
    if args == [] then Parsed([], None)
    else
      match Next(specs, args, filter)
      case Skip => Parse(specs, args[1..], filter)
      case Fail(error) => Parsed([], Some(error))
      case Emit(entry, n) =>
        var rest := Parse(specs, args[n..], filter);
        Parsed([entry] + rest.entries, rest.error)
  }

  // ---- what toggles, literals and aliases mean -------------------------------------

  predicate SameLetter(c: char, low: char) { c == low || ('A' <= c <= 'Z' && low as int == c as int + 32) }

  /** `word` is `lit` with letters in either case; lit has no capital letters. */
  predicate Spells(word: string, lit: string) {
    |word| == |lit| && forall i :: 0 <= i < |lit| ==> SameLetter(word[i], lit[i])
  }

  ghost predicate NoCapitals(lit: string) { forall i :: 0 <= i < |lit| ==> !('A' <= lit[i] <= 'Z') }

  lemma LowerSpells(word: string, lit: string)
    requires NoCapitals(lit)
    ensures Lower(word) == lit <==> Spells(word, lit)
  {
    if Lower(word) == lit {
      forall i | 0 <= i < |lit| ensures SameLetter(word[i], lit[i]) { assert Lower(word)[i] == lit[i]; }
    }
  }

  lemma TrueWordsMean(word: string)
    ensures IsTrueWord(Lower(word)) <==>
      Spells(word, "true") || Spells(word, "1") || Spells(word, "yes") || Spells(word, "on")
  {
    LowerSpells(word, "true");
    LowerSpells(word, "1");
    LowerSpells(word, "yes");
    LowerSpells(word, "on");
  }

  lemma FalseWordsMean(word: string)
    ensures IsBoolWord(Lower(word)) && !IsTrueWord(Lower(word)) <==>
      Spells(word, "false") || Spells(word, "0") || Spells(word, "no") || Spells(word, "off")
  {
    LowerSpells(word, "false");
    LowerSpells(word, "0");
    LowerSpells(word, "no");
    LowerSpells(word, "off");
  }

  predicate SaysTrue(word: string) {
    Spells(word, "true") || Spells(word, "1") || Spells(word, "yes") || Spells(word, "on")
  }

  predicate SaysFalse(word: string) {
    Spells(word, "false") || Spells(word, "0") || Spells(word, "no") || Spells(word, "off")
  }

  lemma WordMeans(word: string)
    ensures IsTrueWord(Lower(word)) <==> SaysTrue(word)
    ensures IsBoolWord(Lower(word)) <==> SaysTrue(word) || SaysFalse(word)
  {
    TrueWordsMean(word);
    FalseWordsMean(word);
  }

  /** A toggle alone sets true; a literal behind it, in either case, sets what it says and is consumed; anything
      else behind it is left. */
  lemma ToggleTakes(specs: seq<Spec>, s: Spec, args: seq<string>)
    requires Find(specs, s.flag) == Some(s) && StartsWith(s.flag, "-") && IsToggle(s) && args != [] && args[0] == s.flag
    ensures Next(specs, args, None) ==
      if |args| >= 2 && SaysTrue(args[1]) then Emit(Entry(s.flag, SetBool(s.key, true)), 2)
      else if |args| >= 2 && SaysFalse(args[1]) then Emit(Entry(s.flag, SetBool(s.key, false)), 2)
      else Emit(Entry(s.flag, SetBool(s.key, true)), 1)
  {
    if |args| >= 2 { WordMeans(args[1]); }
  }

  /** The eight literals as the library's documentation writes them. */
  lemma LiteralIsTaken(specs: seq<Spec>, s: Spec, word: string, rest: seq<string>)
    requires Find(specs, s.flag) == Some(s) && StartsWith(s.flag, "-") && IsToggle(s)
    requires word in ["true", "1", "yes", "on", "false", "0", "no", "off"]
    ensures Next(specs, [s.flag, word] + rest, None) ==
      Emit(Entry(s.flag, SetBool(s.key, word in ["true", "1", "yes", "on"])), 2)
  {
    assert Lower(word) == word;
  }

  /** One or two values are taken as they stand, whatever they look like, in the order in which they stand. */
  lemma ValuesAreTaken(specs: seq<Spec>, s: Spec, a: string, b: string, rest: seq<string>)
    requires Find(specs, s.flag) == Some(s) && StartsWith(s.flag, "-")
    ensures s.arity.One? ==> Next(specs, [s.flag, a] + rest, None) == Emit(Entry(s.flag, SetVal(s, a)), 2)
    ensures s.arity.Two? ==> Next(specs, [s.flag, a, b] + rest, None) == Emit(Entry(s.flag, SetPair(s, a, b)), 3)
  {
  }

  /** Arguments that are no flags are ignored. */
  lemma {:induction false} WordsAreIgnored(specs: seq<Spec>, args: seq<string>, filter: Option<string>)
    requires forall tok :: tok in args ==> !StartsWith(tok, "-")
    ensures Parse(specs, args, filter) == Parsed([], None)
  {
    if args != [] { WordsAreIgnored(specs, args[1..], filter); }
  }

  ghost predicate ExtendsFlag(suffix: string, stem: string, flag: string)
    requires StartsWith(flag, "-")
  {
    suffix == stem + "_" + flag[1..]
  }

  /** A hierarchical option is a registered name behind some path and an underscore. */
  lemma HierarchicalMeans(suffix: string, flags: seq<string>)
    requires forall i :: 0 <= i < |flags| ==> StartsWith(flags[i], "-")
    ensures IsHierarchical(suffix, flags) <==> exists i, stem :: 0 <= i < |flags| && ExtendsFlag(suffix, stem, flags[i])
  {
    if IsHierarchical(suffix, flags) {
      var i :| 0 <= i < |flags| && EndsInFlag(suffix, flags[i]);
      var stem := suffix[..|suffix| - |flags[i]|];
      assert "_" + flags[i][1..] == suffix[|stem|..];
      assert ExtendsFlag(suffix, stem, flags[i]);
    }
    forall i, stem | 0 <= i < |flags| && ExtendsFlag(suffix, stem, flags[i]) ensures IsHierarchical(suffix, flags) {
      assert suffix[|stem|] == '_';
      assert suffix[|stem|..] == "_" + flags[i][1..];
      assert EndsInFlag(suffix, flags[i]);
    }
  }

  /** So `-pc_fieldsplit_0_pc_type` is passed over under `-pc_` where `-pc_type` is registered; the name itself is
      not hierarchical. */
  lemma FieldsplitIsHierarchical()
    ensures IsHierarchical("fieldsplit_0_pc_type", ["-pc_type"]) && !IsHierarchical("pc_type", ["-pc_type"])
  {
    var flags, name := ["-pc_type"], "fieldsplit_0_pc_type";
    assert "-pc_type"[1..] == "pc_type" && ExtendsFlag(name, "fieldsplit_0", flags[0]);
    HierarchicalMeans(name, flags);
  }

  ghost predicate EndsInSomeFlag(specs: seq<Spec>, name: string)
    requires forall f :: f in Flags(specs) ==> StartsWith(f, "-")
  {
    exists i, stem :: 0 <= i < |specs| && ExtendsFlag(name, stem, Flags(specs)[i])
  }

  /** What a token under a prefix means if it is not registered as it stands: the flag that is left when a dash
      takes the place of the prefix; or nothing here, if the rest ends in a registered name behind an underscore. */
  lemma PrefixedTokenMeans(specs: seq<Spec>, prefix: string, name: string)
    requires StartsWith(prefix, "-") && Find(specs, prefix + name) == None
    requires forall f :: f in Flags(specs) ==> StartsWith(f, "-")
    ensures Resolve(specs, prefix + name, Some(prefix)) ==
      if Find(specs, "-" + name).Some? then Known(Find(specs, "-" + name).value)
      else if EndsInSomeFlag(specs, name) then Foreign
      else Unknown(EditDistance.Nearest("-" + name, Flags(specs)))
  {
    assert (prefix + name)[|prefix|..] == name;
    HierarchicalMeans(name, Flags(specs));
  }

  // ---- errors ------------------------------------------------------------------

  /** The name that a flag is looked up by in the end. */
  function Canonical(tok: string, filter: Option<string>): string
    requires LooksLikeFlag(tok, filter)
  {
    if filter.None? then tok else "-" + tok[|filter.value|..]
  }

  /** A suggestion is a registered flag as near as any and within the limit; without one, all are beyond it. */
  ghost predicate Suggests(specs: seq<Spec>, name: string, guess: Option<string>) {
    match guess
    case None => forall f :: f in Flags(specs) ==> EditDistance.Dist(name, f) > 3
    case Some(g) =>
      && g in Flags(specs) && EditDistance.Dist(name, g) <= 3
      && forall f :: f in Flags(specs) ==> EditDistance.Dist(name, g) <= EditDistance.Dist(name, f)
  }

  ghost predicate Explains(specs: seq<Spec>, args: seq<string>, k: nat, filter: Option<string>, e: Error)
    requires k < |args|
  {
    && LooksLikeFlag(args[k], filter)
    && var tok, name := args[k], Canonical(args[k], filter);
       var known := if Find(specs, tok).Some? then Find(specs, tok) else Find(specs, name);
       match e
       case Unrecognized(t, guess, withPrefix) =>
         && t == tok && known == None && withPrefix == filter.Some? && Suggests(specs, name, guess)
         && (filter.Some? ==> !IsHierarchical(tok[|filter.value|..], Flags(specs)))
       case MissingValue(flag) => known.Some? && known.value.arity.One? && known.value.flag == flag && k + 1 == |args|
       case MissingPair(flag) => known.Some? && known.value.arity.Two? && known.value.flag == flag && k + 2 >= |args|
       case Rejected(_) => false
  }

  lemma NearestSuggests(specs: seq<Spec>, name: string)
    ensures Suggests(specs, name, EditDistance.Nearest(name, Flags(specs)))
  {
    EditDistance.NearestIsFirstLeast(name, Flags(specs));
  }

  lemma HeadError(specs: seq<Spec>, args: seq<string>, filter: Option<string>)
    requires args != [] && Next(specs, args, filter).Fail?
    ensures Explains(specs, args, 0, filter, Next(specs, args, filter).error)
  {
    NearestSuggests(specs, Canonical(args[0], filter));
  }

  /** Every parse error is about a flag in the arguments: one that means nothing, with the nearest
      registered flag as the suggestion, or one whose values are cut off by the end. */
  lemma {:induction false} ErrorIsExplained(specs: seq<Spec>, args: seq<string>, filter: Option<string>)
    returns (k: nat)
    requires Parse(specs, args, filter).error.Some?
    ensures k < |args| && Explains(specs, args, k, filter, Parse(specs, args, filter).error.value)
    decreases |args|
  {
    match Next(specs, args, filter)
    case Skip =>
      var j := ErrorIsExplained(specs, args[1..], filter);
      k := j + 1;
    case Fail(_) =>
      HeadError(specs, args, filter);
      k := 0;
    case Emit(_, n) =>
      var j := ErrorIsExplained(specs, args[n..], filter);
      k := j + n;
  }

  // ---- delivery ------------------------------------------------------------------

  /** A receiver of events: any rule over what it has taken so far may reject the next one. */
  class Sink {
    const accepts: (seq<Event>, Event) -> bool
    var log: seq<Event>

    constructor (accepts: (seq<Event>, Event) -> bool)
      ensures this.accepts == accepts && log == []
    {
      this.accepts := accepts;
      log := [];
    }

    method Put(e: Event) returns (ok: bool)
      modifies this
      ensures ok == accepts(old(log), e)
      ensures log == if ok then old(log) + [e] else old(log)
    {
      ok := accepts(log, e);
      if ok { log := log + [e]; }
    }
  }

  /** What a sink has taken at the end of a pass, and the error that is returned. */
  function Deliver(accepts: (seq<Event>, Event) -> bool, log: seq<Event>, p: Parsed): (seq<Event>, Option<Error>)
    decreases |p.entries|
  {
    if p.entries == [] then (log, p.error)
    else
      var e := p.entries[0].event;
      if accepts(log, e) then Deliver(accepts, log + [e], Parsed(p.entries[1..], p.error))
      else (log, Some(Rejected(e)))
  }

  /** What is still to come of a pass that has reached argument i with `log` delivered. */
  function Remaining(accepts: (seq<Event>, Event) -> bool, log: seq<Event>, specs: seq<Spec>, args: seq<string>, i: nat,
                     filter: Option<string>): (seq<Event>, Option<Error>)
    requires i <= |args|
  {
    Deliver(accepts, log, Parse(specs, args[i..], filter))
  }

  lemma RemainingUnfolds(accepts: (seq<Event>, Event) -> bool, log: seq<Event>, specs: seq<Spec>, args: seq<string>,
                         i: nat, filter: Option<string>)
    requires i < |args|
    ensures Remaining(accepts, log, specs, args, i, filter) ==
      match Next(specs, args[i..], filter)
      case Skip => Remaining(accepts, log, specs, args, i + 1, filter)
      case Fail(error) => (log, Some(error))
      case Emit(entry, n) =>
        if accepts(log, entry.event) then Remaining(accepts, log + [entry.event], specs, args, i + n, filter)
        else (log, Some(Rejected(entry.event)))
  {
    match Next(specs, args[i..], filter)
    case Skip =>
      assert args[i..][1..] == args[i + 1..];
    case Fail(_) =>
    case Emit(entry, n) =>
      var rest := Parse(specs, args[i + n..], filter);
      assert args[i..][n..] == args[i + n..] && ([entry] + rest.entries)[1..] == rest.entries;
  }

  /** `parse_into`: a rejected event ends the pass, and everything before it has reached the sink. */
  method ParseInto(specs: seq<Spec>, args: seq<string>, sink: Sink, filter: Option<string>)
    returns (error: Option<Error>)
    modifies sink
    ensures (sink.log, error) == Deliver(sink.accepts, old(sink.log), Parse(specs, args, filter))
  {
    assert args[0..] == args;
    var i := 0;
    while i < |args|
      invariant i <= |args|
      invariant Remaining(sink.accepts, sink.log, specs, args, i, filter) ==
        Remaining(sink.accepts, old(sink.log), specs, args, 0, filter)
    {
      RemainingUnfolds(sink.accepts, sink.log, specs, args, i, filter);
      var st := NextStep(specs, args[i..], filter);
      match st {
        case Skip =>
          i := i + 1;
        case Fail(e) =>
          return Some(e);
        case Emit(entry, n) =>
          var ok := sink.Put(entry.event);
          if !ok { return Some(Rejected(entry.event)); }
          i := i + n;
      }
    }
    error := None;
  }

  method NextStep(specs: seq<Spec>, args: seq<string>, filter: Option<string>) returns (st: Step)
    requires args != []
    ensures st == Next(specs, args, filter)
  {
    var tok := args[0];
    if !LooksLikeFlag(tok, filter) { return Skip; }
    var found := Find(specs, tok);
    if found.None? {
      var canonical := tok;
      if filter.Some? {
        var suffix := tok[|filter.value|..];
        canonical := "-" + suffix;
        found := Find(specs, canonical);
        if found.None? && IsHierarchical(suffix, Flags(specs)) { return Skip; }
      }
      if found.None? {
        var guess := EditDistance.FindNearest(canonical, Flags(specs));
        return Fail(Unrecognized(tok, guess, filter.Some?));
      }
    }
    st := Take(found.value, args);
  }

  // ---- parsing undoes printing ---------------------------------------------------

  /** A typed setting of a registered flag; a toggle is bare or carries one of the literals. */
  datatype Setting =
    | Bare(spec: Spec)
    | Literal(spec: Spec, word: string)
    | Value(spec: Spec, v: string)
    | Pair(spec: Spec, a: string, b: string)

  predicate Printable(specs: seq<Spec>, s: Setting) {
    && Find(specs, s.spec.flag) == Some(s.spec) && StartsWith(s.spec.flag, "-")
    && match s
       case Bare(spec) => IsToggle(spec)
       case Literal(spec, word) => IsToggle(spec) && (SaysTrue(word) || SaysFalse(word))
       case Value(spec, _) => spec.arity.One?
       case Pair(spec, _, _) => spec.arity.Two?
  }

  function EventOf(s: Setting): Event {
    match s
    case Bare(spec) => SetBool(spec.key, true)
    case Literal(spec, word) => SetBool(spec.key, SaysTrue(word))
    case Value(spec, v) => SetVal(spec, v)
    case Pair(spec, a, b) => SetPair(spec, a, b)
  }

  /** The tokens of a setting whose flag is written as `name`. */
  function Tokens(s: Setting, name: string): seq<string> {
    match s
    case Bare(_) => [name]
    case Literal(_, word) => [name, word]
    case Value(_, v) => [name, v]
    case Pair(_, a, b) => [name, a, b]
  }

  /** The flag under a prefix filter, `-rtol` becoming `-ksp_rtol`, or as it is registered. */
  function NameUnder(s: Setting, filter: Option<string>): string {
    if filter.None? || s.spec.flag == "" then s.spec.flag else filter.value + s.spec.flag[1..]
  }

  function Print(ss: seq<Setting>, filter: Option<string>): seq<string> {
    if ss == [] then [] else Tokens(ss[0], NameUnder(ss[0], filter)) + Print(ss[1..], filter)
  }

  function Events(entries: seq<Entry>): seq<Event> { seq(|entries|, i requires 0 <= i < |entries| => entries[i].event) }

  function EventsOf(ss: seq<Setting>): seq<Event> { seq(|ss|, i requires 0 <= i < |ss| => EventOf(ss[i])) }

  /** The name written out means a specification that does the same. */
  predicate NotTaken(specs: seq<Spec>, s: Setting, filter: Option<string>) {
    var found := Find(specs, NameUnder(s, filter));
    found.None? || found.value == s.spec || (IsToggle(s.spec) && IsToggle(found.value) && found.value.key == s.spec.key)
  }

  predicate FlagPrefix(filter: Option<string>) { filter.Some? ==> StartsWith(filter.value, "-") }

  /** No flag is a boolean literal, so a bare toggle never swallows what follows it. */
  lemma FlagIsNoWord(tok: string)
    requires StartsWith(tok, "-")
    ensures !IsBoolWord(Lower(tok))
  {
    assert Lower(tok)[0] == '-';
  }

  lemma PrintedHead(specs: seq<Spec>, s: Setting, rest: seq<string>, filter: Option<string>)
    requires Printable(specs, s) && FlagPrefix(filter) && (rest != [] ==> StartsWith(rest[0], "-"))
    ensures var name, args := NameUnder(s, filter), Tokens(s, NameUnder(s, filter)) + rest;
      var st := Next(specs, args, filter);
      if NotTaken(specs, s, filter) then st == Emit(Entry(name, EventOf(s)), |Tokens(s, name)|)
      else st.Fail? || (st.Emit? && st.entry.event != EventOf(s))
  {
    var name := NameUnder(s, filter);
    var args := Tokens(s, name) + rest;
    assert args[0] == name && LooksLikeFlag(name, filter);
    if rest != [] { FlagIsNoWord(rest[0]); }
    if s.Literal? { WordMeans(s.word); }
    if filter.Some? { assert "-" + name[|filter.value|..] == s.spec.flag; }
    assert |args| >= 2 ==> args[1] == if s.Bare? then rest[0] else Tokens(s, name)[1];
  }

  predicate NoneTaken(specs: seq<Spec>, ss: seq<Setting>, filter: Option<string>) {
    ss == [] || (NotTaken(specs, ss[0], filter) && NoneTaken(specs, ss[1..], filter))
  }

  lemma {:induction false} NoneTakenMeaning(specs: seq<Spec>, ss: seq<Setting>, filter: Option<string>)
    ensures NoneTaken(specs, ss, filter) <==> forall s :: s in ss ==> NotTaken(specs, s, filter)
  {
    if ss != [] {
      NoneTakenMeaning(specs, ss[1..], filter);
      assert ss == [ss[0]] + ss[1..];
    }
  }

  predicate ParsesBack(specs: seq<Spec>, ss: seq<Setting>, filter: Option<string>) {
    var p := Parse(specs, Print(ss, filter), filter);
    p.error == None && Events(p.entries) == EventsOf(ss)
  }

  lemma ConsEvents(entry: Entry, entries: seq<Entry>, s: Setting, ss: seq<Setting>)
    ensures Events([entry] + entries) == EventsOf([s] + ss) <==>
      entry.event == EventOf(s) && Events(entries) == EventsOf(ss)
  {
    assert Events([entry] + entries) == [entry.event] + Events(entries);
    assert EventsOf([s] + ss) == [EventOf(s)] + EventsOf(ss);
    assert ([entry.event] + Events(entries))[1..] == Events(entries);
    assert ([EventOf(s)] + EventsOf(ss))[1..] == EventsOf(ss);
  }

  lemma FirstParsesBack(specs: seq<Spec>, ss: seq<Setting>, filter: Option<string>)
    requires FlagPrefix(filter) && ss != [] && forall s :: s in ss ==> Printable(specs, s)
    ensures ParsesBack(specs, ss, filter) <==> NotTaken(specs, ss[0], filter) && ParsesBack(specs, ss[1..], filter)
  {
    var s, rest, args := ss[0], Print(ss[1..], filter), Print(ss, filter);
    PrintedStartsWithFlag(specs, ss[1..], filter);
    PrintedHead(specs, s, rest, filter);
    var st := Next(specs, args, filter);
    if st.Emit? {
      ConsEvents(st.entry, Parse(specs, args[st.consumed..], filter).entries, s, ss[1..]);
      assert [s] + ss[1..] == ss;
      if NotTaken(specs, s, filter) { assert args[st.consumed..] == rest; }
    }
  }

  lemma {:induction false} PrintedUnderFlagPrefix(specs: seq<Spec>, ss: seq<Setting>, filter: Option<string>)
    requires FlagPrefix(filter) && forall s :: s in ss ==> Printable(specs, s)
    ensures ParsesBack(specs, ss, filter) <==> NoneTaken(specs, ss, filter)
  {
    if ss != [] {
      FirstParsesBack(specs, ss, filter);
      PrintedUnderFlagPrefix(specs, ss[1..], filter);
    }
  }

  /** Under a prefix that no flag begins with, a pass steps over everything. */
  lemma {:induction false} NothingIsAFlag(specs: seq<Spec>, args: seq<string>, prefix: string)
    requires prefix != "" && !StartsWith(prefix, "-")
    ensures Parse(specs, args, Some(prefix)) == Parsed([], None)
  {
    if args != [] {
      assert !LooksLikeFlag(args[0], Some(prefix)) by {
        assert prefix == prefix[..1] + prefix[1..] && prefix[..1] != "-";
      }
      NothingIsAFlag(specs, args[1..], prefix);
    }
  }

  /** Printing settings, under a prefix or not, and parsing them with the same filter gives their
      events back, exactly when the prefix begins like a flag and no written name means a registered
      flag that does something else. */
  lemma ParseUndoesPrint(specs: seq<Spec>, ss: seq<Setting>, filter: Option<string>)
    requires filter != Some("") && forall s :: s in ss ==> Printable(specs, s)
    ensures ParsesBack(specs, ss, filter) <==> ss == [] || (FlagPrefix(filter) && NoneTaken(specs, ss, filter))
  {
    if FlagPrefix(filter) {
      PrintedUnderFlagPrefix(specs, ss, filter);
    } else {
      assert filter.value[0] != '-';
      NothingIsAFlag(specs, Print(ss, filter), filter.value);
      assert |EventsOf(ss)| == |ss|;
    }
  }

  lemma PrintedStartsWithFlag(specs: seq<Spec>, ss: seq<Setting>, filter: Option<string>)
    requires FlagPrefix(filter) && forall s :: s in ss ==> Printable(specs, s)
    ensures Print(ss, filter) != [] ==> StartsWith(Print(ss, filter)[0], "-")
  {
    if ss != [] { assert Printable(specs, ss[0]) && NameUnder(ss[0], filter)[0] == '-'; }
  }

  /** Without a filter the registered names are written, and the round trip always holds. */
  lemma RoundTrip(specs: seq<Spec>, ss: seq<Setting>)
    requires forall s :: s in ss ==> Printable(specs, s)
    ensures Parse(specs, Print(ss, None), None).error == None
    ensures Events(Parse(specs, Print(ss, None), None).entries) == EventsOf(ss)
  {
    ParseUndoesPrint(specs, ss, None);
    NoneTakenMeaning(specs, ss, None);
  }
}
