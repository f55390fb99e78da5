/** Derived paths: a store path, or the outputs of a derivation that may itself be an output. */
module DerivedPaths {
  import opened Optional

  datatype Error = BadOutputName | ForeignStorePath

  datatype Result<T> = Ok(value: T) | Err(error: Error)

  datatype Outputs = All | Named(names: set<string>)

  /** The root store path by its base name, the intermediate outputs, and the outputs asked for. */
  datatype Path = Path(drv: string, chain: seq<string>, outputs: Option<Outputs>)

  /** The store directory, with its slash, and the separator: `!` on the wire, `^` for people. */
  datatype Format = Format(prefix: string, sep: char)

  predicate Usable(f: Format) {
    f.sep in {'!', '^'} && f.sep !in f.prefix
  }

  // ------------------------------------------------------------- split and join

  /** The pieces between separators, from left to right. */
  function Split(s: string, sep: char): (parts: seq<string>)
    ensures |parts| >= 1
    ensures forall i | 0 <= i < |parts| :: sep !in parts[i]
  {
    if s == "" then [""]
    else
      var rest := Split(s[1..], sep);
      if s[0] == sep then [""] + rest else [[s[0]] + rest[0]] + rest[1..]
  }

  function Join(parts: seq<string>, sep: char): (s: string)
    requires |parts| >= 1
  {
    if |parts| == 1 then parts[0] else parts[0] + [sep] + Join(parts[1..], sep)
  }

  lemma {:induction false} SplitWhole(s: string, sep: char)
    requires sep !in s
    ensures Split(s, sep) == [s]
  {
    if s != "" {
      SplitWhole(s[1..], sep);
      assert [s[0]] + s[1..] == s;
    }
  }

  lemma {:induction false} SplitAt(a: string, b: string, sep: char)
    ensures Split(a + [sep] + b, sep) == Split(a, sep) + Split(b, sep)
  {
    var s := a + [sep] + b;
    if a == "" {
      assert s[1..] == b && s[0] == sep;
    } else {
      SplitAt(a[1..], b, sep);
      assert s[1..] == a[1..] + [sep] + b && s[0] == a[0];
    }
  }

  lemma {:induction false} SplitJoin(parts: seq<string>, sep: char)
    requires |parts| >= 1 && forall i | 0 <= i < |parts| :: sep !in parts[i]
    ensures Split(Join(parts, sep), sep) == parts
  {
    SplitWhole(parts[0], sep);
    if |parts| > 1 {
      SplitAt(parts[0], Join(parts[1..], sep), sep);
      SplitJoin(parts[1..], sep);
      assert [parts[0]] + parts[1..] == parts;
    }
  }

  // --------------------------------------------------------------- output names

  predicate NameChar(c: char) {
    'a' <= c <= 'z' || 'A' <= c <= 'Z' || '0' <= c <= '9' || c in "+-._?="
  }

  const MAX_NAME := 211

  /** `check_output_name`. */
  predicate ValidName(name: string) {
    && 0 < |name| <= MAX_NAME && name != "." && name != ".."
    && !(".-" <= name) && !("..-" <= name)
    && forall i | 0 <= i < |name| :: NameChar(name[i])
  }

  /** The order in which names are printed: by code point, a prefix first. */
  predicate Before(a: string, b: string) {
    if a == "" || b == "" then a == "" else a[0] < b[0] || (a[0] == b[0] && Before(a[1..], b[1..]))
  }

  lemma {:induction false} BeforeIsTotal(a: string, b: string)
    ensures Before(a, b) || Before(b, a)
    ensures Before(a, b) && Before(b, a) ==> a == b
  {
    if a != "" && b != "" {
      BeforeIsTotal(a[1..], b[1..]);
      if a[0] == b[0] && a[1..] == b[1..] {
        assert a == [a[0]] + a[1..] && b == [b[0]] + b[1..];
      }
    }
  }

  lemma {:induction false} BeforeChains(a: string, b: string, c: string)
    requires Before(a, b) && Before(b, c)
    ensures Before(a, c)
  {
    if a != "" && a[0] == b[0] == c[0] {
      BeforeChains(a[1..], b[1..], c[1..]);
    }
  }

  lemma {:induction false} LeastExists(names: set<string>)
    requires names != {}
    ensures exists n :: n in names && forall o | o in names :: Before(n, o)
  {
    var n :| n in names;
    var rest := names - {n};
    BeforeIsTotal(n, n);
    if rest != {} {
      LeastExists(rest);
      var m :| m in rest && forall o | o in rest :: Before(m, o);
      BeforeIsTotal(n, m);
      if Before(n, m) {
        forall o | o in names ensures Before(n, o) {
          if o != n { BeforeChains(n, m, o); }
        }
      } else {
        assert forall o | o in names :: o == n || o in rest;
      }
    } else {
      assert names == {n};
    }
  }

  /** The names in order, each once. */
  ghost function Sorted(names: set<string>): (list: seq<string>)
    ensures forall n :: n in list <==> n in names
    ensures forall i, j | 0 <= i < j < |list| :: Before(list[i], list[j]) && list[i] != list[j]
  {
    if names == {} then []
    else
      LeastExists(names);
      var n :| n in names && forall o | o in names :: Before(n, o);
      [n] + Sorted(names - {n})
  }

  function SetOf(parts: seq<string>): (names: set<string>) {
    set n | n in parts
  }

  function ParseOutputs(s: string): (r: Result<Outputs>) {
    if s == "*" then Ok(All)
    else
      var names := if s == "" then {} else SetOf(Split(s, ','));
      if forall n | n in names :: ValidName(n) then Ok(Named(names)) else Err(BadOutputName)
  }

  ghost function PrintOutputs(o: Outputs): (s: string) {
    match o
    case All => "*"
    case Named(names) => if names == {} then "" else (assert exists n :: n in names; Join(Sorted(names), ','))
  }

  predicate ValidOutputs(o: Outputs) {
    o.Named? ==> forall n | n in o.names :: ValidName(n)
  }

  lemma {:induction false} JoinChars(parts: seq<string>, c: char)
    requires |parts| >= 1 && (forall i | 0 <= i < |parts| :: c !in parts[i]) && c != ','
    ensures c !in Join(parts, ',')
  {
    if |parts| > 1 {
      JoinChars(parts[1..], c);
    }
  }

  lemma NamesHold(names: set<string>, list: seq<string>)
    requires (forall n | n in names :: ValidName(n)) && names != {} && list == Sorted(names)
    ensures |list| >= 1
    ensures forall i | 0 <= i < |list| :: ValidName(list[i])
    ensures SetOf(list) == names
  {
    var n :| n in names;
    assert n in list;
    assert forall i | 0 <= i < |list| :: list[i] in list;
  }

  lemma ValidNameLacks(name: string, c: char)
    requires ValidName(name) && !NameChar(c)
    ensures c !in name
  {
  }

  lemma JoinHead(list: seq<string>)
    requires |list| >= 1 && ValidName(list[0])
    ensures var text := Join(list, ','); text != "" && text != "*"
  {
    var text := Join(list, ',');
    assert text[0] == list[0][0] && NameChar(list[0][0]);
  }

  lemma NamesLack(list: seq<string>, c: char)
    requires (forall i | 0 <= i < |list| :: ValidName(list[i])) && !NameChar(c)
    ensures forall i | 0 <= i < |list| :: c !in list[i]
  {
    forall i | 0 <= i < |list|
      ensures c !in list[i]
    {
      ValidNameLacks(list[i], c);
    }
  }

  /** The names in order, joined and split again, are the names. */
  lemma OutputsRoundTrip(o: Outputs)
    requires ValidOutputs(o)
    ensures ParseOutputs(PrintOutputs(o)) == Ok(o)
    ensures '!' !in PrintOutputs(o) && '^' !in PrintOutputs(o)
  {
    if o.Named? && o.names != {} {
      var list := Sorted(o.names);
      NamesHold(o.names, list);
      NamesLack(list, ',');
      NamesLack(list, '!');
      NamesLack(list, '^');
      SplitJoin(list, ',');
      JoinChars(list, '!');
      JoinChars(list, '^');
      JoinHead(list);
    }
  }

  // -------------------------------------------------------------- the whole path

  /** `StorePath(s)`: the store directory goes; another absolute path is refused. */
  function StorePath(f: Format, s: string): (r: Result<string>) {
    if f.prefix <= s then Ok(s[|f.prefix|..])
    else if "/" <= s then Err(ForeignStorePath)
    else Ok(s)
  }

  /** The store directory is taken off whatever follows it, an absolute path elsewhere is refused, and the rest is kept. */
  lemma StorePathLaw(f: Format, s: string)
    ensures StorePath(f, f.prefix + s) == Ok(s)
    ensures !(f.prefix <= s) ==> StorePath(f, s) == if s != "" && s[0] == '/' then Err(ForeignStorePath) else Ok(s)
  {
    assert (f.prefix + s)[|f.prefix|..] == s;
  }

  function StoreText(f: Format, base: string): (s: string) {
    if base == "" then "" else f.prefix + base
  }

  ghost function Print(f: Format, p: Path): (s: string) {
    if p.outputs.None? then StoreText(f, p.drv)
    else Join([StoreText(f, p.drv)] + p.chain + [PrintOutputs(p.outputs.value)], f.sep)
  }

  /** What the pieces of a text mean: the first is the store path, the last the outputs, the others the chain. */
  function Meaning(f: Format, parts: seq<string>): (r: Result<Path>)
    requires |parts| >= 1
  {
    var last := |parts| - 1;
    if last == 0 then
      var drv := StorePath(f, parts[0]);
      if drv.Err? then Err(drv.error) else Ok(Path(drv.value, [], None))
    else
      var outputs := ParseOutputs(parts[last]);
      var drv := StorePath(f, parts[0]);
      if outputs.Err? then Err(outputs.error)
      else if drv.Err? then Err(drv.error)
      else Ok(Path(drv.value, parts[1..last], Some(outputs.value)))
  }

  function Parse(f: Format, s: string): (r: Result<Path>) {
    Meaning(f, Split(s, f.sep))
  }

  ghost predicate IsLast(s: string, c: char, n: int) {
    -1 <= n < |s| && (n >= 0 ==> s[n] == c) && c !in s[n + 1..]
  }

  /** The last place of a character, or -1. */
  method RFind(s: string, c: char) returns (n: int)
    ensures IsLast(s, c, n)
  {
    n := |s| - 1;
    while n >= 0 && s[n] != c
      invariant -1 <= n < |s| && c !in s[n + 1..]
    {
      assert s[n..] == [s[n]] + s[n + 1..];
      n := n - 1;
    }
  }

  lemma SplitLast(s: string, sep: char, n: int)
    requires IsLast(s, sep, n)
    ensures Split(s, sep) == if n == -1 then [s] else Split(s[..n], sep) + [s[n + 1..]]
  {
    if n == -1 {
      assert s[0..] == s;
      SplitWhole(s, sep);
    } else {
      assert s == s[..n] + [sep] + s[n + 1..];
      SplitAt(s[..n], s[n + 1..], sep);
      SplitWhole(s[n + 1..], sep);
    }
  }

  function Reversed(s: seq<string>): (r: seq<string>)
    ensures |r| == |s|
  {
    if s == [] then [] else Reversed(s[1..]) + [s[0]]
  }

  lemma {:induction false} ReversedPush(s: seq<string>, x: string)
    ensures Reversed(s + [x]) == [x] + Reversed(s)
  {
    if s != [] {
      assert (s + [x])[1..] == s[1..] + [x];
      ReversedPush(s[1..], x);
    }
  }

  /** What is left of a text and the pieces taken off it, last first, are the pieces of the whole. */
  ghost predicate Taken(whole: string, sep: char, remaining: string, parts: seq<string>) {
    Split(remaining, sep) + Reversed(parts) == Split(whole, sep)
  }

  lemma OnePieceMore(whole: string, sep: char, remaining: string, parts: seq<string>, m: int)
    requires Taken(whole, sep, remaining, parts) && IsLast(remaining, sep, m) && m >= 0
    ensures Taken(whole, sep, remaining[..m], parts + [remaining[m + 1..]])
  {
    SplitLast(remaining, sep, m);
    ReversedPush(parts, remaining[m + 1..]);
    Regroup(Split(remaining[..m], sep), remaining[m + 1..], Reversed(parts));
  }

  lemma Regroup(a: seq<string>, x: string, b: seq<string>)
    ensures a + ([x] + b) == a + [x] + b
  {
  }

  lemma AllTaken(whole: string, sep: char, remaining: string, parts: seq<string>)
    requires Taken(whole, sep, remaining, parts) && IsLast(remaining, sep, -1)
    ensures [remaining] + Reversed(parts) == Split(whole, sep)
  {
    SplitLast(remaining, sep, -1);
  }

  lemma NoneTaken(whole: string, sep: char)
    ensures Taken(whole, sep, whole, [])
  {
  }

  /** The loop of `_parse_components`: from the right, one separator at a time. */
  method ParseChain(text: string, sep: char) returns (root: string, chain: seq<string>)
    ensures [root] + chain == Split(text, sep)
  {
    var remaining, chainParts := text, [];
    NoneTaken(text, sep);
    var m := RFind(remaining, sep);
    while m != -1
      invariant IsLast(remaining, sep, m) && Taken(text, sep, remaining, chainParts)
      decreases m
    {
      OnePieceMore(text, sep, remaining, chainParts, m);
      chainParts := chainParts + [remaining[m + 1..]];
      remaining := remaining[..m];
      m := RFind(remaining, sep);
    }
    AllTaken(text, sep, remaining, chainParts);
    root, chain := remaining, Reversed(chainParts);
  }

  lemma MeaningOfPieces(f: Format, s: string, n: nat, root: string, chain: seq<string>)
    requires IsLast(s, f.sep, n) && [root] + chain == Split(s[..n], f.sep)
    ensures Split(s, f.sep) == [root] + chain + [s[n + 1..]]
    ensures Split(s, f.sep)[1..|Split(s, f.sep)| - 1] == chain
  {
    SplitLast(s, f.sep, n);
  }

  /** `_parse_components` reads the pieces a split from the left gives. */
  method ParseComponents(f: Format, s: string) returns (r: Result<Path>)
    ensures r == Parse(f, s)
  {
    var n := RFind(s, f.sep);
    if n == -1 {
      SplitLast(s, f.sep, n);
      var path := StorePath(f, s);
      return if path.Err? then Err(path.error) else Ok(Path(path.value, [], None));
    }
    var outputs := ParseOutputs(s[n + 1..]);
    var root, chain := ParseChain(s[..n], f.sep);
    MeaningOfPieces(f, s, n, root, chain);
    if outputs.Err? {
      return Err(outputs.error);
    }
    var drv := StorePath(f, root);
    r := if drv.Err? then Err(drv.error) else Ok(Path(drv.value, chain, Some(outputs.value)));
  }

  // ------------------------------------------------------------------ round trips

  /** Nothing in the path holds the separator, and the output names are Nix's. */
  predicate WellFormed(f: Format, p: Path) {
    && f.sep !in p.drv
    && (forall i | 0 <= i < |p.chain| :: f.sep !in p.chain[i])
    && (p.outputs.None? ==> p.chain == [])
    && (p.outputs.Some? ==> ValidOutputs(p.outputs.value))
  }

  lemma ParsedIsWellFormed(f: Format, s: string)
    requires Parse(f, s).Ok?
    ensures WellFormed(f, Parse(f, s).value)
  {
    var parts := Split(s, f.sep);
    var p := Parse(f, s).value;
    forall c | c in p.drv
      ensures c in parts[0]
    {
    }
    assert f.sep !in parts[0];
    forall i | 0 <= i < |p.chain|
      ensures f.sep !in p.chain[i]
    {
      assert p.chain[i] == parts[i + 1];
    }
  }

  /** Printing then parsing gives the path back exactly for the well-formed paths, in both formats. */
  lemma PrintParseIff(f: Format, p: Path)
    requires Usable(f)
    ensures Parse(f, Print(f, p)) == Ok(p) <==> WellFormed(f, p)
  {
    if Parse(f, Print(f, p)) == Ok(p) {
      ParsedIsWellFormed(f, Print(f, p));
    }
    if WellFormed(f, p) {
      PrintParse(f, p);
    }
  }

  lemma PrintParse(f: Format, p: Path)
    requires Usable(f) && WellFormed(f, p)
    ensures Parse(f, Print(f, p)) == Ok(p)
  {
    var text := StoreText(f, p.drv);
    assert f.sep !in text;
    assert StorePath(f, text) == Ok(p.drv);
    if p.outputs.None? {
      SplitWhole(text, f.sep);
    } else {
      OutputsRoundTrip(p.outputs.value);
      var last := PrintOutputs(p.outputs.value);
      var parts := [text] + p.chain + [last];
      forall i | 0 <= i < |parts|
        ensures f.sep !in parts[i]
      {
      }
      SplitJoin(parts, f.sep);
      assert parts[1..|parts| - 1] == p.chain;
    }
  }

  /** Parsing, printing and parsing again is parsing, on every accepted text. */
  lemma ParsePrintParse(f: Format, s: string)
    requires Usable(f) && Parse(f, s).Ok?
    ensures Parse(f, Print(f, Parse(f, s).value)) == Parse(f, s)
  {
    ParsedIsWellFormed(f, s);
    PrintParse(f, Parse(f, s).value);
  }

  /** A chain is not checked: a wire path with `^` in it is another path once printed for people. */
  lemma WirePathChangesMeaning(prefix: string)
    requires '!' !in prefix && '^' !in prefix
    ensures var p := Path("a.drv", ["b^c"], Some(All));
            && Parse(Format(prefix, '!'), Print(Format(prefix, '!'), p)) == Ok(p)
            && Parse(Format(prefix, '^'), Print(Format(prefix, '^'), p)) != Ok(p)
  {
    var p := Path("a.drv", ["b^c"], Some(All));
    assert "b^c"[1] == '^';
    assert p.chain[0] == "b^c";
    PrintParseIff(Format(prefix, '!'), p);
    PrintParseIff(Format(prefix, '^'), p);
  }

  // ------------------------------------------------------------- nested builds

  /** One level less nested: the path to build first. */
  function Outer(p: Path): (r: Path) {
    if p.chain == [] then p
    else Path(p.drv, p.chain[..|p.chain| - 1], Some(Named({p.chain[|p.chain| - 1]})))
  }

  function Wrap(p: Path, result: string): (r: Path) {
    Path(result, [], p.outputs)
  }

  datatype Status = Success | DependencyFailed | Unknown | MiscFailure | OtherFailure

  /** What a build goal answers. */
  datatype Outcome = Outcome(status: Status, outputs: map<string, string>)

  function Failure(status: Status): (o: Outcome) {
    Outcome(status, map[])
  }

  predicate IsDerivation(path: string) {
    |path| >= 4 && path[|path| - 4..] == ".drv"
  }

  /** Builds a path that is not nested; any answer is possible. */
  type Builder = (string, Option<Outputs>) -> Outcome

  /** `_ensure_nested`: build the outer path, then the rest on top of the derivation it made. */
  function Ensure(build: Builder, p: Path): (o: Outcome)
    decreases |p.chain|
  {
    if p.chain == [] then build(p.drv, p.outputs)
    else
      var outer := Ensure(build, Outer(p));
      var name := p.chain[|p.chain| - 1];
      if name !in outer.outputs then Failure(if outer.status != Success then DependencyFailed else Unknown)
      else if !IsDerivation(outer.outputs[name]) then Failure(MiscFailure)
      else Ensure(build, Wrap(p, outer.outputs[name]))
  }

  /** Walks the chain from the root: each output named is the derivation of the next step. */
  function Walk(build: Builder, drv: string, chain: seq<string>): (r: Option<string>)
    decreases |chain|
  {
    if chain == [] then Some(drv)
    else
      var made := build(drv, Some(Named({chain[0]}))).outputs;
      if chain[0] !in made || !IsDerivation(made[chain[0]]) then None
      else Walk(build, made[chain[0]], chain[1..])
  }

  lemma {:induction false} WalkFurther(build: Builder, drv: string, chain: seq<string>, name: string)
    ensures Walk(build, drv, chain + [name]) ==
            match Walk(build, drv, chain)
            case None => None
            case Some(last) => Walk(build, last, [name])
    decreases |chain|
  {
    if chain != [] {
      var made := build(drv, Some(Named({chain[0]}))).outputs;
      assert (chain + [name])[1..] == chain[1..] + [name];
      if chain[0] in made {
        WalkFurther(build, made[chain[0]], chain[1..], name);
      }
    } else {
      assert chain + [name] == [name];
    }
  }

  /** Whatever the builder answers, the nested builds end like the walk of the whole chain, or fail as it does. */
  lemma {:induction false} EnsureIsWalk(build: Builder, p: Path)
    ensures match Walk(build, p.drv, p.chain)
            case Some(drv) => Ensure(build, p) == build(drv, p.outputs)
            case None => Ensure(build, p).outputs == map[] && Ensure(build, p).status != Success
    decreases |p.chain|
  {
    if p.chain != [] {
      var last := |p.chain| - 1;
      var before, name := p.chain[..last], p.chain[last];
      assert p.chain == before + [name];
      WalkFurther(build, p.drv, before, name);
      EnsureIsWalk(build, Outer(p));
    }
  }

  /**
    How a nested build fails: for want of a dependency where the walk broke before its last step or that step's build
    failed; otherwise for an output that is missing, or one that is no derivation.
   */
  lemma EnsureFailsAs(build: Builder, p: Path)
    requires p.chain != []
    ensures var last := |p.chain| - 1;
            match Walk(build, p.drv, p.chain[..last])
            case None => Ensure(build, p) == Failure(DependencyFailed)
            case Some(drv) =>
              var made := build(drv, Some(Named({p.chain[last]})));
              && (p.chain[last] !in made.outputs ==>
                    Ensure(build, p) == Failure(if made.status == Success then Unknown else DependencyFailed))
              && (p.chain[last] in made.outputs && (forall stem :: made.outputs[p.chain[last]] != stem + ".drv") ==>
                    Ensure(build, p) == Failure(MiscFailure))
  {
    EnsureIsWalk(build, Outer(p));
    var outer := Ensure(build, Outer(p));
    var name := p.chain[|p.chain| - 1];
    if name in outer.outputs {
      DerivationIff(outer.outputs[name]);
    }
  }

  lemma DerivationIff(path: string)
    ensures IsDerivation(path) <==> exists stem :: path == stem + ".drv"
  {
    if IsDerivation(path) {
      assert path == path[..|path| - 4] + ".drv";
    }
    if stem :| path == stem + ".drv" {
      assert path[|path| - 4..] == ".drv";
    }
  }
}
