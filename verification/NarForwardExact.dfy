/**
  For which trees does counting parentheses find the end of the archive? A name or a link target that
  spells `(` or `)`, and a target that spells `contents`, moves the count. `Walk` follows the count over
  the tree alone; the forwarder is exact for a tree if and only if the walk reaches its last token with
  the count back at zero and not before.
 */
module NarForwardExact {
  import opened NarFormat
  import opened NarReader
  import opened NarForwarding

  /** What the forwarder promises for one tree: it copies the archive and stops there, whatever follows. */
  ghost predicate Exact(t: Node)
    requires Writable(t)
  {
    forall trail: Bytes :: Forward(Archive(t) + trail, START) == Outcome(Archive(t), true)
  }

  // ------------------------------------------------------- the count over a tree

  datatype Fate =
    | Stopped                               // complete before the last token of the node
    | Passed(depth: int, complete: bool)    // the count behind the node

  /** A closing parenthesis at count `d`. */
  function Close(d: int): (r: Fate) {
    Passed(d - 1, d == 1)
  }

  /** The count behind a node that starts at count `d`. */
  function Walk(t: Node, d: int): (r: Fate)
    decreases t, 1
  {
    match t
    case Directory(es) =>
      (match WalkEntries(es, d + 1)
       case Stopped => Stopped
       case Passed(e, _) => Close(e))
    case Regular(_, _) => Close(d + 1)
    case Symlink(target) =>
      if target == "(" then Close(d + 2)
      else if target == ")" then (if d == 0 then Stopped else Close(d))
      else if target == "contents" then Passed(d + 1, false)
      else Close(d + 1)
  }

  /** The count behind the entries of a directory, `Stopped` when it completes among them. */
  function WalkEntries(es: seq<Entry>, d: int): (r: Fate)
    ensures r.Passed? ==> !r.complete
    decreases es, 0
  {
    if es == [] then Passed(d, false)
    else
      var name := es[0].name;
      if name == ")" && d == 0 then Stopped
      else
        var inside := if name == "(" then d + 2 else if name == ")" then d else d + 1;
        match Walk(es[0].node, inside)
        case Stopped => Stopped
        case Passed(e, complete) => if complete || e == 1 then Stopped else WalkEntries(es[1..], e - 1)
  }

  // ------------------------------------------------------ the walk is the scan

  /** The counter in front of a node, outside any file. */
  function Outside(d: int): (g: Gate) {
    Gate(d, false, false)
  }

  lemma ScanText(s: string, rest: Tokens, d: int)
    ensures Scan(More(Text(s), rest), Outside(d)) == Scan(rest, UpdateText(Outside(d), s))
  {
  }

  lemma ScanHeader(kind: string, rest: Tokens, d: int)
    requires kind in {"directory", "regular", "symlink"}
    ensures Scan(Header(kind, rest), Outside(d)) == Scan(rest, Outside(d + 1))
  {
    var tokens := Header(kind, rest);
    ScanText("(", tokens.tail, d);
    ScanText("type", tokens.tail.tail, d + 1);
    ScanText(kind, rest, d + 1);
  }

  lemma ScanFile(contents: Bytes, executable: bool, rest: Tokens, d: int)
    ensures Scan(FileBody(contents, executable, rest), Outside(d)) == Scan(rest, Gate(d - 1, false, d == 1))
  {
    var close := More(Text(")"), rest);
    var body := More(Text("contents"), More(Data(contents), close));
    if executable {
      ScanText("executable", More(Text(""), body), d);
      ScanText("", body, d);
    }
    ScanText("contents", body.tail, d);
    assert Scan(body.tail, Gate(d, true, false)) == Scan(close, Outside(d));
    ScanText(")", rest, d);
  }

  /** The walk foretells the scan of a node: `r` is the scan, `rest` the tokens behind the node. */
  ghost predicate Foretells(w: Fate, r: (Gate, Tokens), rest: Tokens) {
    match w
    case Stopped => r.0.complete && r.1.More?
    case Passed(e, complete) => r == Scan(rest, Gate(e, false, complete))
  }

  lemma ScanSymlink(target: string, rest: Tokens, d: int)
    ensures Foretells(Walk(Symlink(target), d), Scan(NodeTokens(Symlink(target), rest), Outside(d)), rest)
  {
    var close := More(Text(")"), rest);
    var tail := More(Text("target"), More(Text(target), close));
    ScanHeader("symlink", tail, d);
    ScanText("target", tail.tail, d + 1);
    ScanText(target, close, d + 1);
    if target == "contents" {
      assert Scan(close, Gate(d + 1, true, false)) == Scan(rest, Outside(d + 1));
    } else if !(target == ")" && d == 0) {
      ScanText(")", rest, if target == "(" then d + 2 else if target == ")" then d else d + 1);
    }
  }

  lemma {:induction false} ScanNode(t: Node, rest: Tokens, d: int)
    ensures Foretells(Walk(t, d), Scan(NodeTokens(t, rest), Outside(d)), rest)
    decreases t, 1
  {
    match t
    case Directory(es) =>
      var close := More(Text(")"), rest);
      ScanHeader("directory", EntriesTokens(es, close), d);
      ScanEntries(es, close, d + 1);
      var w := WalkEntries(es, d + 1);
      if w.Passed? {
        ScanText(")", rest, w.depth);
      }
    case Regular(contents, executable) =>
      ScanHeader("regular", FileBody(contents, executable, rest), d);
      ScanFile(contents, executable, rest, d + 1);
    case Symlink(target) =>
      ScanSymlink(target, rest, d);
  }

  lemma {:induction false} ScanEntries(es: seq<Entry>, rest: Tokens, d: int)
    requires rest.More?
    ensures Foretells(WalkEntries(es, d), Scan(EntriesTokens(es, rest), Outside(d)), rest)
    decreases es, 0
  {
    if es != [] {
      var after := EntriesTokens(es[1..], rest);
      var close := More(Text(")"), after);
      var name := es[0].name;
      ScanEntryHeader(name, NodeTokens(es[0].node, close), d);
      if !(name == ")" && d == 0) {
        var inside := if name == "(" then d + 2 else if name == ")" then d else d + 1;
        ScanNode(es[0].node, close, inside);
        var w := Walk(es[0].node, inside);
        if w.Passed? && !w.complete {
          ScanText(")", after, w.depth);
          if w.depth != 1 {
            ScanEntries(es[1..], rest, w.depth - 1);
          } else {
            EntriesMore(es[1..], rest);
          }
        }
      }
    }
  }

  lemma EntriesMore(es: seq<Entry>, rest: Tokens)
    requires rest.More?
    ensures EntriesTokens(es, rest).More?
  {
  }

  /** The tokens in front of an entry's node; a name that spells `contents` only swallows `node`. */
  lemma ScanEntryHeader(name: string, rest: Tokens, d: int)
    ensures var r := Scan(EntryHeader(name, rest), Outside(d));
            if name == ")" && d == 0 then r.0.complete && r.1.More?
            else r == Scan(rest, Outside(if name == "(" then d + 2 else if name == ")" then d else d + 1))
  {
    var tokens := EntryHeader(name, rest);
    var node := More(Text("node"), rest);
    ScanText("entry", tokens.tail, d);
    ScanText("(", tokens.tail.tail, d);
    ScanText("name", tokens.tail.tail.tail, d + 1);
    ScanText(name, node, d + 1);
    if name == "contents" {
      assert Scan(node, Gate(d + 1, true, false)) == Scan(rest, Outside(d + 1));
    } else if !(name == ")" && d == 0) {
      ScanText("node", rest, if name == "(" then d + 2 else if name == ")" then d else d + 1);
    }
  }

  // ------------------------------------------------------------- the theorems

  /** The forwarder is exact for a tree if and only if the walk completes with its last token. */
  lemma ExactIff(t: Node)
    requires Writable(t)
    ensures Exact(t) <==> Walk(t, 0).Passed? && Walk(t, 0).complete
  {
    NodeTokensValid(t, End);
    var tokens := ArchiveTokens(t);
    ScanText("nix-archive-1", NodeTokens(t, End), 0);
    ScanNode(t, End, 0);
    var (h, rest) := Scan(tokens, START);
    forall trail: Bytes
      ensures Walk(t, 0).Passed? && Walk(t, 0).complete
          ==> Forward(Archive(t) + trail, START) == Outcome(Archive(t), true)
    {
      var sent := ForwardScan(tokens, trail, START);
    }
    if Exact(t) {
      var sent := ForwardScan(tokens, [], START);
      assert Archive(t) + [] == Archive(t);
      assert Forward(Archive(t) + [], START) == Outcome(Archive(t), true);
    }
  }

  /** No name and no target that moves the count. */
  predicate Clean(t: Node)
    decreases t, 1
  {
    match t
    case Directory(es) => CleanEntries(es)
    case Regular(_, _) => true
    case Symlink(target) => target != "(" && target != ")" && target != "contents"
  }

  predicate CleanEntries(es: seq<Entry>)
    decreases es, 0
  {
    es == [] || (es[0].name != "(" && es[0].name != ")" && Clean(es[0].node) && CleanEntries(es[1..]))
  }

  lemma {:induction false} CleanWalk(t: Node, d: nat)
    requires Clean(t)
    ensures Walk(t, d) == Passed(d, d == 0)
    decreases t, 1
  {
    match t
    case Directory(es) => CleanWalkEntries(es, d + 1);
    case Regular(_, _) =>
    case Symlink(_) =>
  }

  lemma {:induction false} CleanWalkEntries(es: seq<Entry>, d: nat)
    requires CleanEntries(es) && d > 0
    ensures WalkEntries(es, d) == Passed(d, false)
    decreases es, 0
  {
    if es != [] {
      CleanWalk(es[0].node, d + 1);
      CleanWalkEntries(es[1..], d);
    }
  }

  /** Clean trees are forwarded exactly: their files may hold any bytes. */
  lemma CleanIsExact(t: Node)
    requires Writable(t) && Clean(t)
    ensures Exact(t)
  {
    CleanWalk(t, 0);
    ExactIff(t);
  }

  /** How many names and targets push the count up, and how many pull it down. */
  function Raises(t: Node): (n: nat)
    decreases t, 1
  {
    match t
    case Directory(es) => RaisesIn(es)
    case Regular(_, _) => 0
    case Symlink(target) => if target == "(" || target == "contents" then 1 else 0
  }

  function RaisesIn(es: seq<Entry>): (n: nat)
    decreases es, 0
  {
    if es == [] then 0
    else (if es[0].name == "(" then 1 else 0) + Raises(es[0].node) + RaisesIn(es[1..])
  }

  function Lowers(t: Node): (n: nat)
    decreases t, 1
  {
    match t
    case Directory(es) => LowersIn(es)
    case Regular(_, _) => 0
    case Symlink(target) => if target == ")" then 1 else 0
  }

  function LowersIn(es: seq<Entry>): (n: nat)
    decreases es, 0
  {
    if es == [] then 0
    else (if es[0].name == ")" then 1 else 0) + Lowers(es[0].node) + LowersIn(es[1..])
  }

  lemma {:induction false} WalkCounts(t: Node, d: int)
    ensures Walk(t, d).Passed? ==> Walk(t, d).depth == d + Raises(t) - Lowers(t)
    ensures Walk(t, d).Passed? && Walk(t, d).complete ==> Walk(t, d).depth == 0
    ensures Clean(t) <==> Raises(t) == Lowers(t) == 0
    decreases t, 1
  {
    match t
    case Directory(es) => WalkEntriesCounts(es, d + 1);
    case Regular(_, _) =>
    case Symlink(_) =>
  }

  lemma {:induction false} WalkEntriesCounts(es: seq<Entry>, d: int)
    ensures WalkEntries(es, d).Passed? ==> WalkEntries(es, d).depth == d + RaisesIn(es) - LowersIn(es)
    ensures CleanEntries(es) <==> RaisesIn(es) == LowersIn(es) == 0
    decreases es, 0
  {
    if es != [] {
      var name := es[0].name;
      var inside := if name == "(" then d + 2 else if name == ")" then d else d + 1;
      WalkCounts(es[0].node, inside);
      var w := Walk(es[0].node, inside);
      WalkEntriesCounts(es[1..], if w.Passed? then w.depth - 1 else 0);
    }
  }

  /** An exact tree pulls the count down as often as it pushes it up. */
  lemma ExactBalances(t: Node)
    requires Writable(t) && Exact(t)
    ensures Raises(t) == Lowers(t)
  {
    ExactIff(t);
    WalkCounts(t, 0);
  }

  /** When the count is moved in one direction only, exact means clean. */
  lemma OneSidedExactIff(t: Node)
    requires Writable(t) && (Raises(t) == 0 || Lowers(t) == 0)
    ensures Exact(t) <==> Clean(t)
  {
    WalkCounts(t, 0);
    if Exact(t) { ExactBalances(t); }
    if Clean(t) { CleanIsExact(t); }
  }

  /** A directory that holds an empty file named `)`. */
  const ODD := Directory([Entry(")", Regular([], false))])

  lemma OddScan()
    ensures Scan(ArchiveTokens(ODD), START) == (Gate(0, false, true), More(Text(")"), End))
  {
    ScanText("nix-archive-1", NodeTokens(ODD, End), 0);
    var es := ODD.entries;
    var last := More(Text(")"), End);
    assert es[1..] == [];
    var close := More(Text(")"), EntriesTokens(es[1..], last));
    ScanHeader("directory", EntriesTokens(es, last), 0);
    ScanEntryHeader(")", NodeTokens(es[0].node, close), 1);
    ScanNode(es[0].node, close, 1);
    ScanText(")", last, 1);
    assert Scan(last, Gate(0, false, true)) == (Gate(0, false, true), last);
  }

  /** What the forwarder sends of a tree when the scan completes: all but the tokens the scan leaves. */
  lemma SentOfScan(t: Node, trail: Bytes, rest: Tokens)
    requires Writable(t) && rest.Valid() && Scan(ArchiveTokens(t), START) == (Gate(0, false, true), rest)
    ensures var o := Forward(Archive(t) + trail, START);
            o.complete && o.sent + rest.Stream() == Archive(t)
  {
    NodeTokensValid(t, End);
    var sent := ForwardScan(ArchiveTokens(t), trail, START);
  }

  lemma LastToken()
    ensures More(Text(")"), End).Valid() && More(Text(")"), End).Stream() == Frame(Encode(")"))
  {
  }

  lemma OddTree()
    ensures Writable(ODD) && Raises(ODD) == 0 && Lowers(ODD) == 1
  {
    var es := ODD.entries;
    assert es[1..] == [];
    assert WritableEntries(es) && LowersIn(es) == 1 && RaisesIn(es) == 0;
  }

  /** The parser reads its archive; the forwarder calls it complete one token early and drops the last parenthesis. */
  lemma NameBreaksForwarding(trail: Bytes)
    ensures Writable(ODD) && !Exact(ODD) && ParseNar(Archive(ODD)) == Ok(ODD)
    ensures var o := Forward(Archive(ODD) + trail, START);
            o.complete && o.sent + Frame(Encode(")")) == Archive(ODD)
  {
    OddTree();
    OddScan();
    LastToken();
    SentOfScan(ODD, trail, More(Text(")"), End));
    RoundTrip(ODD);
    WalkCounts(ODD, 0);
    OneSidedExactIff(ODD);
  }
}
