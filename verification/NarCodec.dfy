/** The writer and the parser as they run: a buffer that grows, and loops that move an offset. */
module NarCodec {
  import opened NarFormat
  import opened NarReader

  // ----------------------------------------------------------------- writing

  class Buffer {
    var bytes: Bytes

    constructor ()
      ensures bytes == []
    {
      bytes := [];
    }

    method Write(chunk: Bytes)
      modifies this
      ensures bytes == old(bytes) + chunk
    {
      bytes := bytes + chunk;
    }
  }

  /** `done` is written, and the tokens `todo` complete it to `total`. */
  ghost predicate Pending(total: Bytes, done: Bytes, todo: Tokens) {
    todo.Valid() && total == done + todo.Stream()
  }

  lemma PendingNext(total: Bytes, done: Bytes, todo: Tokens)
    requires todo.More? && Pending(total, done, todo)
    ensures Pending(total, done + Frame(todo.head.Body()), todo.tail)
  {
  }

  method WriteToken(buf: Buffer, token: Token, ghost total: Bytes, ghost rest: Tokens) returns (ok: bool)
    modifies buf
    ensures ok <==> token.Valid()
    ensures ok ==> buf.bytes == old(buf.bytes) + Frame(token.Body())
    ensures !ok ==> buf.bytes == old(buf.bytes)
    ensures Pending(total, old(buf.bytes), More(token, rest)) ==> Pending(total, buf.bytes, rest)
  {
    ok := token.Valid();
    if ok {
      if Pending(total, buf.bytes, More(token, rest)) {
        PendingNext(total, buf.bytes, More(token, rest));
      }
      var body := token.Body();
      ghost var before := buf.bytes;
      buf.Write(LittleEndian(|body|, 8));
      buf.Write(body);
      buf.Write(Zeros(Pad(|body|)));
      assert buf.bytes == before + Frame(body);
    }
  }

  /** Writes one node; false is the encoding error the source raises. */
  method WriteNode(buf: Buffer, node: Node, ghost total: Bytes, ghost rest: Tokens) returns (ok: bool)
    modifies buf
    ensures ok <==> Writable(node)
    ensures ok && Pending(total, old(buf.bytes), NodeTokens(node, rest)) ==> Pending(total, buf.bytes, rest)
    decreases node, 1
  {
    ghost var tokens := NodeTokens(node, rest);
    ok := WriteToken(buf, Text("("), total, tokens.tail);
    ok := WriteToken(buf, Text("type"), total, tokens.tail.tail);
    match node {
      case Directory(es) =>
        ok := WriteToken(buf, Text("directory"), total, EntriesTokens(es, More(Text(")"), rest)));
        ok := WriteEntries(buf, es, total, More(Text(")"), rest));
      case Regular(contents, executable) =>
        ok := WriteToken(buf, Text("regular"), total, FileBody(contents, executable, rest));
        ok := WriteFile(buf, contents, executable, total, More(Text(")"), rest));
      case Symlink(target) =>
        ghost var tail := More(Text("target"), More(Text(target), More(Text(")"), rest)));
        ok := WriteToken(buf, Text("symlink"), total, tail);
        ok := WriteToken(buf, Text("target"), total, tail.tail);
        ok := WriteToken(buf, Text(target), total, tail.tail.tail);
    }
    if !ok { return; }
    ok := WriteToken(buf, Text(")"), total, rest);
  }

  method WriteFile(buf: Buffer, contents: Bytes, executable: bool, ghost total: Bytes, ghost rest: Tokens)
    returns (ok: bool)
    requires rest.More? && rest.head == Text(")")
    modifies buf
    ensures ok <==> |contents| < U64_LIMIT
    ensures ok && Pending(total, old(buf.bytes), FileBody(contents, executable, rest.tail)) ==> Pending(total, buf.bytes, rest)
  {
    ghost var tail := More(Text("contents"), More(Data(contents), rest));
    if executable {
      ok := WriteToken(buf, Text("executable"), total, More(Text(""), tail));
      ok := WriteToken(buf, Text(""), total, tail);
    }
    ok := WriteToken(buf, Text("contents"), total, tail.tail);
    ok := WriteToken(buf, Data(contents), total, rest);
  }

  method WriteEntries(buf: Buffer, es: seq<Entry>, ghost total: Bytes, ghost rest: Tokens) returns (ok: bool)
    modifies buf
    ensures ok <==> WritableEntries(es)
    ensures ok && Pending(total, old(buf.bytes), EntriesTokens(es, rest)) ==> Pending(total, buf.bytes, rest)
    decreases es, 0
  {
    ok := true;
    var i := 0;
    while i < |es| && ok
      invariant 0 <= i <= |es|
      invariant ok ==> (WritableEntries(es) <==> WritableEntries(es[i..]))
      invariant !ok ==> !WritableEntries(es)
      invariant ok && Pending(total, old(buf.bytes), EntriesTokens(es, rest))
                ==> Pending(total, buf.bytes, EntriesTokens(es[i..], rest))
    {
      assert es[i..][0] == es[i] && es[i..][1..] == es[i + 1..];
      ok := WriteEntry(buf, es[i], total, EntriesTokens(es[i + 1..], rest));
      i := i + 1;
    }
  }

  method WriteEntry(buf: Buffer, e: Entry, ghost total: Bytes, ghost rest: Tokens) returns (ok: bool)
    modifies buf
    ensures ok <==> WritableString(e.name) && Writable(e.node)
    ensures (ok && Pending(total, old(buf.bytes), EntryHeader(e.name, NodeTokens(e.node, More(Text(")"), rest)))))
         ==> Pending(total, buf.bytes, rest)
    decreases e, 0
  {
    ghost var node := NodeTokens(e.node, More(Text(")"), rest));
    ghost var tokens := EntryHeader(e.name, node);
    ok := WriteToken(buf, Text("entry"), total, tokens.tail);
    ok := WriteToken(buf, Text("("), total, tokens.tail.tail);
    ok := WriteToken(buf, Text("name"), total, tokens.tail.tail.tail);
    ok := WriteToken(buf, Text(e.name), total, tokens.tail.tail.tail.tail);
    if !ok { return; }
    ok := WriteToken(buf, Text("node"), total, node);
    ok := WriteNode(buf, e.node, total, More(Text(")"), rest));
    if !ok { return; }
    ok := WriteToken(buf, Text(")"), total, rest);
  }

  lemma PendingAll(node: Node)
    requires Writable(node)
    ensures Pending(Archive(node), [], More(Text("nix-archive-1"), NodeTokens(node, End)))
  {
    NodeTokensValid(node, End);
  }

  /** The writer answers the archive of the tree, or fails exactly on a tree it cannot encode. */
  method WriteNar(node: Node) returns (r: Result<Bytes>)
    ensures r.Ok? <==> Writable(node)
    ensures r.Ok? ==> r.value == Archive(node)
  {
    var buf := new Buffer();
    ghost var total := if Writable(node) then Archive(node) else [];
    if Writable(node) {
      PendingAll(node);
    }
    var ok := WriteToken(buf, Text("nix-archive-1"), total, NodeTokens(node, End));
    ok := WriteNode(buf, node, total, End);
    r := if ok then Ok(buf.bytes) else Err(NotAscii);
  }

  // ----------------------------------------------------------------- parsing

  method ParseEntries(data: Bytes, start: nat) returns (r: Result<(seq<Entry>, nat)>)
    ensures r == ReadEntries(data, start, [])
    decreases Left(data, start), 1
  {
    var entries: seq<Entry> := [];
    var off := start;
    while true
      invariant off >= start && WritableEntries(entries)
      invariant ReadEntries(data, start, []) == ReadEntries(data, off, entries)
      decreases Left(data, off)
    {
      var kind := ReadString(data, off);
      if kind.Err? { return Err(kind.error); }
      if kind.value.0 == ")" { return Ok((entries, kind.value.1)); }
      if kind.value.0 != "entry" { return Err(Unexpected); }
      var entry := ParseEntry(data, kind.value.1);
      if entry.Err? { return Err(entry.error); }
      ReadEntriesStep(entries, entry.value.0, data, off, kind.value.1, entry.value.1);
      entries := entries + [entry.value.0];
      off := entry.value.1;
    }
  }

  method ParseEntry(data: Bytes, start: nat) returns (r: Result<(Entry, nat)>)
    ensures r == ReadEntry(data, start)
    decreases Left(data, start), 0
  {
    var off :- Expect(data, start, "(");
    off :- Expect(data, off, "name");
    var name :- ReadString(data, off);
    off :- Expect(data, name.1, "node");
    var child :- ParseNode(data, off);
    off :- Expect(data, child.1, ")");
    r := Ok((Entry(name.0, child.0), off));
  }

  method ParseAttributes(data: Bytes, start: nat) returns (r: Result<(bool, nat)>)
    ensures r == ReadAttributes(data, start, false)
  {
    var executable := false;
    var off := start;
    while true
      invariant ReadAttributes(data, start, false) == ReadAttributes(data, off, executable)
      decreases Left(data, off)
    {
      var key := ReadString(data, off);
      if key.Err? { return Err(key.error); }
      if key.value.0 == "contents" { return Ok((executable, key.value.1)); }
      if key.value.0 != "executable" { return Err(Unexpected); }
      var value := ReadString(data, key.value.1);
      if value.Err? { return Err(value.error); }
      executable := true;
      off := value.value.1;
    }
  }

  /** One node, by the loops of the parser. */
  method ParseNode(data: Bytes, start: nat) returns (r: Result<(Node, nat)>)
    ensures r == ReadNode(data, start)
    decreases Left(data, start), 0
  {
    var off :- Expect(data, start, "(");
    off :- Expect(data, off, "type");
    var kind :- ReadString(data, off);
    if kind.0 == "directory" {
      var entries :- ParseEntries(data, kind.1);
      r := Ok((Directory(entries.0), entries.1));
    } else if kind.0 == "regular" {
      var attributes :- ParseAttributes(data, kind.1);
      var body :- ReadToken(data, attributes.1);
      off :- Expect(data, body.1, ")");
      r := Ok((Regular(body.0, attributes.0), off));
    } else if kind.0 == "symlink" {
      off :- Expect(data, kind.1, "target");
      var target :- ReadString(data, off);
      off :- Expect(data, target.1, ")");
      r := Ok((Symlink(target.0), off));
    } else {
      r := Err(Unexpected);
    }
  }

  /** The parser finds the tree of every archive, and no tree when other bytes follow it. */
  method Parse(data: Bytes) returns (r: Result<Node>)
    ensures r == ParseNar(data)
    ensures forall t | Writable(t) && data == Archive(t) :: r == Ok(t)
    ensures forall t, x | Writable(t) && data == Archive(t) + x && x != [] :: r == Err(TrailingBytes)
  {
    forall t, x | Writable(t) && data == Archive(t) + x
      ensures ParseNar(data) == if x == [] then Ok(t) else Err(TrailingBytes)
    {
      ReadArchive(t, x);
    }
    forall t | Writable(t) && data == Archive(t)
      ensures ParseNar(data) == Ok(t)
    {
      RoundTrip(t);
    }
    if |data| < 8 { return Err(TooShort); }
    var magic :- ReadString(data, 0);
    if magic.0 != "nix-archive-1" { return Err(BadMagic); }
    var node :- ParseNode(data, magic.1);
    r := if node.1 != |data| then Err(TrailingBytes) else Ok(node.0);
  }
}
