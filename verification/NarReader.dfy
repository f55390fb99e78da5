/** Reading an archive back: the parser as a function of the bytes and an offset. */
module NarReader {
  import opened NarFormat

  /** Python's slice `data[lo:hi]`, which stops at the end of the data. */
  function Slice(data: Bytes, lo: nat, hi: nat): (r: Bytes)
    requires lo <= hi
    ensures |r| <= hi - lo
  {
    if lo >= |data| then [] else if hi >= |data| then data[lo..] else data[lo..hi]
  }

  function ReadLength(data: Bytes, off: nat): (r: Result<nat>)
    ensures r.Ok? ==> off + 8 <= |data| && r.value < U64_LIMIT
  {
    if off + 8 > |data| then Err(StructError)
    else
      UnsignedBelow(data[off..off + 8]);
      LimitOfEight();
      Ok(Unsigned(data[off..off + 8]))
  }

  /** The body of the token at `off`, and the offset behind its padding. */
  function ReadToken(data: Bytes, off: nat): (r: Result<(Bytes, nat)>)
    ensures r.Ok? ==> off + 8 <= |data| && r.value.1 >= off + 8 && |r.value.0| < U64_LIMIT
  {
    var n :- ReadLength(data, off);
    Ok((Slice(data, off + 8, off + 8 + n), off + FrameSize(n)))
  }

  function ReadString(data: Bytes, off: nat): (r: Result<(string, nat)>)
    ensures r.Ok? ==> off + 8 <= |data| && r.value.1 >= off + 8 && WritableString(r.value.0)
  {
    var token :- ReadToken(data, off);
    var s :- Decode(token.0);
    Ok((s, token.1))
  }

  function Expect(data: Bytes, off: nat, expected: string): (r: Result<nat>)
    ensures r.Ok? ==> off + 8 <= |data| && r.value >= off + 8
  {
    var s :- ReadString(data, off);
    if s.0 == expected then Ok(s.1) else Err(Unexpected)
  }

  function Left(data: Bytes, off: nat): (n: nat) {
    if off <= |data| then |data| - off else 0
  }

  function ReadNode(data: Bytes, off: nat): (r: Result<(Node, nat)>)
    ensures r.Ok? ==> off + 8 <= |data| && r.value.1 > off
    ensures r.Ok? ==> Writable(r.value.0)
    decreases Left(data, off)
  {
    var o1 :- Expect(data, off, "(");
    var o2 :- Expect(data, o1, "type");
    var kind :- ReadString(data, o2);
    if kind.0 == "directory" then
      var es :- ReadEntries(data, kind.1, []);
      Ok((Directory(es.0), es.1))
    else if kind.0 == "regular" then
      var attributes :- ReadAttributes(data, kind.1, false);
      var body :- ReadToken(data, attributes.1);
      var o3 :- Expect(data, body.1, ")");
      Ok((Regular(body.0, attributes.0), o3))
    else if kind.0 == "symlink" then
      var o3 :- Expect(data, kind.1, "target");
      var target :- ReadString(data, o3);
      var o4 :- Expect(data, target.1, ")");
      Ok((Symlink(target.0), o4))
    else
      Err(Unexpected)
  }

  /** The entry loop of a directory: `acc` holds the entries read so far. */
  function ReadEntries(data: Bytes, off: nat, acc: seq<Entry>): (r: Result<(seq<Entry>, nat)>)
    requires WritableEntries(acc)
    ensures r.Ok? ==> r.value.1 >= off + 8 && WritableEntries(r.value.0)
    decreases Left(data, off)
  {
    var kind :- ReadString(data, off);
    if kind.0 == ")" then Ok((acc, kind.1))
    else if kind.0 != "entry" then Err(Unexpected)
    else
      var entry :- ReadEntry(data, kind.1);
      WritableSnoc(acc, entry.0);
      ReadEntries(data, entry.1, acc + [entry.0])
  }

  function ReadEntry(data: Bytes, off: nat): (r: Result<(Entry, nat)>)
    ensures r.Ok? ==> off + 8 <= |data| && r.value.1 >= off + 8 && WritableEntries([r.value.0])
    decreases Left(data, off)
  {
    var o1 :- Expect(data, off, "(");
    var o2 :- Expect(data, o1, "name");
    var name :- ReadString(data, o2);
    var o3 :- Expect(data, name.1, "node");
    var child :- ReadNode(data, o3);
    var o4 :- Expect(data, child.1, ")");
    Ok((Entry(name.0, child.0), o4))
  }

  /** The attribute loop of a regular file, up to the `contents` key. */
  function ReadAttributes(data: Bytes, off: nat, executable: bool): (r: Result<(bool, nat)>)
    ensures r.Ok? ==> r.value.1 >= off + 8
    decreases Left(data, off)
  {
    var key :- ReadString(data, off);
    if key.0 == "contents" then Ok((executable, key.1))
    else if key.0 == "executable" then
      var value :- ReadString(data, key.1);
      ReadAttributes(data, value.1, true)
    else Err(Unexpected)
  }

  function ParseNar(data: Bytes): (r: Result<Node>)
    ensures r.Ok? ==> Writable(r.value)
  {
    if |data| < 8 then Err(TooShort)
    else
      var magic :- ReadString(data, 0);
      if magic.0 != "nix-archive-1" then Err(BadMagic)
      else
        var node :- ReadNode(data, magic.1);
        if node.1 != |data| then Err(TrailingBytes) else Ok(node.0)
  }

  lemma {:induction false} WritableSnoc(es: seq<Entry>, e: Entry)
    requires WritableEntries(es) && WritableEntries([e])
    ensures WritableEntries(es + [e])
  {
    if es == [] {
      assert es + [e] == [e];
    } else {
      assert (es + [e])[1..] == es[1..] + [e];
      WritableSnoc(es[1..], e);
    }
  }

  // ---------------------------------------------------- what stands in the data

  predicate At(data: Bytes, off: nat, chunk: Bytes) {
    off + |chunk| <= |data| && data[off..off + |chunk|] == chunk
  }

  /** The tokens stand in the data one behind the other, from `off` up to `stop`. */
  predicate Holds(data: Bytes, off: nat, tokens: Tokens, stop: nat)
    decreases tokens
  {
    match tokens
    case End => off == stop
    case More(head, tail) =>
      && head.Valid()
      && At(data, off, Frame(head.Body()))
      && Holds(data, off + FrameSize(|head.Body()|), tail, stop)
  }

  lemma {:induction false} BytesHold(data: Bytes, off: nat, tokens: Tokens)
    requires tokens.Valid() && At(data, off, tokens.Stream())
    ensures Holds(data, off, tokens, off + |tokens.Stream()|)
    decreases tokens
  {
    if tokens.More? {
      var f := Frame(tokens.head.Body());
      var rest := tokens.tail.Stream();
      var s := data[off..off + |tokens.Stream()|];
      assert s[..|f|] == f && s[|f|..] == rest;
      assert data[off..off + |f|] == f;
      assert data[off + |f|..off + |f| + |rest|] == rest;
      BytesHold(data, off + |f|, tokens.tail);
    }
  }

  lemma ReadTokenAt(data: Bytes, off: nat, body: Bytes)
    requires |body| < U64_LIMIT && At(data, off, Frame(body))
    ensures ReadToken(data, off) == Ok((body, off + FrameSize(|body|)))
  {
    AtParts(data, off, LittleEndian(|body|, 8), body, Zeros(Pad(|body|)));
    assert Slice(data, off + 8, off + 8 + |body|) == data[off + 8..off + 8 + |body|];
    U64Fits(|body|);
    UnsignedOfLittleEndian(|body|, 8);
  }

  lemma AtParts(data: Bytes, off: nat, a: Bytes, b: Bytes, c: Bytes)
    requires At(data, off, a + b + c)
    ensures off + |a| + |b| <= |data|
    ensures data[off..off + |a|] == a
    ensures data[off + |a|..off + |a| + |b|] == b
  {
    var f := a + b + c;
    assert f[..|a|] == a && f[|a|..|a| + |b|] == b;
    assert forall i | 0 <= i < |f| :: data[off + i] == f[i];
  }

  /** Peels one token off a run of tokens. */
  lemma Next(data: Bytes, off: nat, tokens: Tokens, stop: nat) returns (next: nat)
    requires tokens.More? && Holds(data, off, tokens, stop)
    ensures ReadToken(data, off) == Ok((tokens.head.Body(), next))
    ensures next == off + FrameSize(|tokens.head.Body()|)
    ensures tokens.head.Text? ==>
              && ReadString(data, off) == Ok((tokens.head.text, next))
              && Expect(data, off, tokens.head.text) == Ok(next)
    ensures Holds(data, next, tokens.tail, stop)
  {
    ReadTokenAt(data, off, tokens.head.Body());
    next := off + FrameSize(|tokens.head.Body()|);
    if tokens.head.Text? {
      DecodeOfEncode(tokens.head.text);
    }
  }

  // ------------------------------------------------------------- the round trip

  lemma ReadHeaderBack(kind: string, rest: Tokens, data: Bytes, off: nat, stop: nat)
    returns (o1: nat, o2: nat, end: nat)
    requires Holds(data, off, Header(kind, rest), stop)
    ensures Expect(data, off, "(") == Ok(o1)
    ensures Expect(data, o1, "type") == Ok(o2)
    ensures ReadString(data, o2) == Ok((kind, end))
    ensures Holds(data, end, rest, stop)
  {
    var tokens := Header(kind, rest);
    o1 := Next(data, off, tokens, stop);
    o2 := Next(data, o1, tokens.tail, stop);
    end := Next(data, o2, tokens.tail.tail, stop);
  }

  lemma ReadFileBack(contents: Bytes, executable: bool, rest: Tokens, data: Bytes, off: nat, stop: nat)
    returns (o1: nat, o2: nat, end: nat)
    requires Holds(data, off, FileBody(contents, executable, rest), stop)
    ensures ReadAttributes(data, off, false) == Ok((executable, o1))
    ensures ReadToken(data, o1) == Ok((contents, o2))
    ensures Expect(data, o2, ")") == Ok(end)
    ensures Holds(data, end, rest, stop)
  {
    var tokens := FileBody(contents, executable, rest);
    var o := off;
    if executable {
      o := Next(data, o, tokens, stop);
      o := Next(data, o, tokens.tail, stop);
      tokens := tokens.tail.tail;
    }
    o1 := Next(data, o, tokens, stop);
    assert ReadAttributes(data, o, executable) == Ok((executable, o1));
    o2 := Next(data, o1, tokens.tail, stop);
    end := Next(data, o2, tokens.tail.tail, stop);
  }

  lemma {:induction false} ReadNodeBack(t: Node, rest: Tokens, data: Bytes, off: nat, stop: nat) returns (end: nat)
    requires Holds(data, off, NodeTokens(t, rest), stop)
    ensures ReadNode(data, off) == Ok((t, end))
    ensures Holds(data, end, rest, stop)
    decreases t, 1
  {
    match t
    case Directory(es) =>
      var o1, o2, o3 := ReadHeaderBack("directory", EntriesTokens(es, More(Text(")"), rest)), data, off, stop);
      end := ReadEntriesBack([], es, More(Text(")"), rest), data, o3, stop);
      assert [] + es == es;
    case Regular(contents, executable) =>
      var o1, o2, o3 := ReadHeaderBack("regular", FileBody(contents, executable, rest), data, off, stop);
      var o4, o5, o6 := ReadFileBack(contents, executable, rest, data, o3, stop);
      end := o6;
    case Symlink(target) =>
      end := ReadSymlinkBack(target, rest, data, off, stop);
  }

  lemma ReadSymlinkBack(target: string, rest: Tokens, data: Bytes, off: nat, stop: nat) returns (end: nat)
    requires Holds(data, off, NodeTokens(Symlink(target), rest), stop)
    ensures ReadNode(data, off) == Ok((Symlink(target), end))
    ensures Holds(data, end, rest, stop)
  {
    var tail := More(Text("target"), More(Text(target), More(Text(")"), rest)));
    var o1, o2, o3 := ReadHeaderBack("symlink", tail, data, off, stop);
    var o4 := Next(data, o3, tail, stop);
    var o5 := Next(data, o4, tail.tail, stop);
    end := Next(data, o5, tail.tail.tail, stop);
  }

  lemma MoveHead(a: seq<Entry>, b: seq<Entry>)
    requires b != []
    ensures a + [b[0]] + b[1..] == a + b
  {
  }

  /** One turn of the entry loop. */
  lemma ReadEntriesStep(acc: seq<Entry>, e: Entry, data: Bytes, off: nat, o1: nat, o2: nat)
    requires WritableEntries(acc)
    requires ReadString(data, off) == Ok(("entry", o1)) && ReadEntry(data, o1) == Ok((e, o2))
    ensures WritableEntries(acc + [e])
    ensures ReadEntries(data, off, acc) == ReadEntries(data, o2, acc + [e])
  {
    WritableSnoc(acc, e);
  }

  lemma {:induction false} ReadEntriesBack(acc: seq<Entry>, es: seq<Entry>, rest: Tokens, data: Bytes, off: nat, stop: nat)
    returns (end: nat)
    requires WritableEntries(acc) && rest.More? && rest.head == Text(")")
    requires Holds(data, off, EntriesTokens(es, rest), stop)
    ensures ReadEntries(data, off, acc) == Ok((acc + es, end))
    ensures Holds(data, end, rest.tail, stop)
    decreases es, 0
  {
    if es == [] {
      end := Next(data, off, rest, stop);
      assert acc + es == acc;
    } else {
      var o1, o2 := ReadEntryBack(es[0], EntriesTokens(es[1..], rest), data, off, stop);
      ReadEntriesStep(acc, es[0], data, off, o1, o2);
      end := ReadEntriesBack(acc + [es[0]], es[1..], rest, data, o2, stop);
      MoveHead(acc, es);
    }
  }

  lemma {:induction false} ReadEntryBack(e: Entry, rest: Tokens, data: Bytes, off: nat, stop: nat)
    returns (o1: nat, end: nat)
    requires Holds(data, off, EntryHeader(e.name, NodeTokens(e.node, More(Text(")"), rest))), stop)
    ensures ReadString(data, off) == Ok(("entry", o1))
    ensures ReadEntry(data, o1) == Ok((e, end))
    ensures Holds(data, end, rest, stop)
    decreases e, 0
  {
    var tokens := EntryHeader(e.name, NodeTokens(e.node, More(Text(")"), rest)));
    o1 := Next(data, off, tokens, stop);
    var o2 := Next(data, o1, tokens.tail, stop);
    var o3 := Next(data, o2, tokens.tail.tail, stop);
    var o4 := Next(data, o3, tokens.tail.tail.tail, stop);
    var o5 := Next(data, o4, tokens.tail.tail.tail.tail, stop);
    var o6 := ReadNodeBack(e.node, More(Text(")"), rest), data, o5, stop);
    end := Next(data, o6, More(Text(")"), rest), stop);
  }

  lemma ArchiveHolds(t: Node, trail: Bytes)
    requires Writable(t)
    ensures Holds(Archive(t) + trail, 0, ArchiveTokens(t), |Archive(t)|)
  {
    NodeTokensValid(t, End);
    StreamHolds(ArchiveTokens(t), trail);
  }

  lemma StreamHolds(tokens: Tokens, trail: Bytes)
    requires tokens.Valid()
    ensures Holds(tokens.Stream() + trail, 0, tokens, |tokens.Stream()|)
  {
    var stream := tokens.Stream();
    assert (stream + trail)[0..|stream|] == stream;
    BytesHold(stream + trail, 0, tokens);
  }

  /** Whatever bytes follow an archive, the reader finds its tree and stops at its end. */
  lemma ReadArchive(t: Node, trail: Bytes)
    requires Writable(t)
    ensures ReadString(Archive(t) + trail, 0) == Ok(("nix-archive-1", FrameSize(13)))
    ensures ReadNode(Archive(t) + trail, FrameSize(13)) == Ok((t, |Archive(t)|))
  {
    var data := Archive(t) + trail;
    var stop := |Archive(t)|;
    ArchiveHolds(t, trail);
    var o1 := Next(data, 0, ArchiveTokens(t), stop);
    assert o1 == FrameSize(13);
    var end := ReadNodeBack(t, End, data, o1, stop);
  }

  /** Parsing the archive of a tree gives the tree back. */
  lemma RoundTrip(t: Node)
    requires Writable(t)
    ensures ParseNar(Archive(t)) == Ok(t)
  {
    ReadArchive(t, []);
    assert Archive(t) + [] == Archive(t);
  }

  /** Archives are prefix-free: equal streams start with the same tree, so writing is injective. */
  lemma PrefixFree(t: Node, u: Node, x: Bytes, y: Bytes)
    requires Writable(t) && Writable(u)
    requires Archive(t) + x == Archive(u) + y
    ensures t == u && x == y
  {
    ReadArchive(t, x);
    ReadArchive(u, y);
    assert x == (Archive(t) + x)[|Archive(t)|..];
    assert y == (Archive(u) + y)[|Archive(u)|..];
  }

  /** Whatever bytes the parser accepts, archiving its answer and parsing again changes nothing. */
  lemma ReparseStable(data: Bytes)
    requires ParseNar(data).Ok?
    ensures ParseNar(Archive(ParseNar(data).value)) == ParseNar(data)
  {
    RoundTrip(ParseNar(data).value);
  }
}
