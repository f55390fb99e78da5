/** The Nix Archive (NAR) format: padded tokens, trees, and the archive of a tree. */
module NarFormat {

  type Byte = b: int | 0 <= b < 256
  type Bytes = seq<Byte>

  datatype Error =
    | StructError        // fewer than eight bytes left for a length
    | NotAscii           // a string outside ASCII, read or written
    | TooShort
    | BadMagic
    | Unexpected         // another token than the one the format asks for
    | TrailingBytes

  datatype Result<+T> = Ok(value: T) | Err(error: Error) {
    predicate IsFailure() { Err? }
    function PropagateFailure<U>(): Result<U>
      requires Err?
    {
      Err(error)
    }
    function Extract(): T
      requires Ok?
    {
      value
    }
  }

  datatype Entry = Entry(name: string, node: Node)

  datatype Node =
    | Directory(entries: seq<Entry>)
    | Regular(contents: Bytes, executable: bool)
    | Symlink(target: string)

  // ---------------------------------------------------------------- integers

  const U64_LIMIT := 0x1_0000_0000_0000_0000

  function LittleEndian(n: nat, width: nat): (r: Bytes)
    ensures |r| == width
  {
    if width == 0 then [] else [n % 256] + LittleEndian(n / 256, width - 1)
  }

  function Unsigned(b: Bytes): (n: nat) {
    if b == [] then 0 else b[0] + 256 * Unsigned(b[1..])
  }

  /** `n` is written without loss in `width` bytes. */
  predicate Fits(n: nat, width: nat) {
    if width == 0 then n == 0 else Fits(n / 256, width - 1)
  }

  lemma {:induction false} UnsignedOfLittleEndian(n: nat, width: nat)
    requires Fits(n, width)
    ensures Unsigned(LittleEndian(n, width)) == n
  {
    if width > 0 {
      UnsignedOfLittleEndian(n / 256, width - 1);
      assert LittleEndian(n, width)[1..] == LittleEndian(n / 256, width - 1);
    }
  }

  lemma U64Fits(n: nat)
    requires n < U64_LIMIT
    ensures Fits(n, 8)
  {
    var n1 := n / 256;
    var n2 := n1 / 256;
    var n3 := n2 / 256;
    var n4 := n3 / 256;
    var n5 := n4 / 256;
    var n6 := n5 / 256;
    var n7 := n6 / 256;
    assert n7 / 256 == 0;
    assert Fits(n7, 1);
    assert Fits(n6, 2);
    assert Fits(n5, 3);
    assert Fits(n4, 4);
    assert Fits(n3, 5);
    assert Fits(n2, 6);
    assert Fits(n1, 7);
  }

  /** The value `width` bytes can hold at most. */
  function Limit(width: nat): (n: nat) {
    if width == 0 then 1 else 256 * Limit(width - 1)
  }

  lemma {:induction false} UnsignedBelow(b: Bytes)
    ensures Unsigned(b) < Limit(|b|)
  {
    if b != [] {
      UnsignedBelow(b[1..]);
    }
  }

  lemma LimitOfEight()
    ensures Limit(8) == U64_LIMIT
  {
    assert Limit(4) == 0x1_0000_0000;
    assert Limit(6) == 0x1_0000_0000_0000;
  }

  // ----------------------------------------------------------------- strings

  predicate Ascii(s: string) {
    forall i | 0 <= i < |s| :: s[i] as int < 128
  }

  function Encode(s: string): (r: Bytes)
    requires Ascii(s)
  {
    seq(|s|, i requires 0 <= i < |s| => s[i] as int)
  }

  predicate AsciiBytes(b: Bytes) {
    forall i | 0 <= i < |b| :: b[i] < 128
  }

  function Decode(b: Bytes): (r: Result<string>)
    ensures r.Ok? ==> Ascii(r.value) && |r.value| == |b|
  {
    if AsciiBytes(b) then
      Ok(seq(|b|, i requires 0 <= i < |b| => b[i] as char))
    else
      Err(NotAscii)
  }

  lemma DecodeOfEncode(s: string)
    requires Ascii(s)
    ensures Decode(Encode(s)) == Ok(s)
  {
    assert Decode(Encode(s)).value == s;
  }

  // ------------------------------------------------------------------ tokens

  /** The zero bytes that align `n` bytes to eight. */
  function Pad(n: nat): (p: nat)
    ensures p < 8 && (n + p) % 8 == 0
  {
    (8 - n % 8) % 8
  }

  function Zeros(n: nat): (r: Bytes) {
    seq(n, _ => 0)
  }

  function FrameSize(n: nat): (r: nat) {
    8 + n + Pad(n)
  }

  /** One token: its length, its body, and the padding. */
  function Frame(body: Bytes): (r: Bytes)
    ensures |r| == FrameSize(|body|)
  {
    LittleEndian(|body|, 8) + body + Zeros(Pad(|body|))
  }

  /** What a token carries: a string of the format, or the bytes of a file. */
  datatype Token = Text(text: string) | Data(data: Bytes) {
    predicate Valid() {
      match this
      case Text(s) => WritableString(s)
      case Data(b) => |b| < U64_LIMIT
    }

    function Body(): (r: Bytes)
      requires Valid()
      ensures |r| < U64_LIMIT
    {
      match this
      case Text(s) => Encode(s)
      case Data(b) => b
    }
  }

  datatype Tokens = End | More(head: Token, tail: Tokens) {
    predicate Valid() {
      More? ==> head.Valid() && tail.Valid()
    }

    function Stream(): (r: Bytes)
      requires Valid()
    {
      if End? then [] else Frame(head.Body()) + tail.Stream()
    }
  }

  // ------------------------------------------------------------------- trees

  /** The tree can be written: ASCII names and targets, and lengths that fit their field. */
  predicate Writable(t: Node)
    decreases t, 1
  {
    match t
    case Directory(es) => WritableEntries(es)
    case Regular(contents, _) => |contents| < U64_LIMIT
    case Symlink(target) => WritableString(target)
  }

  predicate WritableEntries(es: seq<Entry>)
    decreases es, 0
  {
    es == [] || (WritableString(es[0].name) && Writable(es[0].node) && WritableEntries(es[1..]))
  }

  predicate WritableString(s: string) {
    Ascii(s) && |s| < U64_LIMIT
  }

  /** The tokens every node starts with. */
  function Header(kind: string, rest: Tokens): (r: Tokens) {
    More(Text("("), More(Text("type"), More(Text(kind), rest)))
  }

  function EntryHeader(name: string, rest: Tokens): (r: Tokens) {
    More(Text("entry"), More(Text("("), More(Text("name"), More(Text(name), More(Text("node"), rest)))))
  }

  function FileBody(contents: Bytes, executable: bool, rest: Tokens): (r: Tokens) {
    var body := More(Text("contents"), More(Data(contents), More(Text(")"), rest)));
    if executable then More(Text("executable"), More(Text(""), body)) else body
  }

  /** The tokens of a tree, with `rest` behind them. */
  function NodeTokens(t: Node, rest: Tokens): (r: Tokens)
    decreases t, 1
  {
    match t
    case Directory(es) => Header("directory", EntriesTokens(es, More(Text(")"), rest)))
    case Regular(contents, executable) => Header("regular", FileBody(contents, executable, rest))
    case Symlink(target) => Header("symlink", More(Text("target"), More(Text(target), More(Text(")"), rest))))
  }

  function EntriesTokens(es: seq<Entry>, rest: Tokens): (r: Tokens)
    decreases es, 0
  {
    if es == [] then rest
    else EntryHeader(es[0].name, NodeTokens(es[0].node, More(Text(")"), EntriesTokens(es[1..], rest))))
  }

  function ArchiveTokens(t: Node): (r: Tokens) {
    More(Text("nix-archive-1"), NodeTokens(t, End))
  }

  lemma HeaderValid(kind: string, rest: Tokens)
    ensures Header(kind, rest).Valid() <==> WritableString(kind) && rest.Valid()
  {
    assert Header(kind, rest).tail.tail.Valid() <==> WritableString(kind) && rest.Valid();
  }

  lemma EntryHeaderValid(name: string, rest: Tokens)
    ensures EntryHeader(name, rest).Valid() <==> WritableString(name) && rest.Valid()
  {
    var h := EntryHeader(name, rest);
    assert h.tail.tail.tail.tail.Valid() <==> rest.Valid();
    assert h.tail.tail.Valid() <==> WritableString(name) && rest.Valid();
  }

  lemma FileBodyValid(contents: Bytes, executable: bool, rest: Tokens)
    ensures FileBody(contents, executable, rest).Valid() <==> |contents| < U64_LIMIT && rest.Valid()
  {
    var body := More(Text("contents"), More(Data(contents), More(Text(")"), rest)));
    assert body.tail.Valid() <==> |contents| < U64_LIMIT && rest.Valid();
    assert body.Valid() <==> |contents| < U64_LIMIT && rest.Valid();
  }

  /** A run of tokens can be encoded exactly when its tree can be written. */
  lemma {:induction false} NodeTokensValid(t: Node, rest: Tokens)
    ensures NodeTokens(t, rest).Valid() <==> Writable(t) && rest.Valid()
    decreases t, 1
  {
    match t
    case Directory(es) =>
      EntriesTokensValid(es, More(Text(")"), rest));
      HeaderValid("directory", EntriesTokens(es, More(Text(")"), rest)));
    case Regular(contents, executable) =>
      FileBodyValid(contents, executable, rest);
      HeaderValid("regular", FileBody(contents, executable, rest));
    case Symlink(target) =>
      var body := More(Text("target"), More(Text(target), More(Text(")"), rest)));
      assert body.tail.Valid() <==> WritableString(target) && rest.Valid();
      HeaderValid("symlink", body);
  }

  lemma {:induction false} EntriesTokensValid(es: seq<Entry>, rest: Tokens)
    ensures EntriesTokens(es, rest).Valid() <==> WritableEntries(es) && rest.Valid()
    decreases es, 0
  {
    if es != [] {
      var tail := More(Text(")"), EntriesTokens(es[1..], rest));
      EntriesTokensValid(es[1..], rest);
      NodeTokensValid(es[0].node, tail);
      EntryHeaderValid(es[0].name, NodeTokens(es[0].node, tail));
    }
  }

  /** The archive of a tree. */
  function Archive(t: Node): (r: Bytes)
    requires Writable(t)
  {
    NodeTokensValid(t, End);
    ArchiveTokens(t).Stream()
  }
}
