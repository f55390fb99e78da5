/**
  The streaming forwarder: it copies tokens and counts parentheses to find the end of an archive,
  without parsing it. What it forwards does not depend on how the stream is cut into chunks, and
  the lemmas say for exactly which trees it stops at the end of the archive.
 */
module NarForwarding {
  import opened NarFormat
  import opened NarReader

  /** The parenthesis counter. */
  datatype Gate = Gate(depth: int, afterContents: bool, complete: bool)

  const START := Gate(0, false, false)

  /** `_update_depth`: what one token body does to the counter. */
  function Update(g: Gate, body: Bytes): (r: Gate) {
    if g.afterContents then g.(afterContents := false)
    else
      match Decode(body)
      case Err(_) => g
      case Ok(text) => UpdateText(g, text)
  }

  function UpdateText(g: Gate, text: string): (r: Gate) {
    if text == "(" then g.(depth := g.depth + 1)
    else if text == ")" then Gate(g.depth - 1, g.afterContents, g.complete || g.depth == 1)
    else if text == "contents" then g.(afterContents := true)
    else g
  }

  // -------------------------------------------- the stream, seen as a whole

  /** The size of the token at the head of the data, when all of it is there. */
  predicate Whole(data: Bytes) {
    |data| >= 8 && FrameSize(Unsigned(data[..8])) <= |data|
  }

  function HeadSize(data: Bytes): (n: nat)
    requires Whole(data)
    ensures 8 <= n <= |data|
  {
    FrameSize(Unsigned(data[..8]))
  }

  function HeadBody(data: Bytes): (b: Bytes)
    requires Whole(data)
  {
    data[8..8 + Unsigned(data[..8])]
  }

  datatype Outcome = Outcome(sent: Bytes, complete: bool)

  /** Everything forwarded from a stream, and whether the archive ended in it. */
  function Forward(data: Bytes, g: Gate): (r: Outcome)
    decreases |data|
  {
    if g.complete then Outcome([], true)
    else if !Whole(data) then Outcome([], false)
    else
      var n := HeadSize(data);
      Prepend(data[..n], Forward(data[n..], Update(g, HeadBody(data))))
  }

  function Prepend(sent: Bytes, o: Outcome): (r: Outcome) {
    Outcome(sent + o.sent, o.complete)
  }

  lemma PrependTwice(a: Bytes, b: Bytes, o: Outcome)
    ensures Prepend(a, Prepend(b, o)) == Prepend(a + b, o)
  {
  }

  lemma PrependNothing(o: Outcome)
    ensures Prepend([], o) == o
  {
  }

  /** A whole token is read the same way whatever follows it. */
  lemma WholeExtends(data: Bytes, more: Bytes)
    requires Whole(data)
    ensures Whole(data + more)
    ensures HeadSize(data + more) == HeadSize(data) && HeadBody(data + more) == HeadBody(data)
    ensures (data + more)[..HeadSize(data)] == data[..HeadSize(data)]
    ensures (data + more)[HeadSize(data)..] == data[HeadSize(data)..] + more
  {
    assert (data + more)[..8] == data[..8];
  }

  // ------------------------------------------------------------ the forwarder

  function Concat(chunks: seq<Bytes>): (r: Bytes) {
    if chunks == [] then [] else chunks[0] + Concat(chunks[1..])
  }

  lemma {:induction false} ConcatSnoc(chunks: seq<Bytes>, last: Bytes)
    ensures Concat(chunks + [last]) == Concat(chunks) + last
  {
    if chunks == [] {
      assert chunks + [last] == [last];
      assert Concat([last]) == last + Concat([]);
    } else {
      assert (chunks + [last])[1..] == chunks[1..] + [last];
      ConcatSnoc(chunks[1..], last);
    }
  }

  class NarForwarder {
    var buf: Bytes
    var depth: int
    var afterContents: bool
    var bodyLen: nat
    var inBody: bool
    var complete: bool

    ghost predicate Valid()
      reads this
    {
      inBody ==> |buf| >= 8 && bodyLen == Unsigned(buf[..8])
    }

    function State(): (g: Gate)
      reads this
    {
      Gate(depth, afterContents, complete)
    }

    constructor ()
      ensures Valid() && buf == [] && State() == START
    {
      buf, depth, afterContents, bodyLen, inBody, complete := [], 0, false, 0, false, false;
    }

    /** Takes one whole token off the buffer, or answers that none is there. */
    method ConsumeToken() returns (found: bool, token: Bytes)
      requires Valid()
      modifies `buf, `bodyLen, `inBody
      ensures Valid()
      ensures found == Whole(old(buf))
      ensures found ==> token == old(buf)[..HeadSize(old(buf))] && buf == old(buf)[HeadSize(old(buf))..]
      ensures found ==> bodyLen == Unsigned(old(buf)[..8]) && token[8..8 + bodyLen] == HeadBody(old(buf))
      ensures !found ==> buf == old(buf)
    {
      token := [];
      if !inBody {
        if |buf| < 8 {
          return false, token;
        }
        bodyLen := Unsigned(buf[..8]);
        inBody := true;
      }
      var need := FrameSize(bodyLen);
      if |buf| < need {
        return false, token;
      }
      token := buf[..need];
      buf := buf[need..];
      inBody := false;
      found := true;
    }

    method UpdateDepth(body: Bytes)
      modifies `depth, `afterContents, `complete
      ensures State() == Update(old(State()), body)
    {
      if afterContents {
        afterContents := false;
        return;
      }
      var decoded := Decode(body);
      if decoded.Err? { return; }
      if decoded.value == "(" {
        depth := depth + 1;
      } else if decoded.value == ")" {
        depth := depth - 1;
        if depth == 0 {
          complete := true;
        }
      } else if decoded.value == "contents" {
        afterContents := true;
      }
    }

    /**
      Takes a chunk and yields the whole tokens it completes. However the stream goes on with `x`,
      the tokens yielded now and the state left behind account for the stream so far.
     */
    method Feed(data: Bytes) returns (tokens: seq<Bytes>)
      requires Valid()
      modifies this
      ensures Valid()
      ensures old(complete) ==> tokens == [] && buf == old(buf) && State() == old(State())
      ensures forall x: Bytes :: Forward(old(buf) + data + x, old(State()))
                              == Prepend(Concat(tokens), Forward(buf + x, State()))
      ensures complete || !Whole(buf)
    {
      tokens := [];
      if complete {
        forall x: Bytes
          ensures Forward(old(buf) + data + x, old(State())) == Prepend(Concat(tokens), Forward(buf + x, State()))
        {
        }
        return;
      }
      buf := buf + data;
      assert inBody ==> buf[..8] == old(buf)[..8];
      while true
        invariant Valid() && !complete
        invariant forall x: Bytes :: Forward(old(buf) + data + x, old(State()))
                                  == Prepend(Concat(tokens), Forward(buf + x, State()))
        decreases |buf|
      {
        ghost var before, g, sent := buf, State(), tokens;
        var found, token := ConsumeToken();
        if !found { return; }
        tokens := tokens + [token];
        UpdateDepth(token[8..8 + bodyLen]);
        forall x: Bytes
          ensures Forward(old(buf) + data + x, old(State())) == Prepend(Concat(tokens), Forward(buf + x, State()))
        {
          WholeExtends(before, x);
          ConcatSnoc(sent, token);
          PrependTwice(Concat(sent), token, Forward(buf + x, State()));
        }
        if complete { return; }
      }
    }
  }

  /** Copies chunk after chunk until the archive is complete: the cuts between the chunks change nothing. */
  method ForwardNar(chunks: seq<Bytes>) returns (sent: Bytes, complete: bool)
    ensures Outcome(sent, complete) == Forward(Concat(chunks), START)
  {
    var forwarder := new NarForwarder();
    sent := [];
    var i := 0;
    ghost var rest := Concat(chunks);
    assert chunks[0..] == chunks && [] + rest == rest;
    PrependNothing(Forward(rest, START));
    while i < |chunks|
      invariant 0 <= i <= |chunks| && forwarder.Valid() && !forwarder.complete && fresh(forwarder)
      invariant rest == Concat(chunks[i..])
      invariant Forward(Concat(chunks), START) == Prepend(sent, Forward(forwarder.buf + rest, forwarder.State()))
      invariant !Whole(forwarder.buf)
    {
      ghost var buf, g, was := forwarder.buf, forwarder.State(), rest;
      var tokens := forwarder.Feed(chunks[i]);
      assert chunks[i..][1..] == chunks[i + 1..];
      rest := Concat(chunks[i + 1..]);
      assert buf + was == buf + chunks[i] + rest;
      PrependTwice(sent, Concat(tokens), Forward(forwarder.buf + rest, forwarder.State()));
      var more := Joined(tokens);
      sent := sent + more;
      i := i + 1;
      if forwarder.complete {
        return sent, true;
      }
    }
    assert forwarder.buf + rest == forwarder.buf;
    complete := false;
  }

  /** Writes the tokens out one by one. */
  method Joined(tokens: seq<Bytes>) returns (r: Bytes)
    ensures r == Concat(tokens)
  {
    r := [];
    for i := 0 to |tokens|
      invariant r == Concat(tokens[..i])
    {
      assert tokens[..i + 1] == tokens[..i] + [tokens[i]];
      ConcatSnoc(tokens[..i], tokens[i]);
      r := r + tokens[i];
    }
    assert tokens[..|tokens|] == tokens;
  }

  /** The size of the archive at the start of `data`, or an error when it does not end there. */
  method NarSize(data: Bytes) returns (size: Result<nat>)
    ensures var o := Forward(data, START);
            size == if o.complete then Ok(|o.sent|) else Err(TooShort)
  {
    var sent, complete := ForwardNar([data]);
    assert Concat([data]) == data + Concat([]) == data;
    size := if complete then Ok(|sent|) else Err(TooShort);
  }

  // ------------------------------------------------- the forwarder on tokens

  /** What one token does to the counter. */
  function Count(g: Gate, token: Token): (r: Gate) {
    if g.afterContents then g.(afterContents := false)
    else
      match token
      case Text(s) => UpdateText(g, s)
      case Data(b) => Update(g, b)
  }

  lemma CountIsUpdate(g: Gate, token: Token)
    requires token.Valid()
    ensures Update(g, token.Body()) == Count(g, token)
  {
    if token.Text? {
      DecodeOfEncode(token.text);
    }
  }

  /** The counter after the tokens up to the one that completes it, and the tokens behind that one. */
  function Scan(tokens: Tokens, g: Gate): (r: (Gate, Tokens))
    decreases tokens
  {
    if tokens.End? || g.complete then (g, tokens)
    else Scan(tokens.tail, Count(g, tokens.head))
  }

  lemma HeadOfFrame(body: Bytes, more: Bytes)
    requires |body| < U64_LIMIT
    ensures var data := Frame(body) + more;
            && Whole(data) && HeadSize(data) == FrameSize(|body|) && HeadBody(data) == body
  {
    var f := Frame(body);
    assert (f + more)[..8] == LittleEndian(|body|, 8);
    assert (f + more)[8..8 + |body|] == body;
    U64Fits(|body|);
    UnsignedOfLittleEndian(|body|, 8);
  }

  lemma HeadOfStream(tokens: Tokens, trail: Bytes)
    requires tokens.More? && tokens.Valid()
    ensures var data := tokens.Stream() + trail;
            && Whole(data) && HeadBody(data) == tokens.head.Body()
            && data[..HeadSize(data)] == Frame(tokens.head.Body())
            && data[HeadSize(data)..] == tokens.tail.Stream() + trail
  {
    var f := Frame(tokens.head.Body());
    var more := tokens.tail.Stream() + trail;
    assert tokens.Stream() + trail == f + more;
    HeadOfFrame(tokens.head.Body(), more);
  }

  /** Forwarding a stream of tokens sends exactly the tokens the scan passes. */
  lemma {:induction false} ForwardScan(tokens: Tokens, trail: Bytes, g: Gate) returns (sent: Bytes)
    requires tokens.Valid()
    ensures var (h, rest) := Scan(tokens, g);
            && rest.Valid() && sent + rest.Stream() == tokens.Stream()
            && Forward(tokens.Stream() + trail, g)
               == (if h.complete then Outcome(sent, true) else Prepend(sent, Forward(trail, h)))
            && (!h.complete ==> rest == End)
    decreases tokens
  {
    if tokens.End? || g.complete {
      sent := [];
      assert sent + tokens.Stream() == tokens.Stream();
      if tokens.End? {
        assert tokens.Stream() + trail == trail;
        PrependNothing(Forward(trail, g));
      }
    } else {
      HeadOfStream(tokens, trail);
      CountIsUpdate(g, tokens.head);
      var f := Frame(tokens.head.Body());
      var g' := Count(g, tokens.head);
      var tail := ForwardScan(tokens.tail, trail, g');
      sent := f + tail;
      var (h, rest) := Scan(tokens, g);
      assert sent + rest.Stream() == f + (tail + rest.Stream());
      if !h.complete {
        PrependTwice(f, tail, Forward(trail, h));
      }
    }
  }
}
