/** The two halves of the daemon handshake, run against each other over two FIFO channels in any interleaving. */
module Handshake {
  import opened Features

  function Proto(major: nat, minor: nat): nat {
    major * 256 + minor
  }

  const MAGIC_1 := 0x6E697863
  const MAGIC_2 := 0x6478696F
  const MINIMUM_REMOTE := Proto(1, 32)
  const MINIMUM_CLIENT := Proto(1, 18)
  const SENDS_NIX_VERSION := Proto(1, 33)
  const SENDS_TRUST := Proto(1, 35)
  const FEATURE_EXCHANGE := Proto(1, 38)

  function Min(a: nat, b: nat): nat {
    if a <= b then a else b
  }

  /** A field on the wire. A read of one field where another was written is a misread. */
  datatype Field =
    | Magic(number: nat)
    | Version(version: nat)
    | Names(names: set<string>)
    | Cpu(flag: nat)
    | Affinity(mask: nat)
    | Reserve(flag: nat)
    | NixVersion(text: string)
    | Trust(level: nat)
    | Last

  /** The versions each half announces, and what each half names and speaks. */
  datatype Setup = Setup(clientVersion: nat, serverVersion: nat, clientNames: set<string>, serverNames: set<string>,
                         honourable: set<string>, nixVersion: string, trust: nat)

  datatype ClientPc =
    | SayHello | AwaitMagic | AwaitVersion | Announce | SendNames | AwaitNames | SendCpu | SendReserve
    | AwaitNixVersion | AwaitTrust | AwaitLast | Finished | Refused | Lost

  datatype Client = Client(pc: ClientPc, serverVersion: nat, version: nat, agreed: set<string>)

  datatype ServerPc =
    | ExpectHello | ReplyMagic | ReplyVersion | ExpectVersion | ExpectNames | ReplyNames | ExpectCpu | ExpectAffinity
    | ExpectReserve | ReplyNixVersion | ReplyTrust | ReplyLast | Served | Rejected | Astray

  datatype Server = Server(pc: ServerPc, clientVersion: nat, version: nat, agreed: set<string>, delegated: bool)

  datatype System = System(client: Client, server: Server, toServer: seq<Field>, toClient: seq<Field>)

  const START := System(Client(SayHello, 0, 0, {}), Server(ExpectHello, 0, 0, {}, false), [], [])

  // -------------------------------------------------------------- the client half

  predicate ClientReads(pc: ClientPc) {
    pc in {AwaitMagic, AwaitVersion, AwaitNames, AwaitNixVersion, AwaitTrust, AwaitLast}
  }

  predicate ClientStopped(pc: ClientPc) {
    pc in {Finished, Refused, Lost}
  }

  function AfterReserve(c: Client): ClientPc {
    if c.serverVersion >= SENDS_NIX_VERSION then AwaitNixVersion else AwaitLast
  }

  /** The client's next write, and the client after it. */
  function ClientWrite(p: Setup, c: Client): (r: (Field, Client))
    requires !ClientReads(c.pc) && !ClientStopped(c.pc)
  {
    match c.pc
    case SayHello => (Magic(MAGIC_1), c.(pc := AwaitMagic))
    case Announce =>
      (Version(p.clientVersion), c.(pc := if c.version >= FEATURE_EXCHANGE then SendNames else SendCpu))
    case SendNames => (Names(p.clientNames), c.(pc := AwaitNames))
    case SendCpu => (Cpu(0), c.(pc := SendReserve))
    case SendReserve => (Reserve(0), c.(pc := AfterReserve(c)))
  }

  /** The client after it read a field. */
  function ClientRead(p: Setup, c: Client, f: Field): (r: Client)
    requires ClientReads(c.pc)
  {
    match c.pc
    case AwaitMagic =>
      if !f.Magic? then c.(pc := Lost) else if f.number != MAGIC_2 then c.(pc := Refused) else c.(pc := AwaitVersion)
    case AwaitVersion =>
      if !f.Version? then c.(pc := Lost)
      else
        var version := Min(p.clientVersion, f.version);
        c.(serverVersion := f.version, version := version,
           pc := if version < MINIMUM_REMOTE then Refused else Announce)
    case AwaitNames =>
      if !f.Names? then c.(pc := Lost) else c.(agreed := f.names * (SUPPORTED + PYNIXD), pc := SendCpu)
    case AwaitNixVersion =>
      if !f.NixVersion? then c.(pc := Lost)
      else c.(pc := if c.serverVersion >= SENDS_TRUST then AwaitTrust else AwaitLast)
    case AwaitTrust => c.(pc := if f.Trust? then AwaitLast else Lost)
    case AwaitLast => c.(pc := if f.Last? then Finished else Lost)
  }

  // -------------------------------------------------------------- the server half

  predicate ServerReads(pc: ServerPc) {
    pc in {ExpectHello, ExpectVersion, ExpectNames, ExpectCpu, ExpectAffinity, ExpectReserve}
  }

  predicate ServerStopped(pc: ServerPc) {
    pc in {Served, Rejected, Astray}
  }

  function ServerWrite(p: Setup, s: Server): (r: (Field, Server))
    requires !ServerReads(s.pc) && !ServerStopped(s.pc)
  {
    match s.pc
    case ReplyMagic => (Magic(MAGIC_2), s.(pc := ReplyVersion))
    case ReplyVersion => (Version(p.serverVersion), s.(pc := ExpectVersion))
    case ReplyNames => (Names(p.serverNames), s.(pc := ExpectCpu))
    case ReplyNixVersion =>
      (NixVersion(p.nixVersion), s.(pc := if s.clientVersion >= SENDS_TRUST then ReplyTrust else ReplyLast))
    case ReplyTrust => (Trust(p.trust), s.(pc := ReplyLast))
    case ReplyLast => (Last, s.(pc := Served))
  }

  function ServerRead(p: Setup, s: Server, f: Field): (r: Server)
    requires ServerReads(s.pc)
  {
    match s.pc
    case ExpectHello =>
      if !f.Magic? then s.(pc := Astray) else if f.number != MAGIC_1 then s.(pc := Rejected) else s.(pc := ReplyMagic)
    case ExpectVersion =>
      if !f.Version? then s.(pc := Astray)
      else if f.version < MINIMUM_CLIENT then s.(clientVersion := f.version, pc := Rejected)
      else
        var version := Min(p.serverVersion, f.version);
        s.(clientVersion := f.version, version := version,
           pc := if version >= FEATURE_EXCHANGE then ExpectNames else ExpectCpu)
    case ExpectNames =>
      if !f.Names? then s.(pc := Astray)
      else s.(agreed := f.names * (p.honourable + PYNIXD), delegated := DELEGATION in f.names, pc := ReplyNames)
    case ExpectCpu =>
      if !f.Cpu? then s.(pc := Astray) else s.(pc := if f.flag != 0 then ExpectAffinity else ExpectReserve)
    case ExpectAffinity => s.(pc := if f.Affinity? then ExpectReserve else Astray)
    case ExpectReserve =>
      if !f.Reserve? then s.(pc := Astray)
      else s.(pc := if s.clientVersion >= SENDS_NIX_VERSION then ReplyNixVersion else ReplyLast)
  }

  // -------------------------------------------------------------- both together

  datatype Side = OfClient | OfServer

  /** The side can move: it writes, or the field it waits for is there. */
  predicate Enabled(y: System, side: Side) {
    match side
    case OfClient => !ClientStopped(y.client.pc) && (ClientReads(y.client.pc) ==> y.toClient != [])
    case OfServer => !ServerStopped(y.server.pc) && (ServerReads(y.server.pc) ==> y.toServer != [])
  }

  function ClientStep(p: Setup, y: System): (r: System)
    requires Enabled(y, OfClient)
  {
    if ClientReads(y.client.pc) then y.(client := ClientRead(p, y.client, y.toClient[0]), toClient := y.toClient[1..])
    else
      var (field, client) := ClientWrite(p, y.client);
      y.(client := client, toServer := y.toServer + [field])
  }

  function ServerStep(p: Setup, y: System): (r: System)
    requires Enabled(y, OfServer)
  {
    if ServerReads(y.server.pc) then y.(server := ServerRead(p, y.server, y.toServer[0]), toServer := y.toServer[1..])
    else
      var (field, server) := ServerWrite(p, y.server);
      y.(server := server, toClient := y.toClient + [field])
  }

  /** A side that waits stays where it is. */
  function Step(p: Setup, y: System, side: Side): (r: System) {
    if !Enabled(y, side) then y
    else if side == OfClient then ClientStep(p, y)
    else ServerStep(p, y)
  }

  function Run(p: Setup, y: System, schedule: seq<Side>): (r: System)
    decreases schedule
  {
    if schedule == [] then y else Run(p, Step(p, y, schedule[0]), schedule[1..])
  }

  // ------------------------------------------------------- where each half stands

  predicate Exchanges(p: Setup) {
    Min(p.clientVersion, p.serverVersion) >= FEATURE_EXCHANGE
  }

  predicate Accepted(p: Setup) {
    Min(p.clientVersion, p.serverVersion) >= MINIMUM_REMOTE
  }

  /** Each half tests the other's version; the tests must come out alike. */
  predicate TestsAgree(p: Setup) {
    && (p.clientVersion >= SENDS_NIX_VERSION <==> p.serverVersion >= SENDS_NIX_VERSION)
    && (p.clientVersion >= SENDS_TRUST <==> p.serverVersion >= SENDS_TRUST)
  }

  function One(b: bool): nat {
    if b then 1 else 0
  }

  /** The fields the client writes, by position. */
  ghost function ClientField(p: Setup, i: int): (f: Field) {
    if i == 0 then Magic(MAGIC_1)
    else if i == 1 then Version(p.clientVersion)
    else if i == 2 && Exchanges(p) then Names(p.clientNames)
    else if i == 2 + One(Exchanges(p)) then Cpu(0)
    else Reserve(0)
  }

  ghost function ServerField(p: Setup, i: int): (f: Field) {
    var n := 2 + One(Exchanges(p));
    if i == 0 then Magic(MAGIC_2)
    else if i == 1 then Version(p.serverVersion)
    else if i == 2 && Exchanges(p) then Names(p.serverNames)
    else if i == n && p.clientVersion >= SENDS_NIX_VERSION then NixVersion(p.nixVersion)
    else if i == n + 1 && p.clientVersion >= SENDS_TRUST then Trust(p.trust)
    else Last
  }

  /** How many fields the client has written at a point of its program. */
  ghost function ClientWrote(p: Setup, pc: ClientPc): (n: nat) {
    match pc
    case SayHello => 0
    case AwaitMagic | AwaitVersion | Announce | Refused => 1
    case SendNames => 2
    case AwaitNames => 3
    case SendCpu => 2 + One(Exchanges(p))
    case SendReserve => 3 + One(Exchanges(p))
    case _ => 4 + One(Exchanges(p))
  }

  ghost function ClientHasRead(p: Setup, pc: ClientPc): (n: nat) {
    var named := 2 + One(Exchanges(p));
    match pc
    case SayHello | AwaitMagic => 0
    case AwaitVersion => 1
    case Announce | SendNames | AwaitNames | Refused => 2
    case AwaitTrust => named + 1
    case AwaitLast => named + One(p.serverVersion >= SENDS_NIX_VERSION) + One(p.serverVersion >= SENDS_TRUST)
    case Finished => named + One(p.serverVersion >= SENDS_NIX_VERSION) + One(p.serverVersion >= SENDS_TRUST) + 1
    case _ => named
  }

  ghost function ServerWrote(p: Setup, pc: ServerPc): (n: nat) {
    var named := 2 + One(Exchanges(p));
    match pc
    case ExpectHello | ReplyMagic => 0
    case ReplyVersion => 1
    case ExpectVersion | ExpectNames | ReplyNames => 2
    case ReplyTrust => named + 1
    case ReplyLast => named + One(p.clientVersion >= SENDS_NIX_VERSION) + One(p.clientVersion >= SENDS_TRUST)
    case Served => named + One(p.clientVersion >= SENDS_NIX_VERSION) + One(p.clientVersion >= SENDS_TRUST) + 1
    case _ => named
  }

  ghost function ServerHasRead(p: Setup, pc: ServerPc): (n: nat) {
    match pc
    case ExpectHello => 0
    case ReplyMagic | ReplyVersion | ExpectVersion => 1
    case ExpectNames => 2
    case ReplyNames => 3
    case ExpectCpu => 2 + One(Exchanges(p))
    case ExpectReserve => 3 + One(Exchanges(p))
    case _ => 4 + One(Exchanges(p))
  }

  /** The channel to the server holds the client's fields from one position up to another. */
  ghost predicate Outgoing(p: Setup, channel: seq<Field>, from: int, upTo: int) {
    |channel| == upTo - from && forall k | 0 <= k < |channel| :: channel[k] == ClientField(p, from + k)
  }

  ghost predicate Incoming(p: Setup, channel: seq<Field>, from: int, upTo: int) {
    |channel| == upTo - from && forall k | 0 <= k < |channel| :: channel[k] == ServerField(p, from + k)
  }

  lemma OutgoingMoves(p: Setup, channel: seq<Field>, from: int, upTo: int)
    requires Outgoing(p, channel, from, upTo)
    ensures Outgoing(p, channel + [ClientField(p, upTo)], from, upTo + 1)
    ensures channel != [] ==> channel[0] == ClientField(p, from) && Outgoing(p, channel[1..], from + 1, upTo)
  {
  }

  lemma IncomingMoves(p: Setup, channel: seq<Field>, from: int, upTo: int)
    requires Incoming(p, channel, from, upTo)
    ensures Incoming(p, channel + [ServerField(p, upTo)], from, upTo + 1)
    ensures channel != [] ==> channel[0] == ServerField(p, from) && Incoming(p, channel[1..], from + 1, upTo)
  {
  }

  ghost predicate ClientKnows(p: Setup, c: Client) {
    && c.pc != Lost
    && (c.pc !in {SayHello, AwaitMagic, AwaitVersion} ==>
          c.serverVersion == p.serverVersion && c.version == Min(p.clientVersion, p.serverVersion))
    && (c.pc !in {SayHello, AwaitMagic, AwaitVersion, Refused} ==> Accepted(p))
    && (c.pc == Refused ==> !Accepted(p))
    && (c.pc in {SendNames, AwaitNames} ==> Exchanges(p))
    && (c.pc == AwaitNixVersion ==> p.serverVersion >= SENDS_NIX_VERSION)
    && (c.pc == AwaitTrust ==> p.serverVersion >= SENDS_TRUST && p.clientVersion >= SENDS_NIX_VERSION)
    && (c.pc == AwaitLast ==>
          && (p.serverVersion >= SENDS_NIX_VERSION ==> p.clientVersion >= SENDS_NIX_VERSION)
          && (p.serverVersion >= SENDS_TRUST ==> p.clientVersion >= SENDS_TRUST))
    && (c.pc == Finished ==> TestsAgree(p))
    && (c.pc in {SendCpu, SendReserve, AwaitNixVersion, AwaitTrust, AwaitLast, Finished} && Exchanges(p) ==>
          c.agreed == p.serverNames * (SUPPORTED + PYNIXD))
    && (!Exchanges(p) ==> c.agreed == {})
  }

  ghost predicate ServerKnows(p: Setup, s: Server) {
    && s.pc !in {ExpectAffinity, Rejected, Astray}
    && (s.pc !in {ExpectHello, ReplyMagic, ReplyVersion, ExpectVersion} ==>
          s.clientVersion == p.clientVersion && s.version == Min(p.clientVersion, p.serverVersion))
    && (s.pc in {ExpectNames, ReplyNames} ==> Exchanges(p))
    && (s.pc == ReplyNixVersion ==> p.clientVersion >= SENDS_NIX_VERSION)
    && (s.pc == ReplyTrust ==> p.clientVersion >= SENDS_TRUST)
    && (s.pc !in {ExpectHello, ReplyMagic, ReplyVersion, ExpectVersion, ExpectNames} && Exchanges(p) ==>
          && s.agreed == p.clientNames * (p.honourable + PYNIXD)
          && s.delegated == (DELEGATION in p.clientNames))
    && (!Exchanges(p) ==> s.agreed == {} && !s.delegated)
  }

  /** Each channel holds what one half wrote and the other has not read yet. */
  ghost predicate InStep(p: Setup, y: System) {
    && ClientKnows(p, y.client) && ServerKnows(p, y.server)
    && Outgoing(p, y.toServer, ServerHasRead(p, y.server.pc), ClientWrote(p, y.client.pc))
    && Incoming(p, y.toClient, ClientHasRead(p, y.client.pc), ServerWrote(p, y.server.pc))
  }

  ghost predicate Inv(p: Setup, y: System) {
    y.client.pc == Lost || InStep(p, y)
  }

  /** One write of the client: the next field of its list, one position on. */
  lemma ClientWrites(p: Setup, c: Client)
    requires ClientKnows(p, c) && !ClientReads(c.pc) && !ClientStopped(c.pc)
    ensures var (field, d) := ClientWrite(p, c);
            && field == ClientField(p, ClientWrote(p, c.pc)) && ClientKnows(p, d)
            && ClientWrote(p, d.pc) == ClientWrote(p, c.pc) + 1
            && ClientHasRead(p, d.pc) == ClientHasRead(p, c.pc)
  {
  }

  /** One read of the client: the next field of the server's list, or it is lost. */
  lemma ClientReadsNext(p: Setup, c: Client)
    requires ClientKnows(p, c) && ClientReads(c.pc)
    ensures var d := ClientRead(p, c, ServerField(p, ClientHasRead(p, c.pc)));
            && (TestsAgree(p) ==> d.pc != Lost)
            && (d.pc != Lost ==> && ClientKnows(p, d)
                                 && ClientHasRead(p, d.pc) == ClientHasRead(p, c.pc) + 1
                                 && ClientWrote(p, d.pc) == ClientWrote(p, c.pc))
  {
  }

  lemma ServerWrites(p: Setup, s: Server)
    requires ServerKnows(p, s) && !ServerReads(s.pc) && !ServerStopped(s.pc)
    ensures var (field, t) := ServerWrite(p, s);
            && field == ServerField(p, ServerWrote(p, s.pc)) && ServerKnows(p, t)
            && ServerWrote(p, t.pc) == ServerWrote(p, s.pc) + 1
            && ServerHasRead(p, t.pc) == ServerHasRead(p, s.pc)
  {
  }

  lemma ServerReadsNext(p: Setup, s: Server)
    requires ServerKnows(p, s) && ServerReads(s.pc) && (Accepted(p) || s.pc == ExpectHello)
    ensures var t := ServerRead(p, s, ClientField(p, ServerHasRead(p, s.pc)));
            && ServerKnows(p, t)
            && ServerHasRead(p, t.pc) == ServerHasRead(p, s.pc) + 1
            && ServerWrote(p, t.pc) == ServerWrote(p, s.pc)
  {
  }

  /** The reads and writes both halves have behind them. */
  ghost function Moves(p: Setup, y: System): (n: nat)
    ensures n <= 24
  {
    ClientWrote(p, y.client.pc) + ClientHasRead(p, y.client.pc)
    + ServerWrote(p, y.server.pc) + ServerHasRead(p, y.server.pc)
  }

  lemma ClientKeeps(p: Setup, y: System)
    requires InStep(p, y) && Enabled(y, OfClient)
    ensures Inv(p, ClientStep(p, y))
    ensures ClientStep(p, y).client.pc != Lost ==> Moves(p, ClientStep(p, y)) == Moves(p, y) + 1
    ensures TestsAgree(p) ==> ClientStep(p, y).client.pc != Lost
  {
    if ClientReads(y.client.pc) {
      IncomingMoves(p, y.toClient, ClientHasRead(p, y.client.pc), ServerWrote(p, y.server.pc));
      ClientReadsNext(p, y.client);
    } else {
      OutgoingMoves(p, y.toServer, ServerHasRead(p, y.server.pc), ClientWrote(p, y.client.pc));
      ClientWrites(p, y.client);
    }
  }

  lemma ServerKeeps(p: Setup, y: System)
    requires InStep(p, y) && Enabled(y, OfServer)
    ensures InStep(p, ServerStep(p, y)) && Moves(p, ServerStep(p, y)) == Moves(p, y) + 1
  {
    if ServerReads(y.server.pc) {
      OutgoingMoves(p, y.toServer, ServerHasRead(p, y.server.pc), ClientWrote(p, y.client.pc));
      assert Accepted(p) || y.server.pc == ExpectHello by {
        assert ClientWrote(p, y.client.pc) > ServerHasRead(p, y.server.pc);
      }
      ServerReadsNext(p, y.server);
    } else {
      IncomingMoves(p, y.toClient, ClientHasRead(p, y.client.pc), ServerWrote(p, y.server.pc));
      ServerWrites(p, y.server);
    }
  }

  lemma StepKeeps(p: Setup, y: System, side: Side)
    requires Inv(p, y)
    ensures Inv(p, Step(p, y, side))
    ensures TestsAgree(p) && y.client.pc != Lost ==> Step(p, y, side).client.pc != Lost
  {
    if Enabled(y, side) && y.client.pc != Lost {
      if side == OfClient {
        ClientKeeps(p, y);
      } else {
        ServerKeeps(p, y);
      }
    }
  }

  lemma {:induction false} RunKeeps(p: Setup, y: System, schedule: seq<Side>)
    requires Inv(p, y)
    ensures Inv(p, Run(p, y, schedule))
    ensures TestsAgree(p) && y.client.pc != Lost ==> Run(p, y, schedule).client.pc != Lost
    decreases schedule
  {
    if schedule != [] {
      StepKeeps(p, y, schedule[0]);
      RunKeeps(p, Step(p, y, schedule[0]), schedule[1..]);
    }
  }

  // ----------------------------------------------------------------- theorems

  /** Under every schedule: neither half reads a field the other did not write there. */
  lemma NeverMisreads(p: Setup, schedule: seq<Side>)
    requires TestsAgree(p)
    ensures var y := Run(p, START, schedule);
            y.client.pc != Lost && y.server.pc !in {Astray, Rejected, ExpectAffinity}
  {
    RunKeeps(p, START, schedule);
  }

  /** Under every schedule: while the client has not refused, some half can move until both have finished. */
  lemma NeverDeadlocks(p: Setup, schedule: seq<Side>)
    requires TestsAgree(p)
    ensures var y := Run(p, START, schedule);
            || Enabled(y, OfClient) || Enabled(y, OfServer)
            || (y.client.pc == Finished && y.server.pc == Served)
            || (y.client.pc == Refused && !Accepted(p))
  {
    RunKeeps(p, START, schedule);
    Progress(p, Run(p, START, schedule));
  }

  lemma Progress(p: Setup, y: System)
    requires InStep(p, y) && TestsAgree(p)
    ensures Enabled(y, OfClient) || Enabled(y, OfServer)
         || (y.client.pc == Finished && y.server.pc == Served) || y.client.pc == Refused
  {
  }

  /** What both halves hold once they finished, under whichever schedule got them there. */
  lemma FinishedAgree(p: Setup, schedule: seq<Side>)
    requires var y := Run(p, START, schedule); y.client.pc == Finished && y.server.pc == Served
    ensures var y := Run(p, START, schedule);
            && Accepted(p) && TestsAgree(p)
            && y.toServer == [] && y.toClient == []
            && y.client.version == y.server.version == Min(p.clientVersion, p.serverVersion)
            && y.client.agreed == (if Exchanges(p) then p.serverNames * (SUPPORTED + PYNIXD) else {})
            && y.server.agreed == (if Exchanges(p) then p.clientNames * (p.honourable + PYNIXD) else {})
            && y.server.delegated == (Exchanges(p) && DELEGATION in p.clientNames)
  {
    RunKeeps(p, START, schedule);
  }

  /** From every reachable state of an accepted session some schedule finishes both halves. */
  lemma CanFinish(p: Setup, y: System) returns (schedule: seq<Side>)
    requires InStep(p, y) && TestsAgree(p) && Accepted(p)
    ensures var z := Run(p, y, schedule); z.client.pc == Finished && z.server.pc == Served
    decreases 24 - Moves(p, y)
  {
    Progress(p, y);
    if !Enabled(y, OfClient) && !Enabled(y, OfServer) {
      schedule := [];
    } else {
      var side := if Enabled(y, OfClient) then OfClient else OfServer;
      if side == OfClient {
        ClientKeeps(p, y);
      } else {
        ServerKeeps(p, y);
      }
      var rest := CanFinish(p, Step(p, y, side));
      schedule := [side] + rest;
      assert schedule[1..] == rest;
    }
  }

  /** Each step of the schedule is taken by a side that can move. */
  predicate Busy(p: Setup, y: System, schedule: seq<Side>)
    decreases schedule
  {
    schedule != [] ==> Enabled(y, schedule[0]) && Busy(p, Step(p, y, schedule[0]), schedule[1..])
  }

  lemma {:induction false} BusyCounts(p: Setup, y: System, schedule: seq<Side>)
    requires InStep(p, y) && TestsAgree(p) && Busy(p, y, schedule)
    ensures InStep(p, Run(p, y, schedule)) && Moves(p, Run(p, y, schedule)) == Moves(p, y) + |schedule|
    decreases schedule
  {
    if schedule != [] {
      if schedule[0] == OfClient {
        ClientKeeps(p, y);
      } else {
        ServerKeeps(p, y);
      }
      BusyCounts(p, Step(p, y, schedule[0]), schedule[1..]);
    }
  }

  /**
    Every schedule of an accepted session, however it interleaves the two halves: it ends after at most 24 moves, and
    where it can go no further, both halves have finished.
   */
  lemma EveryScheduleFinishes(p: Setup, schedule: seq<Side>)
    requires Accepted(p) && TestsAgree(p) && Busy(p, START, schedule)
    ensures |schedule| <= 24
    ensures var y := Run(p, START, schedule);
            !Enabled(y, OfClient) && !Enabled(y, OfServer) <==> y.client.pc == Finished && y.server.pc == Served
  {
    BusyCounts(p, START, schedule);
    Progress(p, Run(p, START, schedule));
  }

  /** Two halves can finish the handshake exactly when the versions are new enough and the version tests agree. */
  lemma HandshakeIff(p: Setup)
    ensures (exists schedule ::
              var y := Run(p, START, schedule); y.client.pc == Finished && y.server.pc == Served)
       <==> Accepted(p) && TestsAgree(p)
  {
    if Accepted(p) && TestsAgree(p) {
      var schedule := CanFinish(p, START);
    }
    forall schedule | var y := Run(p, START, schedule); y.client.pc == Finished && y.server.pc == Served
      ensures Accepted(p) && TestsAgree(p)
    {
      FinishedAgree(p, schedule);
    }
  }

  /** The features of a finished session: the client's agreed set has `addTempRoots` on top of the server's, no more. */
  lemma SessionFeatures(p: Setup, schedule: seq<Side>, clientExt: set<string>, serverExt: set<string>, stores: seq<Store>)
    requires var y := Run(p, START, schedule); y.client.pc == Finished && y.server.pc == Served
    requires Exchanges(p) && serverExt !! SUPPORTED + PYNIXD
    requires p.clientNames == ClientFeatures(clientExt)
    requires forall name :: name in p.honourable <==> name in SUPPORTED && Offered(stores, name)
    requires forall name :: name in p.serverNames <==>
               name in serverExt + p.honourable + PYNIXD + {ADD_TEMP_ROOTS} || InMatrix(stores, name)
    ensures var y := Run(p, START, schedule);
            && y.server.agreed <= y.client.agreed
            && y.client.agreed - y.server.agreed <= {ADD_TEMP_ROOTS}
            && y.server.delegated
  {
    FinishedAgree(p, schedule);
    AgreedFeatures(clientExt, serverExt, stores, p.honourable, p.serverNames);
  }

  /** A client of 1.38 and a server of 1.34 disagree on the trust field, so no schedule finishes the client. */
  lemma OldServerFails(p: Setup, schedule: seq<Side>)
    requires p.clientVersion == Proto(1, 38) && p.serverVersion == Proto(1, 34)
    ensures Accepted(p) && Run(p, START, schedule).client.pc != Finished
  {
    RunKeeps(p, START, schedule);
  }
}
