/**
 The handshake completes: for a client and a server whose TLS libraries follow the flights of
 TLS 1.3 (section 4 of RFC 9001), five delivered packets leave both sides established and joined.
 */
module Completion {
  import opened Wrappers
  import opened Bytes
  import opened Packets
  import opened Protection
  import opened Tls
  import opened Connections
  import opened Runs
  import Closing
  import Delivery
  import Egress
  import Frames
  import FrameLaws
  import Handshakes
  import ProtectionLaws
  import StreamLink

  /** What the two libraries say to each other, and the keys they derive. */
  datatype Script = Script(
    hello: Data,
    serverHello: Data,
    serverFlight: Data,
    finished: Data,
    tickets: Data,
    clientHandshake: Keys,
    clientRtt: Keys,
    serverHandshake: Keys,
    serverRtt: Keys)

  /** A client and a server that are about to meet. */
  datatype Setup = Setup(
    x: Script,
    clientTls: Oracle,
    serverTls: Oracle,
    clientInitial: Keys,
    serverInitial: Keys,
    dst: Data,
    src: Data)

  /** What happens to the client's library: it writes its ClientHello, reads the ServerHello and
      hands out handshake keys, reads the server's flight and answers with its Finished and 1-RTT
      keys. */
  function ClientHistory(x: Script): (h: History)
    ensures |h| == 7
  {
    [Write(INITIAL), Read(INITIAL, x.serverHello, true), Write(INITIAL), Write(HANDSHAKE),
     Read(HANDSHAKE, x.serverFlight, true), Write(HANDSHAKE), Write(APPDATA)]
  }

  function ServerHistory(x: Script): (h: History)
    ensures |h| == 5
  {
    [Read(INITIAL, x.hello, true), Write(INITIAL), Write(HANDSHAKE),
     Read(HANDSHAKE, x.finished, true), Write(HANDSHAKE)]
  }

  ghost predicate ClientFollows(o: Oracle, x: Script)
  {
    var h := ClientHistory(x);
    && o.output(h[..0]) == (x.hello, None)
    && o.accepts(h[..1], x.serverHello)
    && o.output(h[..2]) == ([], Some(HandshakeKeys(x.clientHandshake)))
    && o.output(h[..3]) == ([], None)
    && o.accepts(h[..4], x.serverFlight)
    && o.output(h[..5]) == (x.finished, Some(OneRttKeys(x.clientRtt)))
    && o.output(h[..6]) == ([], None)
  }

  ghost predicate ServerFollows(o: Oracle, x: Script)
  {
    var h := ServerHistory(x);
    && o.accepts(h[..0], x.hello)
    && o.output(h[..1]) == (x.serverHello, Some(HandshakeKeys(x.serverHandshake)))
    && o.output(h[..2]) == (x.serverFlight, Some(OneRttKeys(x.serverRtt)))
    && o.accepts(h[..3], x.finished)
    && o.output(h[..4]) == (x.tickets, None)
  }

  ghost predicate Matching(k: Keys, l: Keys)
  {
    Opens(k.local, l.remote) && Opens(l.local, k.remote)
  }

  /** Both libraries follow the script, at every level each side opens what the other seals, and
      the connection IDs have one length. */
  ghost predicate Agreed(u: Setup)
  {
    && HandsOutTwice(u.clientTls) && HandsOutTwice(u.serverTls)
    && ClientFollows(u.clientTls, u.x) && ServerFollows(u.serverTls, u.x)
    && u.x.serverHello != [] && u.x.serverFlight != [] && u.x.finished != []
    && Matching(u.clientInitial, u.serverInitial)
    && Matching(u.x.clientHandshake, u.x.serverHandshake)
    && Matching(u.x.clientRtt, u.x.serverRtt)
    && ProtectionLaws.Sized(u.clientInitial.local)
    && |u.dst| == |u.src| <= MAX_CID_LEN
  }

  // ------------------------------------------------------------ the states on the way

  function Client(u: Setup, n: nat, state: State, spaces: Per<Space>, pending: Data, offsets: Per<nat>): Conn
    requires n <= 7
  {
    Fresh(Side.Client, state, Session(u.clientTls, ClientHistory(u.x)[..n]), VERSION_1, u.dst, u.src).(
      spaces := spaces, pendingCrypto := Per([], pending, []), cryptoRecvOffset := offsets)
  }

  function Server(u: Setup, n: nat, state: State, spaces: Per<Space>, pending: Per<Data>, offsets: Per<nat>): Conn
    requires n <= 5
  {
    Fresh(Side.Server, state, Session(u.serverTls, ServerHistory(u.x)[..n]), VERSION_1, u.src, u.dst).(
      spaces := spaces, pendingCrypto := pending, cryptoRecvOffset := offsets)
  }

  /** The client after `connect`, after each of the server's three packets, and after its own two. */
  function C(u: Setup, i: nat): Conn
    requires i <= 5
  {
    var initial := Some(u.clientInitial);
    var handshake := Some(u.x.clientHandshake);
    var rtt := Some(u.x.clientRtt);
    var read := Per(|u.x.serverHello|, |u.x.serverFlight|, 0);
    if i == 0 then
      Client(u, 1, Connecting, Per(Space(initial, 1, 0, []), NEW_SPACE, NEW_SPACE), [], Per(0, 0, 0))
    else if i == 1 then
      Client(u, 4, Connecting, Per(Space(initial, 1, 0, [0]), Space(handshake, 0, 0, []), NEW_SPACE), [],
             Per(|u.x.serverHello|, 0, 0))
    else if i == 2 then
      Client(u, 7, Established, Per(Space(initial, 1, 0, [0]), Space(handshake, 0, 0, [0]),
                                    Space(rtt, 0, 0, [])), u.x.finished, read)
    else if i == 3 then
      Client(u, 7, Established, Per(Space(initial, 1, 0, [0]), Space(handshake, 0, 0, [0]),
                                    Space(rtt, 0, 0, [0])), u.x.finished, read)
    else if i == 4 then
      Client(u, 7, Established, Per(Space(initial, 2, 0, []), Space(handshake, 0, 0, [0]),
                                    Space(rtt, 0, 0, [0])), u.x.finished, read)
    else
      Client(u, 7, Established, Per(Space(initial, 2, 0, []), Space(handshake, 1, 0, []),
                                    Space(rtt, 0, 0, [0])), [], read)
  }

  /** The server after `accept`, after each of its three packets, and after the client's two. */
  function S(u: Setup, i: nat): Conn
    requires i <= 5
  {
    var initial := Some(u.serverInitial);
    var handshake := Some(u.x.serverHandshake);
    var rtt := Some(u.x.serverRtt);
    var read := Per(|u.x.hello|, 0, 0);
    if i == 0 then
      Server(u, 3, Handshaking, Per(Space(initial, 0, 0, [0]), Space(handshake, 0, 0, []),
                                    Space(rtt, 0, 0, [])),
             Per(u.x.serverHello, u.x.serverFlight, []), read)
    else if i == 1 then
      Server(u, 3, Handshaking, Per(Space(initial, 1, 0, []), Space(handshake, 0, 0, []),
                                    Space(rtt, 0, 0, [])), Per([], u.x.serverFlight, []), read)
    else if i == 2 then
      Server(u, 3, Handshaking, Per(Space(initial, 1, 0, []), Space(handshake, 1, 0, []),
                                    Space(rtt, 0, 0, [])), Per([], [], []), read)
    else if i == 3 then
      Server(u, 3, Established, Per(Space(initial, 1, 0, []), Space(handshake, 1, 0, []),
                                    Space(rtt, 1, 0, [])), Per([], [], []), read)
    else if i == 4 then
      Server(u, 3, Established, Per(Space(initial, 1, 1, [1]), Space(handshake, 1, 0, []),
                                    Space(rtt, 1, 0, [])), Per([], [], []), read)
    else
      Server(u, 5, Established, Per(Space(initial, 1, 1, [1]), Space(handshake, 1, 0, [0]),
                                    Space(rtt, 1, 0, [])), Per([], u.x.tickets, []),
             Per(|u.x.hello|, |u.x.finished|, 0))
  }

  // ------------------------------------------------------------ starting

  lemma ClientStarts(u: Setup)
    requires Agreed(u) && Connect(u.clientTls, u.clientInitial, u.dst, u.src).Ok?
    ensures Connect(u.clientTls, u.clientInitial, u.dst, u.src).value.0 == C(u, 0)
    ensures Handshakes.FirstHello(u.clientTls) == u.x.hello
  {
    hide FirstInitial, HandsOutTwice, Opens, ServerFollows;
    var h := ClientHistory(u.x);
    assert h[..0] == [] && h[..1] == [] + [Write(INITIAL)];
  }

  /** The server's library step by step. */
  lemma ServerSteps(o: Oracle, x: Script)
    requires ServerFollows(o, x)
    ensures var h := ServerHistory(x);
            && ReadHs(Session(o, []), INITIAL, x.hello) == (Session(o, h[..1]), true)
            && WriteHs(Session(o, h[..1]), INITIAL)
               == (Session(o, h[..2]), x.serverHello, Some(HandshakeKeys(x.serverHandshake)))
            && WriteHs(Session(o, h[..2]), HANDSHAKE)
               == (Session(o, h[..3]), x.serverFlight, Some(OneRttKeys(x.serverRtt)))
            && ReadHs(Session(o, h[..3]), HANDSHAKE, x.finished) == (Session(o, h[..4]), true)
            && WriteHs(Session(o, h[..4]), HANDSHAKE) == (Session(o, h[..5]), x.tickets, None)
  {
    var h := ServerHistory(x);
    assert h[..0] == [];
    assert forall i :: 0 <= i < 5 ==> h[..i + 1] == h[..i] + [h[i]];
  }

  /** The client's library step by step. */
  lemma ClientSteps(o: Oracle, x: Script)
    requires ClientFollows(o, x)
    ensures var h := ClientHistory(x);
            && ReadHs(Session(o, h[..1]), INITIAL, x.serverHello) == (Session(o, h[..2]), true)
            && WriteHs(Session(o, h[..2]), INITIAL)
               == (Session(o, h[..3]), [], Some(HandshakeKeys(x.clientHandshake)))
            && WriteHs(Session(o, h[..3]), HANDSHAKE) == (Session(o, h[..4]), [], None)
            && ReadHs(Session(o, h[..4]), HANDSHAKE, x.serverFlight) == (Session(o, h[..5]), true)
            && WriteHs(Session(o, h[..5]), HANDSHAKE)
               == (Session(o, h[..6]), x.finished, Some(OneRttKeys(x.clientRtt)))
            && WriteHs(Session(o, h[..6]), APPDATA) == (Session(o, h[..7]), [], None)
  {
    var h := ClientHistory(x);
    assert forall i :: 0 <= i < 7 ==> h[..i + 1] == h[..i] + [h[i]];
  }

  lemma ServerAnswer(u: Setup)
    requires ServerFollows(u.serverTls, u.x)
    ensures var tls := Session(u.serverTls, ServerHistory(u.x)[..1]);
            Handshakes.Answered(WithKeys(Fresh(Side.Server, Handshaking, tls, VERSION_1, u.src, u.dst),
                                         INITIAL, u.serverInitial), |u.x.hello|) == S(u, 0)
  {
    hide Handshakes.Answered, WithKeys, ReadHs, WriteHs, ServerHistory, ServerFollows;
    var tls := Session(u.serverTls, ServerHistory(u.x)[..1]);
    ServerSteps(u.serverTls, u.x);
    Handshakes.AnsweredShape(tls, VERSION_1, u.src, u.dst, u.serverInitial, |u.x.hello|);
    assert Recorded(Space(Some(u.serverInitial), 0, 0, []), 0).pendingAcks == [0];
    var a := Handshakes.Answered(WithKeys(Fresh(Side.Server, Handshaking, tls, VERSION_1, u.src, u.dst),
                                          INITIAL, u.serverInitial), |u.x.hello|);
    assert a.spaces == S(u, 0).spaces;
    assert a.tls == S(u, 0).tls;
    assert a.pendingCrypto == S(u, 0).pendingCrypto;
  }

  lemma ServerStarts(u: Setup, serverKeys: Data -> Keys)
    requires Agreed(u) && serverKeys(u.dst) == u.serverInitial
    requires Connect(u.clientTls, u.clientInitial, u.dst, u.src).Ok?
    ensures Accept(Connect(u.clientTls, u.clientInitial, u.dst, u.src).value.1, u.serverTls, serverKeys)
         == Ok(S(u, 0))
  {
    hide Connect, Accept, ClientFollows, Opens, HandsOutTwice, Handshakes.Answered, WithKeys, C, S, Fresh,
         Handshakes.FirstHello, ServerHistory;
    ClientStarts(u);
    ServerSteps(u.serverTls, u.x);
    ServerAnswer(u);
    Handshakes.AcceptOfConnect(u.clientTls, u.clientInitial, u.dst, u.src, u.serverTls, serverKeys);
  }

  // ------------------------------------------------------------ sending

  /** The frames of the server's three packets. */
  function ServerFrames(u: Setup, i: nat): seq<Frames.Frame>
    requires i < 3
  {
    if i == 0 then [Frames.Crypto(0, u.x.serverHello), AckFor([0])]
    else if i == 1 then [Frames.Crypto(0, u.x.serverFlight)]
    else [Frames.HandshakeDone]
  }

  lemma DepartsAt(c: Conn, level: Level)
    requires Ready(c, level) && forall l: Level :: l < level ==> !Ready(c, l)
    ensures Depart(c) == DepartAt(c, level)
  {
    hide Ready, Sealing;
  }

  /** The next packet of `c`, if it is sealed, carries these frames, and `d` is left behind. */
  ghost predicate Makes(c: Conn, d: Conn, level: Level, pn: nat, frames: seq<Frames.Frame>)
  {
    var (e, out) := Depart(c);
    && e == d && !out.Idle? && out.level == level && out.pn == pn && out.frames == frames
    && c.spaces.At(level).keys.Some? && (out.Sent? <==> Sealing(c, level).Ok?)
  }

  lemma FirstDeparts(u: Setup)
    requires u.x.serverHello != []
    ensures var c := S(u, 0);
            Ready(c, INITIAL) && Waiting(c, INITIAL) == ServerFrames(u, 0) && Taken(c, INITIAL) == S(u, 1)
  {
    hide AckFor;
  }

  lemma SecondDeparts(u: Setup)
    requires u.x.serverFlight != []
    ensures var c := S(u, 1);
            && !Ready(c, INITIAL) && Ready(c, HANDSHAKE)
            && Waiting(c, HANDSHAKE) == ServerFrames(u, 1) && Taken(c, HANDSHAKE) == S(u, 2)
  {
    hide AckFor;
  }

  lemma ThirdDeparts(u: Setup)
    ensures var c := S(u, 2);
            && !Ready(c, INITIAL) && !Ready(c, HANDSHAKE) && Ready(c, APPDATA)
            && Waiting(c, APPDATA) == ServerFrames(u, 2) && Taken(c, APPDATA) == S(u, 3)
  {
    hide AckFor;
  }

  /** The server makes its three packets one after the other. */
  lemma ServerDeparts(u: Setup, i: Level)
    requires Agreed(u)
    ensures Makes(S(u, i), S(u, i + 1), i, 0, ServerFrames(u, i))
  {
    hide Ready, Waiting, Sealing, Taken, ServerFrames, ClientFollows, ServerFollows, Opens, HandsOutTwice;
    FirstDeparts(u);
    SecondDeparts(u);
    ThirdDeparts(u);
    DepartsAt(S(u, i), i);
  }

  function ClientFrames(u: Setup, i: nat): seq<Frames.Frame>
    requires i < 2
  {
    if i == 0 then [AckFor([0])] else [Frames.Crypto(0, u.x.finished), AckFor([0])]
  }

  lemma AckDeparts(u: Setup)
    ensures var c := C(u, 3);
            Ready(c, INITIAL) && Waiting(c, INITIAL) == ClientFrames(u, 0) && Taken(c, INITIAL) == C(u, 4)
  {
    hide AckFor;
  }

  lemma FinishedDeparts(u: Setup)
    requires u.x.finished != []
    ensures var c := C(u, 4);
            && !Ready(c, INITIAL) && Ready(c, HANDSHAKE)
            && Waiting(c, HANDSHAKE) == ClientFrames(u, 1) && Taken(c, HANDSHAKE) == C(u, 5)
  {
    hide AckFor;
  }

  /** The client's two packets. */
  lemma ClientDeparts(u: Setup, i: Level)
    requires Agreed(u) && i < 2
    ensures Makes(C(u, 3 + i), C(u, 4 + i), i, 1 - i, ClientFrames(u, i))
  {
    hide Ready, Waiting, Sealing, Taken, ClientFrames, ClientFollows, ServerFollows, Opens, HandsOutTwice;
    AckDeparts(u);
    FinishedDeparts(u);
    DepartsAt(C(u, 3 + i), i);
  }

  // ------------------------------------------------------------ receiving

  /** A long packet delivered: its frames are processed, its padding does nothing. */
  lemma Delivers(a: Conn, b: Conn, d: Conn)
    requires a.state != State.Closed && b.state != State.Closed && Depart(a).1.Sent?
    requires var out := Depart(a).1;
             && (out.level != APPDATA || a.state != Established) && out.pn < 0x1_0000_0000
             && b.spaces.At(out.level).keys.Some?
             && Opens(a.spaces.At(out.level).keys.value.local, b.spaces.At(out.level).keys.value.remote)
             && ProcessFrames(Closing.Noted(b, Arrival(out.level, out.pn, [])), out.level, out.frames) == (d, Pass)
    requires a.version != 0 && |a.srcCid| <= MAX_CID_LEN && |a.dstCid| == |b.dstCid| <= MAX_CID_LEN
    ensures var packet := Depart(a).1.packet;
            SampleThere(b, packet) && Ingest(b, packet) == (d, Ok(|packet|))
  {
    hide Depart, Waiting, Receive, SampleThere, Opens, ProcessFrames, FrameLaws.Pads, Recorded;
    Delivery.NextPacketReceived(a, b);
    var out := Depart(a).1;
    var k :| Receive(b, out.packet) == Ok(Arrival(out.level, out.pn, out.frames + FrameLaws.Pads(k)));
    PaddedProcess(Closing.Noted(b, Arrival(out.level, out.pn, [])), out.level, out.frames, k);
  }

  lemma TwoFrames(c: Conn, level: Level, f: Frames.Frame, g: Frames.Frame)
    requires ProcessFrame(c, level, f).1.Pass?
    ensures ProcessFrames(c, level, [f, g])
         == ProcessFrames(ProcessFrame(c, level, f).0, level, [g])
  {
    hide ProcessFrame;
    assert [f, g][1..] == [g];
  }

  lemma OneFrame(c: Conn, level: Level, f: Frames.Frame)
    ensures ProcessFrame(c, level, f).1.Pass? ==>
              ProcessFrames(c, level, [f]) == (ProcessFrame(c, level, f).0, Pass)
    ensures f.Ack? ==> ProcessFrames(c, level, [f]) == (c, Pass)
  {
    assert [f][1..] == [];
  }

  /** A packet's number noted at a level. */
  function At(c: Conn, level: Level, pn: nat): Conn
  {
    Closing.Noted(c, Arrival(level, pn, []))
  }

  lemma HelloRead(u: Setup)
    requires ClientFollows(u.clientTls, u.x)
    ensures ProcessFrame(At(C(u, 0), INITIAL, 0), INITIAL, Frames.Crypto(0, u.x.serverHello))
         == (C(u, 1), Pass)
  {
    hide ReadHs, WriteHs, ClientHistory, ClientFollows;
    ClientSteps(u.clientTls, u.x);
    var c := At(C(u, 0), INITIAL, 0);
    var d := ProcessFrame(c, INITIAL, Frames.Crypto(0, u.x.serverHello)).0;
    assert c.spaces.initial.pendingAcks == [0];
    assert d.tls == C(u, 1).tls;
    assert d.spaces == C(u, 1).spaces;
    var none: Data := [];
    assert none + none == none;
    assert d.pendingCrypto == C(u, 1).pendingCrypto;
    assert d.cryptoRecvOffset == C(u, 1).cryptoRecvOffset;
  }

  lemma FlightRead(u: Setup)
    requires ClientFollows(u.clientTls, u.x)
    ensures ProcessFrame(At(C(u, 1), HANDSHAKE, 0), HANDSHAKE, Frames.Crypto(0, u.x.serverFlight))
         == (C(u, 2), Pass)
  {
    hide ReadHs, WriteHs, ClientHistory, ClientFollows;
    ClientSteps(u.clientTls, u.x);
    var c := At(C(u, 1), HANDSHAKE, 0);
    var d := ProcessFrame(c, HANDSHAKE, Frames.Crypto(0, u.x.serverFlight)).0;
    assert c.spaces.handshake.pendingAcks == [0];
    assert [] + u.x.finished == u.x.finished;
    assert d.tls == C(u, 2).tls;
    assert d.spaces == C(u, 2).spaces;
    assert d.pendingCrypto == C(u, 2).pendingCrypto;
    assert d.cryptoRecvOffset == C(u, 2).cryptoRecvOffset;
  }

  lemma DoneRead(u: Setup)
    ensures ProcessFrame(At(C(u, 2), APPDATA, 0), APPDATA, Frames.HandshakeDone) == (C(u, 3), Pass)
  {
    var c := At(C(u, 2), APPDATA, 0);
    assert c.spaces.appdata.pendingAcks == [0];
  }

  lemma AckRead(u: Setup)
    ensures At(S(u, 3), INITIAL, 1) == S(u, 4)
  {
    assert At(S(u, 3), INITIAL, 1).spaces.initial.pendingAcks == [1];
  }

  lemma FinishedRead(u: Setup)
    requires ServerFollows(u.serverTls, u.x)
    ensures ProcessFrame(At(S(u, 4), HANDSHAKE, 0), HANDSHAKE, Frames.Crypto(0, u.x.finished))
         == (S(u, 5), Pass)
  {
    hide ReadHs, WriteHs, ServerHistory, ServerFollows;
    ServerSteps(u.serverTls, u.x);
    var c := At(S(u, 4), HANDSHAKE, 0);
    var d := ProcessFrame(c, HANDSHAKE, Frames.Crypto(0, u.x.finished)).0;
    assert c.spaces.handshake.pendingAcks == [0];
    assert [] + u.x.tickets == u.x.tickets;
    assert d.tls == S(u, 5).tls;
    assert d.spaces == S(u, 5).spaces;
    assert d.pendingCrypto == S(u, 5).pendingCrypto;
    assert d.cryptoRecvOffset == S(u, 5).cryptoRecvOffset;
  }

  // ------------------------------------------------------------ all together

  lemma HelloDelivered(u: Setup)
    requires Agreed(u) && Depart(S(u, 0)).1.Sent?
    ensures var packet := Depart(S(u, 0)).1.packet;
            SampleThere(C(u, 0), packet) && Ingest(C(u, 0), packet) == (C(u, 1), Ok(|packet|))
  {
    hide Depart, ProcessFrame, ProcessFrames, Ingest, SampleThere, Opens, HandsOutTwice,
         ServerFollows, ClientFollows, AckFor, Sealing;
    ServerDeparts(u, 0);
    HelloRead(u);
    var c := At(C(u, 0), INITIAL, 0);
    TwoFrames(c, INITIAL, Frames.Crypto(0, u.x.serverHello), AckFor([0]));
    AckIgnored(C(u, 1), INITIAL);
    Delivers(S(u, 0), C(u, 0), C(u, 1));
  }

  lemma AckIgnored(c: Conn, level: Level)
    ensures ProcessFrames(c, level, [AckFor([0])]) == (c, Pass)
  {
    hide Max;
    OneFrame(c, level, AckFor([0]));
  }

  lemma FlightDelivered(u: Setup)
    requires Agreed(u) && Depart(S(u, 1)).1.Sent?
    ensures var packet := Depart(S(u, 1)).1.packet;
            SampleThere(C(u, 1), packet) && Ingest(C(u, 1), packet) == (C(u, 2), Ok(|packet|))
  {
    hide Depart, ProcessFrame, ProcessFrames, Ingest, SampleThere, Opens, HandsOutTwice,
         ServerFollows, ClientFollows, Sealing;
    ServerDeparts(u, 1);
    FlightRead(u);
    OneFrame(At(C(u, 1), HANDSHAKE, 0), HANDSHAKE, Frames.Crypto(0, u.x.serverFlight));
    Delivers(S(u, 1), C(u, 1), C(u, 2));
  }

  lemma DoneDelivered(u: Setup)
    requires Agreed(u) && Depart(S(u, 2)).1.Sent?
    ensures var packet := Depart(S(u, 2)).1.packet;
            SampleThere(C(u, 2), packet) && Ingest(C(u, 2), packet) == (C(u, 3), Ok(|packet|))
  {
    hide Depart, ProcessFrame, ProcessFrames, Ingest, SampleThere, Opens, HandsOutTwice,
         ServerFollows, ClientFollows, Sealing;
    ServerDeparts(u, 2);
    DoneRead(u);
    OneFrame(At(C(u, 2), APPDATA, 0), APPDATA, Frames.HandshakeDone);
    Delivers(S(u, 2), C(u, 2), C(u, 3));
  }

  lemma AckDelivered(u: Setup)
    requires Agreed(u) && Depart(C(u, 3)).1.Sent?
    ensures var packet := Depart(C(u, 3)).1.packet;
            SampleThere(S(u, 3), packet) && Ingest(S(u, 3), packet) == (S(u, 4), Ok(|packet|))
  {
    hide Depart, ProcessFrame, ProcessFrames, Ingest, SampleThere, Opens, HandsOutTwice,
         ServerFollows, ClientFollows, AckFor, Sealing;
    ClientDeparts(u, 0);
    AckRead(u);
    AckIgnored(S(u, 4), INITIAL);
    Delivers(C(u, 3), S(u, 3), S(u, 4));
  }

  lemma FinishedDelivered(u: Setup)
    requires Agreed(u) && Depart(C(u, 4)).1.Sent?
    ensures var packet := Depart(C(u, 4)).1.packet;
            SampleThere(S(u, 4), packet) && Ingest(S(u, 4), packet) == (S(u, 5), Ok(|packet|))
  {
    hide Depart, ProcessFrame, ProcessFrames, Ingest, SampleThere, Opens, HandsOutTwice,
         ServerFollows, ClientFollows, AckFor, Sealing;
    ClientDeparts(u, 1);
    FinishedRead(u);
    var c := At(S(u, 4), HANDSHAKE, 0);
    TwoFrames(c, HANDSHAKE, Frames.Crypto(0, u.x.finished), AckFor([0]));
    AckIgnored(S(u, 5), HANDSHAKE);
    Delivers(C(u, 4), S(u, 4), S(u, 5));
  }

  /** A client and a server, and whether all packets so far were sealed. */
  datatype Exchange = Exchange(client: Conn, server: Conn, sealed: bool)

  /** The server's next packet goes to the client. */
  function ToClient(e: Exchange): Exchange
  {
    var (server, out) := Depart(e.server);
    if out.Sent? then Exchange(Next(e.client, DoIngest(out.packet)), server, e.sealed)
    else Exchange(e.client, server, false)
  }

  /** The client's next packet goes to the server. */
  function ToServer(e: Exchange): Exchange
  {
    var (client, out) := Depart(e.client);
    if out.Sent? then Exchange(client, Next(e.server, DoIngest(out.packet)), e.sealed)
    else Exchange(client, e.server, false)
  }

  lemma ServerPacket(u: Setup, i: Level)
    requires Agreed(u)
    ensures var e := ToClient(Exchange(C(u, i), S(u, i), true));
            e.sealed ==> e == Exchange(C(u, i + 1), S(u, i + 1), true)
  {
    hide Depart, Ingest, SampleThere, C, S, Agreed;
    ServerDeparts(u, i);
    if Depart(S(u, i)).1.Sent? {
      Opened(u, i);
      if i == 0 { HelloDelivered(u); } else if i == 1 { FlightDelivered(u); } else { DoneDelivered(u); }
    }
  }

  lemma Opened(u: Setup, i: nat)
    requires i <= 5
    ensures C(u, i).state != State.Closed && S(u, i).state != State.Closed
  {
  }

  lemma ClientPacket(u: Setup, i: Level)
    requires Agreed(u) && i < 2
    ensures var e := ToServer(Exchange(C(u, 3 + i), S(u, 3 + i), true));
            e.sealed ==> e == Exchange(C(u, 4 + i), S(u, 4 + i), true)
  {
    hide Depart, Ingest, SampleThere, C, S, Agreed;
    ClientDeparts(u, i);
    if Depart(C(u, 3 + i)).1.Sent? {
      Opened(u, 3 + i);
      if i == 0 { AckDelivered(u); } else { FinishedDelivered(u); }
    }
  }

  /** The five packets in order. */
  function Flights(e: Exchange): Exchange
  {
    ToServer(ToServer(ToClient(ToClient(ToClient(e)))))
  }

  lemma SealedBefore(e: Exchange)
    ensures ToClient(e).sealed ==> e.sealed
    ensures ToServer(e).sealed ==> e.sealed
  {
    hide Depart, Next;
  }

  lemma FlightsEnd(u: Setup)
    requires Agreed(u)
    ensures var e := Flights(Exchange(C(u, 0), S(u, 0), true));
            e.sealed ==> e == Exchange(C(u, 5), S(u, 5), true)
  {
    hide ToClient, ToServer, C, S, Agreed;
    var e0 := Exchange(C(u, 0), S(u, 0), true);
    var e1 := ToClient(e0);
    var e2 := ToClient(e1);
    var e3 := ToClient(e2);
    var e4 := ToServer(e3);
    SealedBefore(e1);
    SealedBefore(e2);
    SealedBefore(e3);
    SealedBefore(e4);
    ServerPacket(u, 0);
    ServerPacket(u, 1);
    ServerPacket(u, 2);
    ClientPacket(u, 0);
    ClientPacket(u, 1);
  }

  lemma FirstEvents(x: Script)
    ensures forall l: Level :: Fed(ClientHistory(x)[..1], l) == []
    ensures forall l: Level :: Fed(ServerHistory(x)[..1], l) == (if l == INITIAL then x.hello else [])
  {
    var h, g := ClientHistory(x)[..1], ServerHistory(x)[..1];
    assert h == [Write(INITIAL)] && h[..0] == [];
    assert g == [Read(INITIAL, x.hello, true)] && g[..0] == [];
  }

  /** Both libraries handed out keys twice, and read the other's bytes and nothing else. */
  lemma ClientLog(u: Setup)
    requires ClientFollows(u.clientTls, u.x)
    ensures KeyChanges(C(u, 5).tls) >= 2
    ensures Fed(C(u, 5).tls.history, INITIAL) == u.x.serverHello
    ensures Fed(C(u, 5).tls.history, HANDSHAKE) == u.x.serverFlight
  {
    hide ReadHs, WriteHs, KeyChanges, Fed, ClientHistory, ServerHistory, ClientFollows;
    ClientSteps(u.clientTls, u.x);
    FirstEvents(u.x);
    var h, o := ClientHistory(u.x), u.clientTls;
    AfterRead(Session(o, h[..1]), INITIAL, u.x.serverHello);
    AfterWrite(Session(o, h[..2]), INITIAL);
    AfterWrite(Session(o, h[..3]), HANDSHAKE);
    AfterRead(Session(o, h[..4]), HANDSHAKE, u.x.serverFlight);
    AfterWrite(Session(o, h[..5]), HANDSHAKE);
    AfterWrite(Session(o, h[..6]), APPDATA);
    assert [] + u.x.serverHello + [] == u.x.serverHello && [] + [] + u.x.serverFlight == u.x.serverFlight;
  }

  lemma ServerLog(u: Setup)
    requires ServerFollows(u.serverTls, u.x)
    ensures KeyChanges(S(u, 5).tls) >= 2
    ensures Fed(S(u, 5).tls.history, INITIAL) == u.x.hello
    ensures Fed(S(u, 5).tls.history, HANDSHAKE) == u.x.finished
  {
    hide ReadHs, WriteHs, KeyChanges, Fed, ClientHistory, ServerHistory, ServerFollows;
    ServerSteps(u.serverTls, u.x);
    FirstEvents(u.x);
    var g, p := ServerHistory(u.x), u.serverTls;
    AfterWrite(Session(p, g[..1]), INITIAL);
    AfterWrite(Session(p, g[..2]), HANDSHAKE);
    AfterRead(Session(p, g[..3]), HANDSHAKE, u.x.finished);
    AfterWrite(Session(p, g[..4]), HANDSHAKE);
    assert u.x.hello + [] == u.x.hello && [] + u.x.finished == u.x.finished;
  }

  /** The two ends are joined in both directions. */
  lemma EndsJoined(u: Setup)
    requires Agreed(u)
    ensures var c, s := C(u, 5), S(u, 5);
            && c.state == Established && s.state == Established
            && StreamLink.Joined(c, s) && StreamLink.Expected(s, c.spaces.appdata.nextSendPn, 0)
            && StreamLink.Joined(s, c) && StreamLink.Expected(c, s.spaces.appdata.nextSendPn, 0)
  {
    hide KeyChanges, HandsOutTwice, Opens, ClientFollows, ServerFollows, ClientHistory, ServerHistory;
    ClientLog(u);
    ServerLog(u);
  }

  /** The handshake completes. A client connects, the server accepts its first packet, the
      server's three packets and the client's two are delivered in order, and all were sealed: then
      both sides are established and joined in both directions, so that the stream law applies, and
      each TLS library has read exactly the other's bytes. */
  lemma HandshakeCompletes(u: Setup, serverKeys: Data -> Keys)
    requires Agreed(u) && serverKeys(u.dst) == u.serverInitial
    requires Connect(u.clientTls, u.clientInitial, u.dst, u.src).Ok?
    ensures var (c0, first) := Connect(u.clientTls, u.clientInitial, u.dst, u.src).value;
            var accepted := Accept(first, u.serverTls, serverKeys);
            && accepted.Ok?
            && var e := Flights(Exchange(c0, accepted.value, true));
            (e.sealed ==>
               && e.client.state == Established && e.server.state == Established
               && StreamLink.Joined(e.client, e.server) && StreamLink.Joined(e.server, e.client)
               && StreamLink.Invariant(StreamLink.Start(e.client, e.server), 0)
               && StreamLink.Invariant(StreamLink.Start(e.server, e.client), 0)
               && Fed(e.client.tls.history, INITIAL) == u.x.serverHello
               && Fed(e.client.tls.history, HANDSHAKE) == u.x.serverFlight
               && Fed(e.server.tls.history, INITIAL) == u.x.hello
               && Fed(e.server.tls.history, HANDSHAKE) == u.x.finished)
  {
    hide Connect, Accept, Flights, StreamLink.Joined, StreamLink.Invariant, StreamLink.Expected, Fed,
         ClientFollows, ServerFollows, Opens, HandsOutTwice;
    ClientStarts(u);
    ServerStarts(u, serverKeys);
    FlightsEnd(u);
    EndsJoined(u);
    ClientLog(u);
    ServerLog(u);
    StreamLink.LinkStarts(C(u, 5), S(u, 5));
    StreamLink.LinkStarts(S(u, 5), C(u, 5));
  }

  // ------------------------------------------------------------ when the packets are sealed

  /** Ciphers that seal what they are given. */
  ghost predicate AllWilling(u: Setup)
  {
    && Egress.Willing(u.clientInitial.local) && Egress.Willing(u.serverInitial.local)
    && Egress.Willing(u.x.clientHandshake.local) && Egress.Willing(u.x.serverHandshake.local)
    && Egress.Willing(u.x.serverRtt.local)
  }

  /** The five packets can be encoded: a condition on the lengths of the libraries' flights. */
  predicate AllSendable(u: Setup)
  {
    && Egress.Sendable(S(u, 0), INITIAL) && Egress.Sendable(S(u, 1), HANDSHAKE)
    && Egress.Sendable(S(u, 2), APPDATA)
    && Egress.Sendable(C(u, 3), INITIAL) && Egress.Sendable(C(u, 4), HANDSHAKE)
  }

  lemma ServerSeals(u: Setup, i: Level)
    requires Agreed(u) && AllWilling(u)
    ensures ToClient(Exchange(C(u, i), S(u, i), true)).sealed <==> Egress.Sendable(S(u, i), i)
  {
    hide Depart, Next, Agreed, Egress.Sendable, Sealing, Egress.Willing, Waiting, Taken, ServerFrames;
    ServerDeparts(u, i);
    ServerKeyed(u, i);
    Egress.NextPacket(S(u, i), i);
    hide S, C, AllWilling;
  }

  lemma ServerKeyed(u: Setup, i: Level)
    requires AllWilling(u)
    ensures S(u, i).spaces.At(i).keys.Some? && Egress.Willing(S(u, i).spaces.At(i).keys.value.local)
  {
    hide Egress.Willing;
  }

  lemma ClientSeals(u: Setup, i: Level)
    requires Agreed(u) && AllWilling(u) && i < 2
    ensures ToServer(Exchange(C(u, 3 + i), S(u, 3 + i), true)).sealed <==> Egress.Sendable(C(u, 3 + i), i)
  {
    hide Depart, Next, Agreed, Egress.Sendable, Sealing, Egress.Willing, Waiting, Taken, ClientFrames;
    ClientDeparts(u, i);
    ClientKeyed(u, i);
    Egress.NextPacket(C(u, 3 + i), i);
    hide S, C, AllWilling;
  }

  lemma ClientKeyed(u: Setup, i: Level)
    requires AllWilling(u) && i < 2
    ensures var c := C(u, 3 + i);
            c.spaces.At(i).keys.Some? && Egress.Willing(c.spaces.At(i).keys.value.local)
  {
    hide Egress.Willing;
  }

  /** With such ciphers the five packets are all sealed exactly when they can be encoded. */
  lemma FlightsSealed(u: Setup)
    requires Agreed(u) && AllWilling(u)
    ensures Flights(Exchange(C(u, 0), S(u, 0), true)).sealed <==> AllSendable(u)
  {
    hide ToClient, ToServer, C, S, Agreed, AllWilling, Egress.Sendable;
    var e1 := ToClient(Exchange(C(u, 0), S(u, 0), true));
    var e2 := ToClient(e1);
    var e3 := ToClient(e2);
    var e4 := ToServer(e3);
    SealedBefore(e1);
    SealedBefore(e2);
    SealedBefore(e3);
    SealedBefore(e4);
    ServerSeals(u, 0);
    ServerSeals(u, 1);
    ServerSeals(u, 2);
    ClientSeals(u, 0);
    ClientSeals(u, 1);
    ServerPacket(u, 0);
    ServerPacket(u, 1);
    ServerPacket(u, 2);
    ClientPacket(u, 0);
  }

  // ------------------------------------------------------------ there are such libraries

  /** A client's library that does what the script says and nothing else. */
  function ScriptedClient(x: Script): Oracle
  {
    var h := ClientHistory(x);
    Oracle((g, d) => true,
           g => if g == [] then (x.hello, None)
                else if g == h[..2] then ([], Some(HandshakeKeys(x.clientHandshake)))
                else if g == h[..5] then (x.finished, Some(OneRttKeys(x.clientRtt)))
                else ([], None))
  }

  function ScriptedServer(x: Script): Oracle
  {
    var h := ServerHistory(x);
    Oracle((g, d) => true,
           g => if g == h[..1] then (x.serverHello, Some(HandshakeKeys(x.serverHandshake)))
                else if g == h[..2] then (x.serverFlight, Some(OneRttKeys(x.serverRtt)))
                else if g == h[..4] then (x.tickets, None)
                else ([], None))
  }

  lemma ScriptedFollow(x: Script)
    ensures ClientFollows(ScriptedClient(x), x) && ServerFollows(ScriptedServer(x), x)
  {
    var h, g := ClientHistory(x), ServerHistory(x);
    assert |h[..2]| == 2 && |h[..5]| == 5 && |h[..3]| == 3 && |h[..6]| == 6 && h[..0] == [];
    assert |g[..1]| == 1 && |g[..2]| == 2 && |g[..4]| == 4;
  }

  lemma ClientTwice(x: Script)
    ensures HandsOutTwice(ScriptedClient(x))
  {
    var o, h := ScriptedClient(x), ClientHistory(x);
    ScriptedFollow(x);
    ClientSteps(o, x);
    hide ReadHs, WriteHs, KeyChanges, ClientFollows, ServerFollows;
    FirstChange(o, x);
    AfterRead(Session(o, h[..1]), INITIAL, x.serverHello);
    AfterWrite(Session(o, h[..2]), INITIAL);
    AfterWrite(Session(o, h[..3]), HANDSHAKE);
    AfterRead(Session(o, h[..4]), HANDSHAKE, x.serverFlight);
    forall g: History | o.output(g).1.Some? ensures KeyChanges(Session(o, g)) < 2 {
      assert g == h[..2] || g == h[..5];
    }
  }

  lemma FirstChange(o: Oracle, x: Script)
    requires o.output([]).1.None?
    ensures KeyChanges(Session(o, ClientHistory(x)[..1])) == 0
  {
    var h := ClientHistory(x)[..1];
    assert h == [Write(INITIAL)] && h[..0] == [];
  }

  lemma ServerTwice(x: Script)
    ensures HandsOutTwice(ScriptedServer(x))
  {
    var o, h := ScriptedServer(x), ServerHistory(x);
    ScriptedFollow(x);
    ServerSteps(o, x);
    NothingYet(o);
    hide ReadHs, WriteHs, KeyChanges, ClientFollows, ServerFollows;
    AfterRead(Session(o, []), INITIAL, x.hello);
    AfterWrite(Session(o, h[..1]), INITIAL);
    forall g: History | o.output(g).1.Some? ensures KeyChanges(Session(o, g)) < 2 {
      assert g == h[..1] || g == h[..2];
    }
  }

  /** For any flights and any matching keys there are libraries that agree on them. */
  lemma AgreedPossible(x: Script, ci: Keys, si: Keys, dst: Data, src: Data)
    requires x.serverHello != [] && x.serverFlight != [] && x.finished != []
    requires Matching(ci, si) && Matching(x.clientHandshake, x.serverHandshake)
             && Matching(x.clientRtt, x.serverRtt)
    requires ProtectionLaws.Sized(ci.local) && |dst| == |src| <= MAX_CID_LEN
    ensures Agreed(Setup(x, ScriptedClient(x), ScriptedServer(x), ci, si, dst, src))
  {
    hide Opens, HandsOutTwice, ClientFollows, ServerFollows;
    ScriptedFollow(x);
    ClientTwice(x);
    ServerTwice(x);
  }
}
