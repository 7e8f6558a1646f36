/** How a client and a server start: the ClientHello goes over unchanged. */
module Handshakes {
  import opened Wrappers
  import opened Bytes
  import opened Packets
  import opened Protection
  import opened Tls
  import opened Connections
  import Frames
  import FrameLaws
  import PacketLaws
  import ProtectionLaws
  import HandshakeStreams

  lemma HelloRecoverable(hello: Data, k: nat)
    requires Frames.Writable(ClientHelloFrame(hello))
    ensures FrameLaws.ListRecoverable([ClientHelloFrame(hello)], Zeros(k))
  {
    assert [ClientHelloFrame(hello)][1..] == [];
  }

  lemma {:induction false} HelloInPads(k: nat)
    ensures HelloIn(FrameLaws.Pads(k)) == []
  {
    if k > 0 {
      assert FrameLaws.Pads(k)[1..] == FrameLaws.Pads(k - 1);
      HelloInPads(k - 1);
    }
  }

  lemma HelloAmongPads(hello: Data, k: nat)
    ensures HelloIn([ClientHelloFrame(hello)] + FrameLaws.Pads(k)) == hello
  {
    hide FrameLaws.Pads;
    assert ([ClientHelloFrame(hello)] + FrameLaws.Pads(k))[1..] == FrameLaws.Pads(k);
    HelloInPads(k);
  }

  /** What the client's TLS writes first. */
  function FirstHello(oracle: Oracle): Data
  {
    oracle.output([]).0
  }

  /** The server opens the client's first packet and finds the ClientHello in it, byte for byte:
      it accepts exactly when its TLS does, and then TLS has been fed that ClientHello. */
  lemma ClientHelloArrives(client: Oracle, keys: Keys, dst: Data, src: Data,
                           server: Oracle, serverKeys: Data -> Keys)
    requires ProtectionLaws.Sized(keys.local) && Opens(keys.local, serverKeys(dst).remote)
    requires |dst| <= MAX_CID_LEN && |src| <= MAX_CID_LEN
    requires Connect(client, keys, dst, src).Ok?
    ensures var hello := FirstHello(client);
            var r := Accept(Connect(client, keys, dst, src).value.1, server, serverKeys);
            && (r.Ok? <==> server.accepts([], hello))
            && (r.Err? ==> r == Err(TlsFailed))
            && (r.Ok? ==> HandshakeStreams.InStep(r.value, INITIAL, hello)
                          && r.value.cryptoRecvOffset == Per(|hello|, 0, 0)
                          && r.value.dstCid == src && r.value.srcCid == dst)
  {
    hide SealPacket, OpenLong, LongHeaderAt, PnOffsetLong, Fed, ServerHello,
         ProtectionLaws.PadCount, FrameLaws.ListRecoverable, HelloIn, FirstInitial, Pow256;
    var hello := FirstHello(client);
    var frames := [ClientHelloFrame(hello)];
    var k := ProtectionLaws.PadCount(keys.local, INITIAL, dst, src, frames, 1);
    ProtectionLaws.FirstInitialIsSealed(keys.local, dst, src, hello);
    FirstIsWritable(keys.local, dst, src, hello);
    HelloRecoverable(hello, k);
    PacketLaws.PowEven(1);
    ProtectionLaws.LongRoundTrip(keys.local, serverKeys(dst).remote, INITIAL, VERSION_1, dst, src,
                                 frames, 0, 1, false);
    HelloAmongPads(hello, k);
    if server.accepts([], hello) {
      AcceptFeeds(Connect(client, keys, dst, src).value.1, server, serverKeys);
    }
  }

  /** What `accept` makes of the client's first packet, outright. */
  lemma AcceptOfConnect(client: Oracle, keys: Keys, dst: Data, src: Data,
                        server: Oracle, serverKeys: Data -> Keys)
    requires ProtectionLaws.Sized(keys.local) && Opens(keys.local, serverKeys(dst).remote)
    requires |dst| <= MAX_CID_LEN && |src| <= MAX_CID_LEN
    requires Connect(client, keys, dst, src).Ok? && server.accepts([], FirstHello(client))
    ensures var hello := FirstHello(client);
            var tls := ReadHs(Session(server, []), INITIAL, hello).0;
            Accept(Connect(client, keys, dst, src).value.1, server, serverKeys)
            == Ok(Answered(WithKeys(Fresh(Server, Handshaking, tls, VERSION_1, src, dst), INITIAL,
                                    serverKeys(dst)), |hello|))
  {
    hide SealPacket, OpenLong, LongHeaderAt, PnOffsetLong, ServerHello, Recorded,
         ProtectionLaws.PadCount, FrameLaws.ListRecoverable, HelloIn, FirstInitial, Pow256;
    var hello := FirstHello(client);
    var frames := [ClientHelloFrame(hello)];
    var k := ProtectionLaws.PadCount(keys.local, INITIAL, dst, src, frames, 1);
    ProtectionLaws.FirstInitialIsSealed(keys.local, dst, src, hello);
    FirstIsWritable(keys.local, dst, src, hello);
    HelloRecoverable(hello, k);
    PacketLaws.PowEven(1);
    ProtectionLaws.LongRoundTrip(keys.local, serverKeys(dst).remote, INITIAL, VERSION_1, dst, src,
                                 frames, 0, 1, false);
    HelloAmongPads(hello, k);
  }

  lemma FirstIsWritable(keys: DirectionalKeys, dst: Data, src: Data, hello: Data)
    requires FirstInitial(keys, dst, src, hello).Ok?
    ensures Frames.Writable(ClientHelloFrame(hello))
  {
    hide SealLong;
  }

  /** Installing keys and buffering output leave alone what a connection was told. */
  ghost predicate SameIdentity(c: Conn, d: Conn)
  {
    d.dstCid == c.dstCid && d.srcCid == c.srcCid && d.version == c.version && d.side == c.side
    && d.state == c.state && d.pendingAppData == c.pendingAppData
  }

  lemma ServerHelloKeeps(c: Conn)
    ensures var d := ServerHello(c);
            SameIdentity(c, d) && (forall l: Level :: Fed(d.tls.history, l) == Fed(c.tls.history, l))
  {
    hide Fed, Per.At, Per.With;
    AfterWrite(c.tls, INITIAL);
    AfterWrite(WriteHs(c.tls, INITIAL).0, HANDSHAKE);
  }

  lemma ServerHelloConserves(c: Conn, l: Level)
    requires HandshakeStreams.Conserved(c, l, [])
    ensures HandshakeStreams.Conserved(ServerHello(c), l, [])
  {
    hide Written, Per.At, Per.With, Buffered, WriteHs;
    HandshakeStreams.WriteBuffered(c, INITIAL, l, []);
    var (tls1, data1, kc1) := WriteHs(c.tls, INITIAL);
    var c1 := Buffered(c.(tls := tls1), INITIAL, data1);
    if kc1.Some? {
      HandshakeStreams.WriteBuffered(WithKeys(c1, HANDSHAKE, kc1.value.keys), HANDSHAKE, l, []);
    }
  }

  /** A server once it has TLS's answer to the ClientHello. */
  ghost function Answered(c: Conn, helloLen: nat): Conn
  {
    var d := ServerHello(c);
    d.(spaces := d.spaces.With(INITIAL, Recorded(d.spaces.initial, 0)),
       cryptoRecvOffset := Per(helloLen, 0, 0))
  }

  /** The same, field by field. */
  lemma AnsweredShape(tls: Session, version: U32, dst: Data, src: Data, keys: Keys, helloLen: nat)
    ensures var c := Fresh(Server, Handshaking, tls, version, dst, src);
            var (tls1, data1, kc1) := WriteHs(tls, INITIAL);
            var (tls2, data2, kc2) := WriteHs(tls1, HANDSHAKE);
            var handshake := NEW_SPACE.(keys := KeysOf(kc1));
            var appdata := NEW_SPACE.(keys := if kc1.Some? then KeysOf(kc2) else None);
            Answered(WithKeys(c, INITIAL, keys), helloLen)
            == c.(tls := if kc1.Some? then tls2 else tls1,
                  spaces := Per(Recorded(Space(Some(keys), 0, 0, []), 0), handshake, appdata),
                  pendingCrypto := Per(data1, if kc1.Some? then data2 else [], []),
                  cryptoRecvOffset := Per(helloLen, 0, 0))
  {
    hide WriteHs, Recorded;
    var c := WithKeys(Fresh(Server, Handshaking, tls, version, dst, src), INITIAL, keys);
    var (tls1, data1, kc1) := WriteHs(tls, INITIAL);
    var (tls2, data2, kc2) := WriteHs(tls1, HANDSHAKE);
    var d := ServerHello(c);
    assert [] + data1 == data1 && [] + data2 == data2;
    assert d.spaces.initial == Space(Some(keys), 0, 0, []);
    assert d.spaces.handshake == NEW_SPACE.(keys := KeysOf(kc1));
    assert d.spaces.appdata == NEW_SPACE.(keys := if kc1.Some? then KeysOf(kc2) else None);
    assert d.pendingCrypto == Per(data1, if kc1.Some? then data2 else [], []);
  }

  /** An accepted connection: TLS was fed one ClientHello, and its output waits at the levels
      where TLS wrote it, none of it lost. */
  lemma AcceptFeeds(packet: Data, oracle: Oracle, serverKeys: Data -> Keys)
    requires Accept(packet, oracle, serverKeys).Ok?
    ensures var c := Accept(packet, oracle, serverKeys).value;
            && |Fed(c.tls.history, INITIAL)| == c.cryptoRecvOffset.initial
            && (forall l: Level :: HandshakeStreams.Conserved(c, l, []))
            && (forall l: Level :: l != INITIAL ==> HandshakeStreams.InStep(c, l, []))
            && c.side == Server && c.state == Handshaking && c.pendingAppData == []
            && LongHeaderAt(packet).Ok?
            && c.dstCid == LongHeaderAt(packet).value.0.srcCid
            && c.srcCid == LongHeaderAt(packet).value.0.dstCid
            && OpenLong(serverKeys(c.srcCid).remote, packet, PnOffsetLong(LongHeaderAt(packet).value.0)).Ok?
            && Fed(c.tls.history, INITIAL)
               == HelloIn(OpenLong(serverKeys(c.srcCid).remote, packet,
                                   PnOffsetLong(LongHeaderAt(packet).value.0)).value.1)
  {
    hide OpenLong, LongHeaderAt, PnOffsetLong, ServerHello, HelloIn, Fed, Written, Recorded;
    var h := LongHeaderAt(packet).value.0;
    var keys := serverKeys(h.dstCid);
    var hello := HelloIn(OpenLong(keys.remote, packet, PnOffsetLong(h)).value.1);
    NothingYet(oracle);
    AfterRead(Session(oracle, []), INITIAL, hello);
    var (tls, ok) := ReadHs(Session(oracle, []), INITIAL, hello);
    var c := WithKeys(Fresh(Server, Handshaking, tls, h.version, h.srcCid, h.dstCid), INITIAL, keys);
    ServerHelloKeeps(c);
    var d := Accept(packet, oracle, serverKeys).value;
    forall l: Level ensures HandshakeStreams.Conserved(d, l, []) {
      ServerHelloConserves(c, l);
      assert d.tls == ServerHello(c).tls && d.pendingCrypto == ServerHello(c).pendingCrypto;
    }
    forall l: Level | l != INITIAL ensures HandshakeStreams.InStep(d, l, []) {
      assert Fed(tls.history, l) == [] + [];
      assert d.cryptoRecvOffset.At(l) == 0;
    }
  }

  /** A new client: its ClientHello has been framed, and nothing else was written. */
  lemma ConnectConserves(oracle: Oracle, keys: Keys, dst: Data, src: Data)
    requires Connect(oracle, keys, dst, src).Ok?
    ensures var (c, packet) := Connect(oracle, keys, dst, src).value;
            && HandshakeStreams.Conserved(c, INITIAL, FirstHello(oracle))
            && (forall l: Level :: l != INITIAL ==> HandshakeStreams.Conserved(c, l, []))
            && (forall l: Level :: HandshakeStreams.InStep(c, l, []))
            && FirstInitial(keys.local, dst, src, FirstHello(oracle)) == Ok(packet)
            && c.side == Client && c.state == Connecting && c.spaces.appdata.keys.None?
  {
    hide FirstInitial, Fed, Written;
    NothingYet(oracle);
    AfterWrite(Session(oracle, []), INITIAL);
  }
}
