/** A client and a server under any delivery schedule: who is established holds 1-RTT keys. */
module TwoEndpoints {
  import opened Wrappers
  import opened Bytes
  import opened Protection
  import opened Tls
  import opened Connections
  import opened Runs
  import opened Integrity
  import Delivery
  import Frames
  import FrameLaws
  import Handshakes
  import KeyDiscipline
  import Lifecycle
  import PacketLaws
  import Packets
  import ProtectionLaws

  /** Both endpoints and all the AEAD calls that sealed the packets each has made. */
  datatype Pair = Pair(
    client: Conn,
    server: Conn,
    byClient: seq<SealCall>,
    byServer: seq<SealCall>)

  datatype Move = Move(side: Side, step: Step)

  /** The call that seals the next packet of a level. */
  function NextCall(c: Conn, level: Level): SealCall
    requires c.spaces.At(level).keys.Some?
  {
    var pn := c.spaces.At(level).nextSendPn;
    CallFor(c.spaces.At(level).keys.value.local, level, c.version, c.dstCid, c.srcCid,
            Waiting(c, level), pn, EncodedPnLen(pn), c.state == Established)
  }

  /** The calls behind the packets that one step makes. */
  function Calls(c: Conn, step: Step): seq<SealCall>
  {
    if step.DoEgest? && c.state != State.Closed && Depart(c).1.Sent?
    then [NextCall(c, Depart(c).1.level)] else []
  }

  /** No forgeries: the text that a datagram opens to is one that the peer sealed, at that level,
      with that packet number and that associated data. Loss, repetition, delay, reordering and any
      datagrams that do not open are all allowed. */
  predicate Authentic(c: Conn, step: Step, log: seq<SealCall>)
  {
    step.DoIngest? && step.buf != [] && SampleThere(c, step.buf) && Receive(c, step.buf).Ok? ==>
      CallOpened(c, step.buf) in log
  }

  predicate Fair(p: Pair, m: Move)
  {
    if m.side == Client then Authentic(p.client, m.step, p.byServer)
    else Authentic(p.server, m.step, p.byClient)
  }

  function Moved(p: Pair, m: Move): Pair
  {
    if m.side == Client
    then p.(client := Next(p.client, m.step), byClient := p.byClient + Calls(p.client, m.step))
    else p.(server := Next(p.server, m.step), byServer := p.byServer + Calls(p.server, m.step))
  }

  predicate AllFair(p: Pair, ms: seq<Move>)
    decreases |ms|
  {
    ms == [] || (Fair(p, ms[0]) && AllFair(Moved(p, ms[0]), ms[1..]))
  }

  function After(p: Pair, ms: seq<Move>): Pair
    decreases |ms|
  {
    if ms == [] then p else After(Moved(p, ms[0]), ms[1..])
  }

  // ------------------------------------------------------------ one endpoint

  predicate Keyed(c: Conn)
  {
    c.state == Established ==> c.spaces.appdata.keys.Some?
  }

  /** The only frame that can establish an endpoint without 1-RTT keys is a HANDSHAKE_DONE that
      reaches a client before it has them. */
  lemma FrameKeyed(c: Conn, level: Level, f: Frames.Frame)
    requires Keyed(c)
    ensures Keyed(ProcessFrame(c, level, f).0)
            <==> !(f.HandshakeDone? && c.side == Client && c.spaces.appdata.keys.None?)
  {
    hide CryptoOutput;
    if f.Crypto? {
      var (tls1, ok) := ReadHs(c.tls, level, f.data);
      var (tls2, out, kc) := WriteHs(tls1, level);
      var c1 := c.(tls := tls2);
      CryptoOutputKeeps(c1, out, KeysOf(kc), level);
      assert c1.spaces.At(APPDATA).keys.Some? ==>
          CryptoOutput(c1, out, KeysOf(kc), level).spaces.At(APPDATA).keys.Some?;
    }
  }

  /** An instance: the connection takes a HANDSHAKE_DONE at whatever level it comes. A datagram
      that is sealed with the Initial keys, which anyone can derive, establishes a client that has
      no 1-RTT keys. */
  lemma ForgedDone(c: Conn, s: DirectionalKeys, version: Packets.U32, dst: Data, src: Data, pn: nat, pnLen: nat)
    requires c.side == Client && c.state == Connecting && c.spaces.appdata.keys.None?
    requires c.spaces.initial.keys.Some? && Opens(s, c.spaces.initial.keys.value.remote)
    requires version != 0 && |dst| <= Packets.MAX_CID_LEN && |src| <= Packets.MAX_CID_LEN
    requires 1 <= pnLen <= 4 && pn < Pow256(pnLen)
    requires SealPacket(s, INITIAL, version, dst, src, [Frames.HandshakeDone], pn, pnLen, false).Ok?
    ensures var packet := SealPacket(s, INITIAL, version, dst, src, [Frames.HandshakeDone], pn, pnLen,
                                     false).value;
            SampleThere(c, packet)
            && var (d, r) := Ingest(c, packet);
            r == Ok(|packet|) && d.state == Established && d.spaces.appdata.keys.None?
  {
    hide SealPacket, Opens, Receive, SampleThere, ProcessFrames, FrameLaws.Pads,
         ProtectionLaws.PadCount, Delivery.Sturdy, Recorded, Pow256;
    var fs := [Frames.HandshakeDone];
    DoneSturdy();
    Delivery.LongReceived(c, s, INITIAL, version, dst, src, fs, pn, pnLen, false);
    var k := ProtectionLaws.PadCount(s, INITIAL, dst, src, fs, pnLen);
    var c0 := c.(spaces := c.spaces.With(INITIAL, Recorded(c.spaces.At(INITIAL), pn)));
    PaddedProcess(c0, INITIAL, fs, k);
    DoneMeans(c0, INITIAL);
  }

  lemma DoneSturdy()
    ensures Delivery.Sturdy([Frames.HandshakeDone])
  {
    forall k: nat ensures FrameLaws.ListRecoverable([Frames.HandshakeDone], Zeros(k)) {
      Delivery.SturdyList([Frames.HandshakeDone], Zeros(k));
    }
  }

  lemma DoneMeans(c: Conn, level: Level)
    requires c.side == Client
    ensures ProcessFrames(c, level, [Frames.HandshakeDone]) == (c.(state := Established), Pass)
  {
    assert [Frames.HandshakeDone][1..] == [];
  }

  lemma {:induction false} FramesKeyed(c: Conn, level: Level, fs: seq<Frames.Frame>)
    requires Keyed(c)
    requires c.side == Client && Frames.HandshakeDone in fs ==> c.spaces.appdata.keys.Some?
    ensures Keyed(ProcessFrames(c, level, fs).0)
    decreases |fs|
  {
    hide ProcessFrame, Keyed;
    if fs != [] {
      FrameKeyed(c, level, fs[0]);
      ProcessFrameKeeps(c, level, fs[0]);
      var c1 := ProcessFrame(c, level, fs[0]).0;
      assert c.spaces.At(APPDATA).keys.Some? ==> c1.spaces.At(APPDATA).keys.Some?;
      FramesKeyed(c1, level, fs[1..]);
    }
  }

  // ------------------------------------------------------------ the log of the server

  /** The frames of a sealed text include a HANDSHAKE_DONE. */
  predicate CarriesDone(call: SealCall)
  {
    Frames.FramesOf(call.text).Ok? && Frames.HandshakeDone in Frames.FramesOf(call.text).value
  }

  /** HANDSHAKE_DONE was only ever sealed for the application space, and only by a server that is
      now established or closed. */
  predicate DoneInPlace(log: seq<SealCall>, server: Conn)
  {
    forall call :: call in log && CarriesDone(call) ==>
      call.level == APPDATA && Lifecycle.Rank(server.state) >= 1
  }

  /** The text of the next packet carries a HANDSHAKE_DONE only from a server that finishes. */
  lemma NextCallDone(c: Conn, level: Level)
    requires c.spaces.At(level).keys.Some? && Sealing(c, level).Ok?
    ensures CarriesDone(NextCall(c, level)) ==> Finishing(c, level) && NextCall(c, level).level == APPDATA
  {
    hide SealPacket, CallFor, Waiting, Frames.FramesOf, Delivery.Sturdy, FrameLaws.Pads, AllWritable,
         ProtectionLaws.PadCount, Finishing;
    var keys, pn := c.spaces.At(level).keys.value.local, c.spaces.At(level).nextSendPn;
    var fs, n := Waiting(c, level), EncodedPnLen(pn);
    Delivery.WaitingSturdy(c, level);
    CallMade(keys, level, c.version, c.dstCid, c.srcCid, fs, pn, n, c.state == Established);
    CallText(keys, level, c.version, c.dstCid, c.srcCid, fs, pn, n, c.state == Established);
    if CarriesDone(NextCall(c, level)) {
      DoneBeforePads(fs, ProtectionLaws.PadCount(keys, level, c.dstCid, c.srcCid, fs, n));
      Lifecycle.DoneOnlyWhenFinishing(c, level);
      FinishingLevel(c, level);
      CallLevel(c, level);
    }
  }

  lemma FinishingLevel(c: Conn, level: Level)
    requires Finishing(c, level)
    ensures level == APPDATA
  {
  }

  lemma CallLevel(c: Conn, level: Level)
    requires c.spaces.At(level).keys.Some?
    ensures NextCall(c, level).level == level
  {
    hide PaddedPayload, Waiting;
  }

  /** A PADDING frame is not a HANDSHAKE_DONE. */
  lemma DoneBeforePads(fs: seq<Frames.Frame>, k: nat)
    requires Frames.HandshakeDone in fs + FrameLaws.Pads(k)
    ensures Frames.HandshakeDone in fs
  {
    assert Frames.HandshakeDone !in FrameLaws.Pads(k);
  }

  lemma StepDoneInPlace(log: seq<SealCall>, c: Conn, step: Step)
    requires DoneInPlace(log, c)
    ensures DoneInPlace(log + Calls(c, step), Next(c, step))
  {
    Lifecycle.StepProgress(c, step);
    hide Next, Depart, Waiting, CarriesDone, NextCall;
    if step.DoEgest? && c.state != State.Closed && Depart(c).1.Sent? {
      Lifecycle.DepartKeeps(c);
      Lifecycle.EgestState(c, step.cap);
      SentIsSealed(c);
      NextCallDone(c, Depart(c).1.level);
    }
  }

  lemma SentIsSealed(c: Conn)
    requires Depart(c).1.Sent?
    ensures var out := Depart(c).1;
            c.spaces.At(out.level).keys.Some? && Sealing(c, out.level) == Ok(out.packet)
            && out.pn == c.spaces.At(out.level).nextSendPn && out.frames == Waiting(c, out.level)
  {
    hide Waiting, Sealing;
  }

  // ------------------------------------------------------------ both endpoints

  ghost predicate Invariant(p: Pair)
  {
    && Keyed(p.client) && Keyed(p.server)
    && p.client.side == Client && p.server.side == Server
    && DoneInPlace(p.byServer, p.server)
  }

  lemma EgestKeyed(c: Conn)
    requires Keyed(c) && c.state != State.Closed
    ensures Keyed(Depart(c).0)
  {
    Lifecycle.DepartKeeps(c);
    hide Depart, Waiting;
  }

  lemma IngestKeyed(c: Conn, buf: Data, log: seq<SealCall>, server: Conn)
    requires Keyed(c) && SampleThere(c, buf) && Authentic(c, DoIngest(buf), log)
    requires c.side == Client ==> DoneInPlace(log, server)
    ensures Keyed(Ingest(c, buf).0)
  {
    hide ProcessFrames, Receive, SampleThere, Recorded, CallOpened, Frames.FramesOf;
    if c.state != State.Closed && buf != [] && Receive(c, buf).Ok? {
      var a := Receive(c, buf).value;
      var c1 := c.(spaces := c.spaces.With(a.level, Recorded(c.spaces.At(a.level), a.pn)));
      RecordedKeys(c, a.level, a.pn);
      ArrivalIsCall(c, buf);
      if c.side == Client && Frames.HandshakeDone in a.frames {
        assert CarriesDone(CallOpened(c, buf));
        KeyDiscipline.ReceiveHasKeys(c, buf);
      }
      FramesKeyed(c1, a.level, a.frames);
    }
  }

  lemma RecordedKeys(c: Conn, level: Level, pn: nat)
    ensures c.spaces.With(level, Recorded(c.spaces.At(level), pn)).appdata.keys == c.spaces.appdata.keys
  {
  }

  lemma StepKeyed(c: Conn, step: Step, log: seq<SealCall>, server: Conn)
    requires Keyed(c) && Authentic(c, step, log)
    requires c.side == Client ==> DoneInPlace(log, server)
    ensures Keyed(Next(c, step)) && Next(c, step).side == c.side
  {
    Lifecycle.StepProgress(c, step);
    hide Ingest, Depart, SampleThere, RecvData, DoneInPlace, Authentic, Lifecycle.Rank;
    match step
    case DoIngest(buf) =>
      if SampleThere(c, buf) {
        IngestKeyed(c, buf, log, server);
      }
    case DoEgest(_) =>
      if c.state != State.Closed {
        EgestKeyed(c);
      }
    case DoRecv(cap) => Lifecycle.RecvKeeps(c, cap);
    case DoSend(_) =>
  }

  lemma MoveKeeps(p: Pair, m: Move)
    requires Invariant(p) && Fair(p, m)
    ensures Invariant(Moved(p, m))
  {
    hide Next, Calls, Keyed, DoneInPlace, Authentic;
    if m.side == Client {
      StepKeyed(p.client, m.step, p.byServer, p.server);
    } else {
      StepKeyed(p.server, m.step, p.byClient, p.server);
      StepDoneInPlace(p.byServer, p.server, m.step);
    }
  }

  /** Under any delivery schedule without forgeries an endpoint that is established holds 1-RTT
      keys, and HANDSHAKE_DONE is only ever on the wire after the server is established. */
  lemma {:induction false} EstablishedHasKeys(p: Pair, ms: seq<Move>)
    requires Invariant(p) && AllFair(p, ms)
    ensures Invariant(After(p, ms))
    ensures After(p, ms).client.state == Established ==> After(p, ms).client.spaces.appdata.keys.Some?
    ensures After(p, ms).server.state == Established ==> After(p, ms).server.spaces.appdata.keys.Some?
    decreases |ms|
  {
    hide Moved, Fair, DoneInPlace;
    if ms != [] {
      MoveKeeps(p, ms[0]);
      EstablishedHasKeys(Moved(p, ms[0]), ms[1..]);
    }
  }

  /** Such runs start with `connect` and `accept`, and with the call that sealed the client's first
      packet. */
  lemma PairStarts(oracle: Oracle, keys: Keys, dst: Data, src: Data,
                   packet: Data, serverOracle: Oracle, serverKeys: Data -> Keys)
    requires Connect(oracle, keys, dst, src).Ok? && Accept(packet, serverOracle, serverKeys).Ok?
    ensures var c := Connect(oracle, keys, dst, src).value.0;
            Invariant(Pair(c, Accept(packet, serverOracle, serverKeys).value,
                           [FirstCall(oracle, keys, dst, src)], []))
  {
    hide Accept, Connect, FirstCall;
    Handshakes.ConnectConserves(oracle, keys, dst, src);
    Handshakes.AcceptFeeds(packet, serverOracle, serverKeys);
  }

  function FirstCall(oracle: Oracle, keys: Keys, dst: Data, src: Data): SealCall
  {
    CallFor(keys.local, INITIAL, Packets.VERSION_1, dst, src,
            [ClientHelloFrame(Handshakes.FirstHello(oracle))], 0, 1, false)
  }

  /** Delivering what the peer made is fair: its next packet, if it has a long header and a number
      below 2^32, opens to the very call that is logged for it. So does a short packet in the
      window that passes the header check. */
  lemma HonestIsFair(a: Conn, b: Conn)
    requires a.state != State.Closed && Depart(a).1.Sent?
    requires var out := Depart(a).1;
             && b.spaces.At(out.level).keys.Some?
             && Opens(a.spaces.At(out.level).keys.value.local, b.spaces.At(out.level).keys.value.remote)
             && (if out.level != APPDATA || a.state != Established then out.pn < 0x1_0000_0000
                 else PacketLaws.InWindow(b.spaces.appdata.largestRecvPn, out.pn, EncodedPnLen(out.pn)))
    requires a.version != 0 && |a.srcCid| <= Packets.MAX_CID_LEN
             && |a.dstCid| == |b.dstCid| <= Packets.MAX_CID_LEN
    ensures Authentic(b, DoIngest(Depart(a).1.packet), Calls(a, DoEgest(0)))
  {
    hide SealPacket, Depart, Waiting, Receive, SampleThere, Opens, PacketLaws.InWindow, Pow256, CallFor,
         CallOpened, Delivery.Sturdy, EncodedPnLen;
    var out := Depart(a).1;
    SentIsSealed(a);
    var s := a.spaces.At(out.level).keys.value.local;
    Delivery.WaitingSturdy(a, out.level);
    if out.level != APPDATA || a.state != Established {
      Delivery.FitsEncoding(out.pn);
      HonestLong(b, s, out.level, a.version, a.dstCid, a.srcCid, out.frames, out.pn,
                 EncodedPnLen(out.pn), a.state == Established);
    } else {
      HonestShort(b, s, a.version, a.dstCid, a.srcCid, out.frames, out.pn, EncodedPnLen(out.pn));
    }
  }
}
